/** Building a DNS question from a name in presentation form, and the round trips with expansion.
    Models ext/noderb_extension/libuv/src/ares/ares_mkquery.c. */
module DnsQuery {
  import opened Bytes
  import opened Sequences
  import opened DnsName

  const MAXCDNAME := 255
  const MAXLABEL := 63
  const HFIXEDSZ := 12
  const QFIXEDSZ := 4

  // ------------------------------------------------------------------------
  // Names as tokens: a label separator, or a character that stands for itself
  // ------------------------------------------------------------------------

  datatype Token = Sep | Ch(b: byte)

  function Tokens(name: seq<byte>): seq<Token> {
    if name == [] then []
    else if name[0] == BACKSLASH && |name| > 1 then [Ch(name[1])] + Tokens(name[2..])
    else if name[0] == DOT then [Sep] + Tokens(name[1..])
    else [Ch(name[0])] + Tokens(name[1..])
  }

  function Chars(bytes: seq<byte>): seq<Token> {
    if bytes == [] then [] else [Ch(bytes[0])] + Chars(bytes[1..])
  }

  /** Labels separated by dots. */
  function Spelled(labels: Labels): seq<Token> {
    if labels == [] then []
    else if |labels| == 1 then Chars(labels[0])
    else Chars(labels[0]) + [Sep] + Spelled(labels[1..])
  }

  ghost predicate ValidLabels(labels: Labels) {
    forall i :: 0 <= i < |labels| ==> 1 <= |labels[i]| <= MAXLABEL
  }

  /** `name` is a way to write `labels`: a trailing dot is optional, and the root is "" or ".". */
  ghost predicate Denotes(name: seq<byte>, labels: Labels) {
    && ValidLabels(labels)
    && (Tokens(name) == Spelled(labels) || Tokens(name) == Spelled(labels) + [Sep])
  }

  // ------------------------------------------------------------------------
  // Wire form, section 4.1.2 of RFC 1035
  // ------------------------------------------------------------------------

  function WireLabels(labels: Labels): seq<byte>
    requires ValidLabels(labels)
  {
    if labels == [] then []
    else [|labels[0]|] + labels[0] + WireLabels(labels[1..])
  }

  function Wire(labels: Labels): seq<byte>
    requires ValidLabels(labels)
  {
    WireLabels(labels) + [0]
  }

  /** A 16-bit field in network order; wider values are cut to their low 16 bits. */
  function Word(v: int): seq<byte> { [v / 256 % 256, v % 256] }

  /** Query ID, the recursion-desired bit, and a question count of one. */
  function Header(id: int, rd: bool): seq<byte> {
    Word(id) + [if rd then 1 else 0, 0] + Word(1) + [0, 0, 0, 0, 0, 0]
  }

  function Question(labels: Labels, dnsclass: int, qtype: int, id: int, rd: bool): seq<byte>
    requires ValidLabels(labels)
  {
    Header(id, rd) + Wire(labels) + Word(qtype) + Word(dnsclass)
  }

  /** What the length pre-pass computes for the encoded name. */
  function PrePass(name: seq<byte>): nat {
    1 + |Tokens(name)| + if name != [] && name[|name| - 1] != DOT then 1 else 0
  }

  // ------------------------------------------------------------------------
  // The label loop as a function of the tokens
  // ------------------------------------------------------------------------

  /** The characters up to the first separator. */
  function Lead(ts: seq<Token>): seq<byte> {
    if ts == [] || ts[0].Sep? then [] else [ts[0].b] + Lead(ts[1..])
  }

  datatype Parsed = Rejected | Accepted(labels: Labels)

  function Prepend(lab: seq<byte>, rest: Parsed): Parsed {
    if rest.Rejected? then Rejected else Accepted([lab] + rest.labels)
  }

  function Parse(ts: seq<Token>): Parsed
    decreases |ts|
  {
    LeadLength(ts);
    var lab := Lead(ts);
    if ts == [] then Accepted([])
    else if lab == [] || |lab| > MAXLABEL then Rejected
    else if |lab| == |ts| then Accepted([lab])
    else Prepend(lab, Parse(ts[|lab| + 1..]))
  }

  lemma {:induction false} LeadLength(ts: seq<Token>)
    ensures |Lead(ts)| <= |ts|
    ensures ts[..|Lead(ts)|] == Chars(Lead(ts))
    ensures |Lead(ts)| < |ts| ==> ts[|Lead(ts)|] == Sep
  {
    if ts != [] && ts[0].Ch? {
      LeadLength(ts[1..]);
      assert ts[..|Lead(ts)|] == [ts[0]] + ts[1..][..|Lead(ts[1..])|];
    }
  }

  lemma {:induction false} LeadOfChars(bytes: seq<byte>, rest: seq<Token>)
    requires rest == [] || rest[0].Sep?
    ensures Lead(Chars(bytes) + rest) == bytes
    ensures |Chars(bytes)| == |bytes|
  {
    if bytes == [] {
      assert Chars(bytes) + rest == rest;
    } else {
      var tail := Chars(bytes[1..]);
      assert Chars(bytes) == [Ch(bytes[0])] + tail;
      LeadOfChars(bytes[1..], rest);
      hide Lead, Chars;
      assert Chars(bytes) + rest == [Ch(bytes[0])] + (tail + rest);
      assert bytes == [bytes[0]] + bytes[1..];
    }
  }

  lemma {:induction false} SpelledCons(lab: seq<byte>, labels: Labels)
    ensures Spelled([lab] + labels) == if labels == [] then Chars(lab) else Chars(lab) + [Sep] + Spelled(labels)
  {
    assert ([lab] + labels)[1..] == labels;
  }

  /** One turn of the label loop on a label that a separator ends. */
  lemma {:induction false} ParseLabel(lab: seq<byte>, rest: seq<Token>)
    requires 1 <= |lab| <= MAXLABEL
    ensures Parse(Chars(lab) + [Sep] + rest) == Prepend(lab, Parse(rest))
  {
    var ts := Chars(lab) + [Sep] + rest;
    LeadOfChars(lab, [Sep] + rest);
    hide Chars, Lead;
    assert ts == Chars(lab) + ([Sep] + rest);
    assert ts[|lab| + 1..] == rest;
  }

  /** Spelling out labels and then parsing gives the labels back, with or without the final dot. */
  lemma {:induction false} ParseSpelled(labels: Labels, dot: bool)
    requires ValidLabels(labels) && (dot ==> labels != [])
    ensures Parse(Spelled(labels) + if dot then [Sep] else []) == Accepted(labels)
    decreases |labels|
  {
    if labels == [] {
    } else {
      var lab, rest := labels[0], labels[1..];
      assert labels == [lab] + rest;
      SpelledCons(lab, rest);
      hide Spelled, Chars, Lead, Parse;
      if rest == [] && !dot {
        LastLabel(lab);
        assert Spelled(labels) + [] == Chars(lab);
      } else if rest == [] {
        ParseLabel(lab, []);
        assert Spelled(labels) + [Sep] == Chars(lab) + [Sep] + [];
      } else {
        var tail := Spelled(rest) + if dot then [Sep] else [];
        ParseLabel(lab, tail);
        ParseSpelled(rest, dot);
        assert Spelled(labels) + (if dot then [Sep] else []) == Chars(lab) + [Sep] + tail;
      }
    }
  }

  lemma {:induction false} LastLabel(lab: seq<byte>)
    requires 1 <= |lab| <= MAXLABEL
    ensures Parse(Chars(lab)) == Accepted([lab])
  {
    LeadOfChars(lab, []);
    assert Chars(lab) + [] == Chars(lab);
  }

  /** Taking the first label off. */
  lemma {:induction false} ParseUnfold(ts: seq<Token>)
    ensures ts == [] ==> Parse(ts) == Accepted([])
    ensures ts != [] && Parse(ts).Accepted? ==>
              var lab := Lead(ts);
              && 1 <= |lab| <= MAXLABEL && |lab| <= |ts|
              && (|lab| == |ts| ==> Parse(ts) == Accepted([lab]) && ts == Chars(lab))
              && (|lab| < |ts| ==>
                   ts == Chars(lab) + [Sep] + ts[|lab| + 1..] && Parse(ts) == Prepend(lab, Parse(ts[|lab| + 1..])))
  {
    var lab := Lead(ts);
    LeadLength(ts);
    hide Lead, Chars;
    if ts != [] && |lab| == |ts| {
      assert ts[..|lab|] == ts;
    }
  }

  /** Parsing accepts nothing else. */
  lemma {:induction false} ParseSound(ts: seq<Token>)
    requires Parse(ts).Accepted?
    ensures var ls := Parse(ts).labels;
            && ValidLabels(ls)
            && (ls == [] ==> ts == [])
            && (ts == Spelled(ls) || ts == Spelled(ls) + [Sep])
    decreases |ts|
  {
    hide Parse, Spelled, Chars, Lead;
    ParseUnfold(ts);
    SpelledNil();
    if ts == [] {
    } else {
      var lab := Lead(ts);
      if |lab| == |ts| {
        SpelledCons(lab, []);
        assert [lab] + [] == [lab];
      } else {
        var rest := ts[|lab| + 1..];
        ParseSound(rest);
        var ls := Parse(rest).labels;
        SpelledCons(lab, ls);
        if ls == [] {
          assert ts == Chars(lab) + [Sep];
        } else if rest != Spelled(ls) {
          assert ts == Chars(lab) + [Sep] + Spelled(ls) + [Sep];
        }
      }
    }
  }

  lemma SpelledNil()
    ensures Spelled([]) == []
  {
  }

  // ------------------------------------------------------------------------
  // What a name means is unique
  // ------------------------------------------------------------------------

  function Meant(name: seq<byte>): Parsed {
    if name == [DOT] then Accepted([]) else Parse(Tokens(name))
  }

  lemma {:induction false} NoTokensIff(name: seq<byte>)
    ensures Tokens(name) == [] <==> name == []
  {
  }

  lemma {:induction false} OnlySeparator(name: seq<byte>)
    ensures Tokens(name) == [Sep] <==> name == [DOT]
  {
    hide Tokens;
    if name == [] {
      NoTokensIff(name);
    } else {
      Scan(name, 0);
      assert name[0..] == name;
      NoTokensIff(name[1..]);
      assert name == [name[0]] + name[1..];
      if name[0] == DOT {
        assert name[1..] == [] <==> name == [DOT];
        assert Tokens(name)[1..] == Tokens(name[1..]);
      }
    }
  }

  lemma {:induction false} SpelledFirst(labels: Labels)
    requires ValidLabels(labels) && labels != []
    ensures Spelled(labels) != [] && Spelled(labels)[0].Ch?
  {
    assert labels == [labels[0]] + labels[1..];
    SpelledCons(labels[0], labels[1..]);
  }

  lemma {:induction false} MeantIsDenoted(name: seq<byte>, labels: Labels)
    ensures Denotes(name, labels) <==> Meant(name) == Accepted(labels)
  {
    var ts := Tokens(name);
    OnlySeparator(name);
    hide Tokens, Parse;
    if Denotes(name, labels) {
      if labels != [] {
        SpelledFirst(labels);
      }
    }
    if Denotes(name, labels) && name != [DOT] {
      if ts == Spelled(labels) {
        assert ts == Spelled(labels) + [];
        ParseSpelled(labels, false);
      } else {
        assert labels == [] ==> ts == [Sep];
        ParseSpelled(labels, true);
      }
    }
    if Meant(name) == Accepted(labels) {
      if name == [DOT] {
        assert Spelled(labels) + [Sep] == [Sep];
      } else {
        ParseSound(ts);
      }
    }
  }

  // ------------------------------------------------------------------------
  // The code
  // ------------------------------------------------------------------------

  /** Reading a C string: its bytes, then the terminating zero. */
  function At(name: seq<byte>, i: nat): byte {
    if i < |name| then name[i] else 0
  }

  lemma {:induction false} Scan(name: seq<byte>, p: nat)
    requires p < |name|
    ensures Tokens(name[p..]) ==
            if name[p] == BACKSLASH && p + 1 < |name| then [Ch(name[p + 1])] + Tokens(name[p + 2..])
            else if name[p] == DOT then [Sep] + Tokens(name[p + 1..])
            else [Ch(name[p])] + Tokens(name[p + 1..])
  {
    var s := name[p..];
    assert s[1..] == name[p + 1..];
    if p + 1 < |name| {
      assert s[2..] == name[p + 2..];
    }
  }

  /** The length pre-pass. */
  method EncodedLength(name: seq<byte>) returns (len: nat)
    requires 0 !in name
    ensures len == PrePass(name)
  {
    hide Tokens;
    len := 1;
    var p: nat := 0;
    assert name[0..] == name;
    while At(name, p) != 0
      invariant p <= |name| && len + |Tokens(name[p..])| == 1 + |Tokens(name)|
      decreases |name| - p
    {
      Scan(name, p);
      if name[p] == BACKSLASH && At(name, p + 1) != 0 {
        p := p + 1;
      }
      p := p + 1;
      len := len + 1;
    }
    NoTokens(name, p);
    if At(name, 0) != 0 && name[p - 1] != DOT {
      len := len + 1;
    }
  }

  lemma NoTokens(name: seq<byte>, p: nat)
    requires p == |name|
    ensures Tokens(name[p..]) == []
  {
  }

  lemma {:induction false} CharsSnoc(bytes: seq<byte>, b: byte)
    ensures Chars(bytes + [b]) == Chars(bytes) + [Ch(b)]
  {
    if bytes == [] {
    } else {
      CharsSnoc(bytes[1..], b);
      assert (bytes + [b])[1..] == bytes[1..] + [b];
    }
  }

  /** The tokens from `pos` are the characters `seen` and then the tokens from `p`. */
  ghost predicate Scanned(name: seq<byte>, pos: nat, p: nat, seen: seq<byte>) {
    pos <= p <= |name| && Tokens(name[pos..]) == Chars(seen) + Tokens(name[p..])
  }

  /** One more character has been seen; `next` is where the rest begins. */
  lemma {:induction false} SeeOne(name: seq<byte>, pos: nat, p: nat, seen: seq<byte>, b: byte, next: nat)
    requires Scanned(name, pos, p, seen) && p < next <= |name| && Tokens(name[p..]) == [Ch(b)] + Tokens(name[next..])
    ensures Scanned(name, pos, next, seen + [b])
  {
    hide Tokens, Chars;
    CharsSnoc(seen, b);
    Regroup(Chars(seen), [Ch(b)], Tokens(name[next..]));
  }

  lemma {:induction false} ScanChar(name: seq<byte>, pos: nat, p: nat, seen: seq<byte>)
    requires Scanned(name, pos, p, seen) && p < |name| && name[p] != DOT
    ensures name[p] == BACKSLASH && p + 1 < |name| ==> Scanned(name, pos, p + 2, seen + [name[p + 1]])
    ensures !(name[p] == BACKSLASH && p + 1 < |name|) ==> Scanned(name, pos, p + 1, seen + [name[p]])
  {
    hide Tokens, Chars, Scanned;
    Scan(name, p);
    if name[p] == BACKSLASH && p + 1 < |name| {
      SeeOne(name, pos, p, seen, name[p + 1], p + 2);
    } else {
      SeeOne(name, pos, p, seen, name[p], p + 1);
    }
  }

  /** At a separator or at the end, `seen` is the whole label. */
  lemma {:induction false} ScanStop(name: seq<byte>, pos: nat, p: nat, seen: seq<byte>)
    requires Scanned(name, pos, p, seen) && (p == |name| || name[p] == DOT)
    ensures seen == Lead(Tokens(name[pos..]))
    ensures p == |name| ==> Tokens(name[pos..]) == Chars(seen)
    ensures p < |name| ==> Tokens(name[pos..]) == Chars(seen) + [Sep] + Tokens(name[p + 1..])
  {
    hide Tokens, Chars, Lead;
    if p < |name| {
      Scan(name, p);
    } else {
      NoTokens(name, p);
      assert Chars(seen) + [] == Chars(seen);
    }
    LeadOfChars(seen, Tokens(name[p..]));
  }

  lemma ScanBegin(name: seq<byte>, pos: nat)
    requires pos <= |name|
    ensures Scanned(name, pos, pos, [])
  {
  }

  /** Counts the characters of the label at `pos`. */
  method CountLabel(name: seq<byte>, pos: nat) returns (len: nat)
    requires 0 !in name && pos <= |name|
    ensures len == |Lead(Tokens(name[pos..]))|
  {
    hide Tokens, Chars, Lead, Scanned;
    var p := pos;
    len := 0;
    ghost var seen := [];
    ScanBegin(name, pos);
    while At(name, p) != 0 && At(name, p) != DOT
      invariant p <= |name| && Scanned(name, pos, p, seen) && len == |seen|
      decreases |name| - p
    {
      ScanChar(name, pos, p, seen);
      if name[p] == BACKSLASH && At(name, p + 1) != 0 {
        p := p + 1;
      }
      seen := seen + [name[p]];
      len := len + 1;
      p := p + 1;
    }
    ScanStop(name, pos, p, seen);
  }

  /** Appends the characters of the label at `pos`, unescaped, to `q`; stops behind them. */
  method CopyChars(name: seq<byte>, pos: nat, q: seq<byte>) returns (q': seq<byte>, p: nat)
    requires 0 !in name && pos <= |name|
    ensures pos <= p <= |name| && (p == |name| || name[p] == DOT)
    ensures q' == q + Lead(Tokens(name[pos..])) && Scanned(name, pos, p, Lead(Tokens(name[pos..])))
  {
    hide Tokens, Chars, Lead, Scanned;
    p := pos;
    q' := q;
    ghost var seen := [];
    ScanBegin(name, pos);
    while At(name, p) != 0 && At(name, p) != DOT
      invariant pos <= p <= |name| && Scanned(name, pos, p, seen) && q' == q + seen
      decreases |name| - p
    {
      ScanChar(name, pos, p, seen);
      if name[p] == BACKSLASH && At(name, p + 1) != 0 {
        p := p + 1;
      }
      q' := q' + [name[p]];
      seen := seen + [name[p]];
      p := p + 1;
    }
    ScanStop(name, pos, p, seen);
  }

  lemma {:induction false} WireSnoc(labels: Labels, lab: seq<byte>)
    requires ValidLabels(labels) && 1 <= |lab| <= MAXLABEL
    ensures ValidLabels(labels + [lab])
    ensures WireLabels(labels + [lab]) == WireLabels(labels) + [|lab|] + lab
  {
    if labels == [] {
    } else {
      WireSnoc(labels[1..], lab);
      assert (labels + [lab])[1..] == labels[1..] + [lab];
    }
  }

  /** What is known after some labels: the whole name means them and then whatever the rest parses to. */
  ghost function Attach(done: Labels, rest: Parsed): Parsed {
    if rest.Rejected? then Rejected else Accepted(done + rest.labels)
  }

  /** One turn of the label loop, from `done` labels and the tokens `ts` on. */
  lemma {:induction false} LabelTurn(name: seq<byte>, pos: nat, p: nat, done: Labels, lab: seq<byte>)
    requires pos <= p <= |name| && Scanned(name, pos, p, lab) && (p == |name| || name[p] == DOT)
    requires 1 <= |lab| <= MAXLABEL && ValidLabels(done)
    ensures ValidLabels(done + [lab]) && WireLabels(done + [lab]) == WireLabels(done) + [|lab|] + lab
    ensures Attach(done, Parse(Tokens(name[pos..])))
            == Attach(done + [lab], if p == |name| then Accepted([]) else Parse(Tokens(name[p + 1..])))
  {
    hide Tokens, Chars, Lead, Parse, Scanned, WireLabels;
    WireSnoc(done, lab);
    ScanStop(name, pos, p, lab);
    if p == |name| {
      LastLabel(lab);
      assert done + [lab] + [] == done + [lab];
    } else {
      var rest := Parse(Tokens(name[p + 1..]));
      ParseLabel(lab, Tokens(name[p + 1..]));
      if rest.Accepted? {
        assert done + ([lab] + rest.labels) == done + [lab] + rest.labels;
      }
    }
  }

  lemma {:induction false} NoMoreLabels(name: seq<byte>, done: Labels)
    ensures Attach(done, Parse(Tokens(name[|name|..]))) == Accepted(done)
    ensures Attach(done, Accepted([])) == Accepted(done)
  {
    NoTokens(name, |name|);
    assert done + [] == done;
  }

  lemma {:induction false} FirstTurn(name: seq<byte>)
    ensures Meant(name) == Attach([], Parse(Tokens(name[if name == [DOT] then 1 else 0..])))
    ensures ValidLabels([]) && WireLabels([]) == []
  {
    hide Tokens, Parse;
    if name == [DOT] {
      NoMoreLabels(name, []);
    } else {
      assert name[0..] == name;
      var rest := Parse(Tokens(name));
      if rest.Accepted? {
        assert [] + rest.labels == rest.labels;
      }
    }
  }

  /** Which labels are refused: empty ones and long ones. */
  lemma {:induction false} LabelRefused(name: seq<byte>, pos: nat, done: Labels)
    requires pos < |name|
    ensures var ts := Tokens(name[pos..]);
            && (name[pos] == DOT || |Lead(ts)| > MAXLABEL ==> Attach(done, Parse(ts)) == Rejected)
            && (name[pos] != DOT ==> |Lead(ts)| >= 1)
  {
    Scan(name, pos);
    hide Tokens;
  }

  lemma WireEndsInZero(header: seq<byte>, labels: Labels)
    requires ValidLabels(labels)
    ensures header + Wire(labels) == header + WireLabels(labels) + [0]
  {
    hide WireLabels;
    assert header + (WireLabels(labels) + [0]) == header + WireLabels(labels) + [0];
  }

  /** The label loop: appends the encoded name to `header`. */
  method EncodeName(name: seq<byte>, header: seq<byte>) returns (status: Status, q: seq<byte>)
    requires 0 !in name
    ensures status == Success <==> Meant(name).Accepted?
    ensures status == Success ==> ValidLabels(Meant(name).labels) && q == header + Wire(Meant(name).labels)
  {
    hide Tokens, Chars, WireLabels, Scanned, Meant, ValidLabels, Wire, Parse, Attach, Lead;
    q := header;
    var pos: nat := if name == [DOT] then 1 else 0;
    ghost var done: Labels := [];
    FirstTurn(name);
    assert header + [] == header;
    ghost var rest := Parse(Tokens(name[pos..]));
    while At(name, pos) != 0
      invariant pos <= |name| && ValidLabels(done)
      invariant rest == Parse(Tokens(name[pos..])) && Meant(name) == Attach(done, rest)
      invariant q == header + WireLabels(done)
      decreases |name| - pos
    {
      ghost var lab := Lead(Tokens(name[pos..]));
      LabelRefused(name, pos, done);
      if name[pos] == DOT {
        return BadName, q;
      }
      var n := CountLabel(name, pos);
      if n > MAXLABEL {
        return BadName, q;
      }
      var p;
      q, p := CopyChars(name, pos, q + [n]);
      LabelTurn(name, pos, p, done, lab);
      ghost var before := done;
      done := done + [lab];
      if At(name, p) == 0 {
        rest := Accepted([]);
        break;
      }
      pos := p + 1;
      rest := Parse(Tokens(name[pos..]));
    }
    NoMoreLabels(name, done);
    WireEndsInZero(header, done);
    q := q + [0];
    status := Success;
  }

  /** Encodes a question for `name`, a C string. `buflen` is what the caller is told about the size of `buf`. */
  method MkQuery(name: seq<byte>, dnsclass: int, qtype: int, id: int, rd: bool)
    returns (status: Status, buf: seq<byte>, buflen: nat)
    requires 0 !in name
    ensures status == Success <==> PrePass(name) <= MAXCDNAME && Meant(name).Accepted?
    ensures status == Success ==>
              && ValidLabels(Meant(name).labels)
              && buf == Question(Meant(name).labels, dnsclass, qtype, id, rd)
              && buflen == HFIXEDSZ + PrePass(name) + QFIXEDSZ
  {
    hide Wire, Meant, PrePass;
    buflen := 0;
    buf := [];
    var len := EncodedLength(name);
    if len > MAXCDNAME {
      return BadName, buf, buflen;
    }
    buflen := len + HFIXEDSZ + QFIXEDSZ;

    var q := seq(HFIXEDSZ, _ => 0);
    q := q[0 := id / 256 % 256][1 := id % 256];
    if rd {
      q := q[2 := 1];
    }
    q := q[4 := 0][5 := 1];
    assert q == Header(id, rd);

    status, q := EncodeName(name, q);
    if status == BadName {
      return BadName, buf, buflen;
    }
    q := q + Word(qtype);
    buf := q + Word(dnsclass);
  }
}
