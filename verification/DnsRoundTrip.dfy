/** Expansion and encoding undo each other, and when the computed buffer length is exact.
    Relates ares_expand_name.c and ares_mkquery.c. */
module DnsRoundTrip {
  import opened Bytes
  import opened DnsName
  import opened DnsQuery

  // ------------------------------------------------------------------------
  // Text to tokens
  // ------------------------------------------------------------------------

  lemma EscapedUnfold(bytes: seq<byte>)
    ensures Escaped([]) == [] && Chars([]) == []
    ensures bytes != [] ==> Escaped(bytes) == Escaped(bytes[..|bytes| - 1]) + EscapedByte(bytes[|bytes| - 1])
  {
  }

  lemma {:induction false} TokensOfByte(b: byte, rest: seq<byte>)
    ensures Tokens(EscapedByte(b) + rest) == [Ch(b)] + Tokens(rest)
  {
    var s := EscapedByte(b) + rest;
    if b == DOT || b == BACKSLASH {
      assert s[2..] == rest;
    } else {
      assert s[1..] == rest;
    }
  }

  lemma {:induction false} TokensOfLabel(bytes: seq<byte>, rest: seq<byte>)
    ensures Tokens(Escaped(bytes) + rest) == Chars(bytes) + Tokens(rest)
  {
    hide Tokens, Chars, Escaped, EscapedByte;
    EscapedUnfold(bytes);
    if bytes == [] {
      assert Escaped(bytes) + rest == rest;
      assert Chars(bytes) + Tokens(rest) == Tokens(rest);
    } else {
      var init, last := bytes[..|bytes| - 1], bytes[|bytes| - 1];
      var tail := EscapedByte(last) + rest;
      assert Escaped(bytes) + rest == Escaped(init) + tail;
      TokensOfLabel(init, tail);
      TokensOfByte(last, rest);
      CharsSnoc(init, last);
      assert bytes == init + [last];
    }
  }

  lemma DottedNil()
    ensures Dotted([]) == []
  {
  }

  lemma {:induction false} DottedCons(lab: seq<byte>, labels: Labels)
    ensures Dotted([lab] + labels) == Escaped(lab) + [DOT] + Dotted(labels)
  {
    hide Dotted, Escaped;
    DottedNil();
    if labels == [] {
      assert [lab] + [] == [] + [lab];
      DottedSnoc([], lab);
    } else {
      var init, last := labels[..|labels| - 1], labels[|labels| - 1];
      assert labels == init + [last];
      DottedCons(lab, init);
      DottedSnoc(init, last);
      assert [lab] + labels == ([lab] + init) + [last];
      DottedSnoc([lab] + init, last);
    }
  }

  lemma {:induction false} TextCons(lab: seq<byte>, labels: Labels)
    ensures Text([lab] + labels) == Escaped(lab) + if labels == [] then [] else [DOT] + Text(labels)
  {
    hide Dotted, Escaped;
    DottedNil();
    DottedCons(lab, labels);
    if labels != [] {
      DottedCons(labels[0], labels[1..]);
      assert labels == [labels[0]] + labels[1..];
    }
  }

  lemma TextNil()
    ensures Text([]) == []
  {
  }

  lemma {:induction false} TokensOfText(labels: Labels)
    ensures Tokens(Text(labels)) == Spelled(labels)
  {
    hide Chars, Escaped, Text, Spelled, Dotted;
    if labels == [] {
      TextNil();
      SpelledNil();
      NoTokensIff([]);
    } else {
      var lab, rest := labels[0], labels[1..];
      assert labels == [lab] + rest;
      SpelledCons(lab, rest);
      TextCons(lab, rest);
      if rest == [] {
        TokensOfLabel(lab, []);
        NoTokens([], 0);
        assert Escaped(lab) + [] == Escaped(lab);
        assert Chars(lab) + [] == Chars(lab);
      } else {
        TokensOfLabel(lab, [DOT] + Text(rest));
        TokensOfText(rest);
        assert Chars(lab) + ([Sep] + Spelled(rest)) == Chars(lab) + [Sep] + Spelled(rest);
      }
    }
  }

  /** The canonical text of some labels denotes exactly them. */
  lemma {:induction false} TextDenotes(labels: Labels)
    requires ValidLabels(labels)
    ensures Denotes(Text(labels), labels)
    ensures Meant(Text(labels)) == Accepted(labels)
  {
    TokensOfText(labels);
    MeantIsDenoted(Text(labels), labels);
  }

  // ------------------------------------------------------------------------
  // The wire form spells its labels
  // ------------------------------------------------------------------------

  lemma {:induction false} TrailSnoc(m: seq<byte>, trail: seq<nat>, next: nat)
    requires Trail(m, trail) && Follows(m, trail[|trail| - 1], next) && next < |m|
    ensures Trail(m, trail + [next])
  {
    var t := trail + [next];
    forall i | 0 <= i < |t| - 1 ensures Follows(m, t[i], t[i + 1]) {
      if i < |trail| - 1 {
        assert Follows(m, trail[i], trail[i + 1]);
      }
    }
  }

  lemma {:induction false} LabelsSnoc(m: seq<byte>, trail: seq<nat>, p: nat, next: nat)
    requires Trail(m, trail) && Trail(m, trail + [next]) && p == trail[|trail| - 1] && Follows(m, p, next) && next < |m|
    ensures LabelsOf(m, trail + [next])
            == LabelsOf(m, trail) + (if IsPointer(m[p]) then [] else [m[p + 1..p + 1 + m[p]]])
  {
    var t := trail + [next];
    assert t[..|t| - 1] == trail;
    assert t[|t| - 2] == p;
  }

  lemma {:induction false} PrefixTrail(m: seq<byte>, path: seq<nat>, k: nat)
    requires Trail(m, path) && 0 < k <= |path|
    ensures Trail(m, path[..k])
  {
    forall i | 0 <= i < k - 1 ensures Follows(m, path[..k][i], path[..k][i + 1]) {
      assert Follows(m, path[i], path[i + 1]);
    }
  }

  lemma {:induction false} LabelsCons(m: seq<byte>, p: nat, trail: seq<nat>)
    requires Trail(m, trail) && Trail(m, [p] + trail) && p < |m| && Follows(m, p, trail[0]) && trail[0] < |m|
    ensures LabelsOf(m, [p] + trail)
            == (if IsPointer(m[p]) then [] else [m[p + 1..p + 1 + m[p]]]) + LabelsOf(m, trail)
  {
    var k := |trail| - 1;
    if k == 0 {
      TrailSnoc(m, [p], trail[0]);
      LabelsSnoc(m, [p], p, trail[0]);
      assert [p] + trail == [p] + [trail[0]];
    } else {
      var init := trail[..k];
      assert Follows(m, trail[k - 1], trail[k]);
      PrefixTrail(m, trail, k);
      PrefixTrail(m, [p] + trail, k + 1);
      assert trail == init + [trail[k]];
      assert [p] + trail == ([p] + init) + [trail[k]];
      hide LabelsOf, Trail;
      assert ([p] + trail)[..k + 1] == [p] + init;
      LabelsCons(m, p, init);
      LabelsSnoc(m, [p] + init, trail[k - 1], trail[k]);
      LabelsSnoc(m, init, trail[k - 1], trail[k]);
    }
  }

  ghost predicate WireAt(m: seq<byte>, p: nat, labels: Labels) {
    && ValidLabels(labels)
    && p + |Wire(labels)| <= |m|
    && m[p..p + |Wire(labels)|] == Wire(labels)
  }

  lemma WireCons(labels: Labels)
    requires ValidLabels(labels) && labels != []
    ensures ValidLabels(labels[1..]) && Wire(labels) == [|labels[0]|] + labels[0] + Wire(labels[1..])
  {
  }

  lemma {:induction false} WireAtCons(m: seq<byte>, p: nat, labels: Labels)
    requires WireAt(m, p, labels) && labels != []
    ensures p < |m| && m[p] == |labels[0]|
    ensures p + 1 + |labels[0]| < |m| && m[p + 1..p + 1 + |labels[0]|] == labels[0]
    ensures WireAt(m, p + 1 + |labels[0]|, labels[1..])
    ensures |Wire(labels)| == 1 + |labels[0]| + |Wire(labels[1..])|
  {
    hide Wire, WireLabels;
    WireCons(labels);
    WireEnds(labels[1..]);
    var lab, rest := labels[0], labels[1..];
    var w := m[p..p + |Wire(labels)|];
    assert w[0] == |lab|;
    SliceOfSlice(m, p, |w|, 1, 1 + |lab|);
    SliceOfSlice(m, p, |w|, 1 + |lab|, |w|);
    assert w[1..1 + |lab|] == lab;
    assert w[1 + |lab|..|w|] == Wire(rest);
  }

  lemma SliceOfSlice(m: seq<byte>, p: nat, n: nat, i: nat, j: nat)
    requires i <= j <= n && p + n <= |m|
    ensures m[p..p + n][i..j] == m[p + i..p + j]
  {
    var w, u, v := m[p..p + n], m[p..p + n][i..j], m[p + i..p + j];
    forall k | 0 <= k < |u| ensures u[k] == v[k] {
      assert u[k] == w[i + k] && w[i + k] == m[p + (i + k)];
    }
  }

  lemma WireEnds(labels: Labels)
    requires ValidLabels(labels)
    ensures |Wire(labels)| >= 1
  {
  }

  lemma {:induction false} TrailCons(m: seq<byte>, p: nat, trail: seq<nat>)
    requires Trail(m, trail) && p < |m| && Follows(m, p, trail[0])
    ensures Trail(m, [p] + trail)
  {
    var t := [p] + trail;
    forall i | 0 <= i < |t| - 1 ensures Follows(m, t[i], t[i + 1]) {
      if i > 0 {
        assert Follows(m, trail[i - 1], trail[i]);
      }
    }
  }

  lemma {:induction false} WireWalk(m: seq<byte>, p: nat, labels: Labels) returns (path: seq<nat>)
    requires WireAt(m, p, labels)
    ensures Walk(m, path) && path != [] && path[0] == p
    ensures LabelsOf(m, path) == labels && SpanOf(m, path) == |Wire(labels)|
    decreases |labels|
  {
    if labels == [] {
      path := [p];
      assert m[p..p + 1][0] == 0;
    } else {
      WireAtCons(m, p, labels);
      var rest := WireWalk(m, p + 1 + |labels[0]|, labels[1..]);
      path := [p] + rest;
      TrailCons(m, p, rest);
      LabelsCons(m, p, rest);
      assert path[1..] == rest;
      assert path[|path| - 1] == rest[|rest| - 1];
      assert labels == [labels[0]] + labels[1..];
      hide LabelsOf, Trail, WireLabels;
    }
  }

  /** Wherever it stands in a message, the wire form of some labels expands to them
      and takes exactly its own length. */
  lemma {:induction false} WireExpands(m: seq<byte>, p: nat, labels: Labels)
    requires WireAt(m, p, labels)
    ensures Named(m, p) && NameAt(m, p) == labels && SpanAt(m, p) == |Wire(labels)|
  {
    var path := WireWalk(m, p, labels);
    NameAtWalk(m, path);
  }

  // ------------------------------------------------------------------------
  // The computed length
  // ------------------------------------------------------------------------

  /** Total number of characters in some labels. */
  function Total(labels: Labels): nat {
    if labels == [] then 0 else |labels[0]| + Total(labels[1..])
  }

  lemma {:induction false} Lengths(labels: Labels)
    requires ValidLabels(labels)
    ensures |Wire(labels)| == Total(labels) + |labels| + 1
    ensures |Spelled(labels)| == Total(labels) + if labels == [] then 0 else |labels| - 1
    ensures labels != [] ==> Spelled(labels) != [] && Spelled(labels)[|Spelled(labels)| - 1].Ch?
  {
    if labels == [] {
    } else {
      var lab, rest := labels[0], labels[1..];
      assert labels == [lab] + rest;
      SpelledCons(lab, rest);
      LastChar(lab);
      Lengths(rest);
    }
  }

  lemma {:induction false} LastChar(bytes: seq<byte>)
    ensures |Chars(bytes)| == |bytes|
    ensures bytes != [] ==> Chars(bytes)[|bytes| - 1] == Ch(bytes[|bytes| - 1])
  {
    if |bytes| > 1 {
      LastChar(bytes[1..]);
    }
  }

  /** The last token of a name shows in its last byte. */
  lemma {:induction false} LastToken(name: seq<byte>, p: nat)
    requires p < |name|
    ensures var ts := Tokens(name[p..]);
            ts != [] && name[|name| - 1] == match ts[|ts| - 1] case Sep => DOT case Ch(b) => b
    decreases |name| - p
  {
    Scan(name, p);
    hide Tokens;
    var q := if name[p] == BACKSLASH && p + 1 < |name| then p + 2 else p + 1;
    if q < |name| {
      LastToken(name, q);
    } else {
      NoTokens(name, q);
    }
  }

  predicate EndsInEscapedDot(name: seq<byte>) {
    var ts := Tokens(name);
    ts != [] && ts[|ts| - 1] == Ch(DOT)
  }

  /** The length pre-pass computes the length of the encoded name exactly
      unless the name is "." or ends in an escaped dot. */
  lemma {:induction false} PrePassExact(name: seq<byte>, labels: Labels)
    requires Denotes(name, labels)
    ensures PrePass(name) == |Wire(labels)| <==> name != [DOT] && !EndsInEscapedDot(name)
    ensures name == [DOT] ==> PrePass(name) == |Wire(labels)| + 1
    ensures EndsInEscapedDot(name) ==> PrePass(name) + 1 == |Wire(labels)|
  {
    var ts := Tokens(name);
    Lengths(labels);
    OnlySeparator(name);
    if name != [] {
      LastToken(name, 0);
      assert name[0..] == name;
    }
    hide Tokens, Spelled, WireLabels, Total;
    if labels == [] {
      SpelledNil();
      NoTokensIff(name);
      assert name == [] || name == [DOT];
    }
  }

  // ------------------------------------------------------------------------
  // Round trips
  // ------------------------------------------------------------------------

  /** What expansion reads in a question that was built for a name: the name's own labels. */
  lemma {:induction false} EncodeThenExpand(name: seq<byte>, dnsclass: int, qtype: int, id: int, rd: bool)
    requires Meant(name).Accepted?
    ensures var labels := Meant(name).labels;
            && ValidLabels(labels)
            && var m := Question(labels, dnsclass, qtype, id, rd);
            && Named(m, HFIXEDSZ)
            && NameAt(m, HFIXEDSZ) == labels
            && SpanAt(m, HFIXEDSZ) == |Wire(labels)|
            && Meant(Text(NameAt(m, HFIXEDSZ))) == Meant(name)
  {
    var labels := Meant(name).labels;
    MeantIsDenoted(name, labels);
    TextDenotes(labels);
    var m := Question(labels, dnsclass, qtype, id, rd);
    hide WireLabels, Meant, Text;
    assert m[HFIXEDSZ..HFIXEDSZ + |Wire(labels)|] == Wire(labels);
    WireExpands(m, HFIXEDSZ, labels);
  }

  /** Expanding a name and encoding the text puts the same labels on the wire, in exactly the length
      announced unless the last label ends in a dot. */
  lemma {:induction false} ExpandThenEncode(m: seq<byte>, start: nat)
    requires Named(m, start) && ValidLabels(NameAt(m, start))
    ensures var labels := NameAt(m, start);
            && Meant(Text(labels)) == Accepted(labels)
            && (PrePass(Text(labels)) == |Wire(labels)| <==> !LastLabelEndsInDot(labels))
  {
    var labels := NameAt(m, start);
    TextDenotes(labels);
    PrePassExact(Text(labels), labels);
    TokensOfText(labels);
    LastSpelled(labels);
    hide Text, Tokens, Meant;
    NotJustADot(labels);
  }

  predicate LastLabelEndsInDot(labels: Labels) {
    labels != [] && var last := labels[|labels| - 1]; last != [] && last[|last| - 1] == DOT
  }

  lemma {:induction false} NotJustADot(labels: Labels)
    requires ValidLabels(labels)
    ensures Text(labels) != [DOT]
  {
    TokensOfText(labels);
    OnlySeparator(Text(labels));
    if labels != [] {
      SpelledFirst(labels);
    }
    hide Tokens, Spelled, Text;
    SpelledNil();
    NoTokensIff(Text(labels));
  }

  lemma {:induction false} LastSpelled(labels: Labels)
    requires ValidLabels(labels)
    ensures var ts := Spelled(labels);
            (ts != [] && ts[|ts| - 1] == Ch(DOT)) <==> LastLabelEndsInDot(labels)
  {
    if labels == [] {
    } else {
      var lab, rest := labels[0], labels[1..];
      assert labels == [lab] + rest;
      SpelledCons(lab, rest);
      LastChar(lab);
      if rest != [] {
        LastSpelled(rest);
        SpelledFirst(rest);
      }
      hide Spelled, Chars;
    }
  }

  /** The text of labels without zero bytes is a C string. */
  lemma {:induction false} TextIsCString(labels: Labels)
    requires forall i :: 0 <= i < |labels| ==> 0 !in labels[i]
    ensures 0 !in Text(labels)
  {
    if labels == [] {
    } else {
      var lab, rest := labels[0], labels[1..];
      assert labels == [lab] + rest;
      TextCons(lab, rest);
      EscapedIsCString(lab);
      hide Text;
      TextIsCString(rest);
    }
  }

  lemma {:induction false} EscapedIsCString(bytes: seq<byte>)
    requires 0 !in bytes
    ensures 0 !in Escaped(bytes)
  {
    if bytes == [] {
    } else {
      EscapedIsCString(bytes[..|bytes| - 1]);
    }
  }

  lemma ShortText()
    ensures Text([[97, DOT]]) == [97, BACKSLASH, DOT]
  {
    assert [97, DOT][..1] == [97] && [97][..0] == [];
    assert Escaped([97]) == EscapedByte(97);
    var labels: Labels := [[97, DOT]];
    assert labels[..0] == [];
    assert Dotted(labels) == Dotted([]) + Escaped([97, DOT]) + [DOT];
  }

  /** The label "a." is written "a\.": four bytes on the wire where the pre-pass computes three. */
  lemma PrePassShort()
    ensures var name := [97, BACKSLASH, DOT];
            && Denotes(name, [[97, DOT]])
            && PrePass(name) == 3
            && |Wire([[97, DOT]])| == 4
  {
    hide Text, Escaped, Dotted, Tokens, Denotes;
    var labels: Labels := [[97, DOT]];
    ShortText();
    TextDenotes(labels);
    TokensOfText(labels);
    LastSpelled(labels);
    Lengths(labels);
    PrePassExact([97, BACKSLASH, DOT], labels);
  }
}
