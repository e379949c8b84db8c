/** Which texts are IPv6 addresses, and which have too many groups. Relates what inet_net_pton_ipv6 of
    ext/noderb_extension/libuv/src/ares/inet_net_pton.c reads to the form of the text. */
module InetGroups {
  import opened Bytes
  import opened InetText
  import opened InetParse
  import I4 = InetParse4
  import opened InetParse6
  import opened Options
  import opened Sequences

  // ------------------------------------------------------------------------
  // The form of the texts
  // ------------------------------------------------------------------------

  /** One to four hexadecimal digits, in either case, leading zeros allowed. */
  predicate Group(g: string) {
    1 <= |g| <= 4 && I4.AllHex(g)
  }

  predicate Groups(groups: seq<string>) {
    forall i :: 0 <= i < |groups| ==> Group(groups[i])
  }

  function HexNumber(g: string): nat
    requires I4.AllHex(g)
  {
    if g == "" then 0
    else
      I4.AllHexPart(g, 0, |g| - 1);
      16 * HexNumber(g[..|g| - 1]) + I4.HexValue(g[|g| - 1])
  }

  /** Groups with a colon after each, and one more colon in front of group number `gap`, or behind them all. */
  function Grouped(groups: seq<string>, gap: int): string {
    if groups == [] then if gap == 0 then ":" else ""
    else if gap == 0 then ":" + (groups[0] + (":" + Grouped(groups[1..], -1)))
    else groups[0] + (":" + Grouped(groups[1..], if gap < 0 then -1 else gap - 1))
  }

  /** A text that begins with "::" has one colon more in front of its first group. */
  function Entered(s: string): string {
    if s != "" && s[0] == ':' then s[1..] else s
  }

  /** Behind the groups with a colon: perhaps one more group and a prefix length, or a dotted end. */
  datatype Ending = Plain(last: string, width: Option<nat>) | Dots(text: string, quad: V4)

  function EndText(e: Ending): string {
    match e
    case Plain(last, width) => last + if width.Some? then "/" + Decimal(width.value) else ""
    case Dots(text, _) => text
  }

  predicate LastOk(e: Ending) {
    match e
    case Plain(last, _) => last == "" || Group(last)
    case Dots(_, _) => true
  }

  ghost predicate EndOk(e: Ending) {
    match e
    case Plain(last, width) => LastOk(e) && (width.Some? ==> width.value <= 128)
    case Dots(text, quad) => exists texts :: |texts| >= 2 && Quad(text, texts, quad)
  }

  function EndBits(e: Ending): int {
    match e
    case Plain(_, width) => if width.Some? then width.value else 128
    case Dots(_, quad) => if quad.bits.Some? then quad.bits.value else 128
  }

  /** The groups are groups; a single colon does not end the text. */
  ghost predicate Form(s: string, groups: seq<string>, gap: int, end: Ending) {
    && Groups(groups) && -1 <= gap <= |groups| && EndOk(end)
    && s == Grouped(groups, gap) + EndText(end)
    && (end == Plain("", None) && groups != [] ==> gap == |groups|)
  }

  function GroupBytes(g: string): (r: seq<byte>)
    requires I4.AllHex(g)
    ensures |r| == 2
  {
    [HexNumber(g) / 256 % 256, HexNumber(g) % 256]
  }

  function RowBytes(groups: seq<string>): (r: seq<byte>)
    requires Groups(groups)
    ensures |r| == 2 * |groups|
  {
    if groups == [] then []
    else
      assert Group(groups[0]);
      GroupBytes(groups[0]) + RowBytes(groups[1..])
  }

  /** Octets that are missing in a dotted end are zeros behind the others. */
  function EndBytes(e: Ending): seq<byte>
    requires LastOk(e)
  {
    match e
    case Plain(last, _) => if last == "" then [] else GroupBytes(last)
    case Dots(_, quad) => quad.octets + if |quad.octets| <= 4 then Zeros(4 - |quad.octets|) else []
  }

  /** What a text of that form says when it goes on behind the bytes and the "::" of `p`. */
  function Meaning(p: Part, groups: seq<string>, gap: int, end: Ending): Scan
    requires Groups(groups) && LastOk(end)
  {
    Scanned(p.bytes + (RowBytes(groups) + EndBytes(end)),
            if gap < 0 then p.colon else |p.bytes| + 2 * gap, EndBits(end), end.Dots?)
  }

  // ------------------------------------------------------------------------
  // One group
  // ------------------------------------------------------------------------

  /** Nothing of a group has been read. */
  predicate Fresh(p: Part) {
    ValidPart(p) && !p.saw && p.val == 0 && p.digits == 0
  }

  /** The digits of a group have been read. */
  function Open(p: Part, g: string): Part
    requires I4.AllHex(g)
  {
    p.(saw := g != "", val := HexNumber(g), digits := |g|)
  }

  /** Behind the colon of a group. */
  function Behind(p: Part, g: string, cur: string): Part
    requires I4.AllHex(g)
  {
    Part(p.bytes + GroupBytes(g), p.colon, false, 0, 0, cur)
  }

  /** Behind "::". */
  function AtGap(p: Part, cur: string): Part {
    p.(colon := |p.bytes|, cur := cur)
  }

  lemma HexNumberStep(g: string)
    requires I4.AllHex(g)
    ensures g == "" ==> HexNumber(g) == 0
    ensures g != "" ==> I4.AllHex(g[..|g| - 1])
                        && HexNumber(g) == 16 * HexNumber(g[..|g| - 1]) + I4.HexValue(g[|g| - 1])
  {
    if g != "" {
      I4.AllHexPart(g, 0, |g| - 1);
    }
  }

  lemma {:induction false} GroupIsRead(g: string, rest: string, p: Part)
    requires Fresh(p) && I4.AllHex(g) && |g| <= 4
    ensures ValidPart(Open(p, g)) && ScanFrom(g + rest, p) == ScanFrom(rest, Open(p, g))
    decreases |g|
  {
    hide ScanFrom, ValidPart, HexNumber;
    HexNumberStep(g);
    if g == "" {
      assert g + rest == rest && Open(p, g) == p;
    } else {
      var n := |g| - 1;
      var before, c := g[..n], g[n];
      GroupIsRead(before, [c] + rest, p);
      PartKeeps(Open(p, before), c, "");
      ScanStep([c] + rest, Open(p, before));
      assert ([c] + rest)[1..] == rest && g + rest == before + ([c] + rest);
    }
  }

  lemma {:induction false} LongGroup(s: string, p: Part)
    requires Fresh(p) && |s| > 4 && I4.AllHex(s[..5])
    ensures ScanFrom(s, p) == Bad
  {
    hide ScanFrom, ValidPart, HexNumber, XValue;
    I4.AllHexPart(s[..5], 0, 4);
    assert s[..5][0..4] == s[..4] && s == s[..4] + s[4..];
    GroupIsRead(s[..4], s[4..], p);
    assert s[..5][4] == s[4];
    ScanStep(s[4..], Open(p, s[..4]));
  }

  /** From between two groups the scan goes over the digits that come next. */
  lemma {:induction false} FreshStep(s: string, p: Part)
    requires Fresh(p)
    ensures var k := I4.HexSpan(s);
            if k > 4 then ScanFrom(s, p) == Bad
            else ValidPart(Open(p, s[..k])) && ScanFrom(s, p) == ScanFrom(s[k..], Open(p, s[..k]))
  {
    hide ScanFrom, ValidPart, Fresh, HexNumber;
    var k := I4.HexSpan(s);
    if k > 4 {
      I4.AllHexPart(s[..k], 0, 5);
      assert s[..k][0..5] == s[..5];
      LongGroup(s, p);
    } else {
      GroupIsRead(s[..k], s[k..], p);
      assert s[..k] + s[k..] == s;
    }
  }

  /** At a colon behind the digits `g`, if any. */
  lemma {:induction false} ColonStep(g: string, rest: string, p: Part)
    requires Fresh(p) && I4.AllHex(g) && |g| <= 4
    ensures ValidPart(Open(p, g))
    ensures var r := ScanFrom(":" + rest, Open(p, g));
            if g == "" then
              Fresh(AtGap(p, rest))
              && r == if p.colon != -1 then Bad else ScanFrom(rest, AtGap(p, rest))
            else if rest == "" then r == Bad
            else if |p.bytes| + 2 > 16 then r == Overfull
            else Fresh(Behind(p, g, rest)) && r == ScanFrom(rest, Behind(p, g, rest))
  {
    hide ScanFrom, HexNumber;
    GroupIsRead(g, "", p);
    HexNumberStep(g);
    ScanStep(":" + rest, Open(p, g));
    assert (":" + rest)[1..] == rest;
    assert Flushed(p.bytes, HexNumber(g)) == p.bytes + GroupBytes(g);
  }

  /** How a text goes on that is not bad: digits, and then its end, a dot, a slash, or a colon and what is behind. */
  lemma {:induction false} Turn(s: string, p: Part)
    requires Fresh(p) && !ScanFrom(s, p).Bad?
    ensures var k := I4.HexSpan(s);
            && k <= 4 && (k == |s| || s[k] == ':' || s[k] == '.' || s[k] == '/')
            && (ScanFrom(s, p).Overfull? ==> k < |s| && s[k] == ':')
    ensures var k := I4.HexSpan(s);
            k < |s| && s[k] == ':' ==>
              var g, rest := s[..k], s[k + 1..];
              && s == g + (":" + rest)
              && if k == 0 then
                   p.colon == -1 && Fresh(AtGap(p, rest)) && ScanFrom(s, p) == ScanFrom(rest, AtGap(p, rest))
                 else
                   && Group(g) && rest != ""
                   && if |p.bytes| + 2 > 16 then ScanFrom(s, p) == Overfull
                      else Fresh(Behind(p, g, rest)) && ScanFrom(s, p) == ScanFrom(rest, Behind(p, g, rest))
  {
    hide ScanFrom, HexNumber, Fresh, ValidPart, Behind, AtGap;
    var k := I4.HexSpan(s);
    FreshStep(s, p);
    NoDigits();
    if k == |s| {
      assert s[k..] == "";
      ScanEnd(Open(p, s[..k]));
    } else {
      ScanStep(s[k..], Open(p, s[..k]));
      var rest := s[k + 1..];
      if s[k] == ':' {
        ColonStep(s[..k], rest, p);
        assert s[k..] == ":" + rest && s == s[..k] + (":" + rest);
        assert k == 0 ==> s[..k] == "";
      }
    }
  }

  // ------------------------------------------------------------------------
  // Rows of groups
  // ------------------------------------------------------------------------

  lemma RowHead(groups: seq<string>, gap: int, tail: string)
    ensures gap == 0 ==> Grouped(groups, 0) + tail == ":" + (Grouped(groups, -1) + tail)
    ensures gap != 0 && groups != [] ==>
              Grouped(groups, gap) + tail
              == groups[0] + (":" + (Grouped(groups[1..], if gap < 0 then -1 else gap - 1) + tail))
    ensures gap != 0 && groups == [] ==> Grouped(groups, gap) + tail == tail
  {
  }

  lemma NoDigits()
    ensures !I4.IsHex(':') && !I4.IsHex('/') && !I4.IsHex('.')
  {
  }

  lemma {:induction false} MeaningCons(p: Part, g: string, cur: string, groups: seq<string>, gap: int, end: Ending)
    requires Group(g) && Groups(groups) && gap >= -1
    requires LastOk(end)
    ensures Meaning(Behind(p, g, cur), groups, gap, end)
            == Meaning(p, [g] + groups, if gap < 0 then -1 else gap + 1, end)
  {
    hide GroupBytes, EndBytes;
    assert ([g] + groups)[1..] == groups;
    Regroup(GroupBytes(g), RowBytes(groups), EndBytes(end));
    Regroup(p.bytes, GroupBytes(g), RowBytes(groups) + EndBytes(end));
  }

  // ------------------------------------------------------------------------
  // Every text of the form is read
  // ------------------------------------------------------------------------

  lemma WidthIsRead(width: nat, p: Part)
    requires ValidPart(p) && width <= 128
    ensures ScanFrom("/" + Decimal(width), p) == Stopped(p, width)
  {
    hide ScanFrom, BitsOf, Numeral, Stopped;
    BitsOfDecimal(width);
    var s := "/" + Decimal(width);
    assert s[1..] == Decimal(width);
    NoDigits();
    ScanStep(s, p);
  }

  lemma {:induction false} PlainIsRead(last: string, width: Option<nat>, p: Part)
    requires Fresh(p) && (last == "" || Group(last)) && (width.Some? ==> width.value <= 128)
    requires |p.bytes| + (if last == "" then 0 else 2) <= 16
    ensures ScanFrom(EndText(Plain(last, width)), p) == Meaning(p, [], -1, Plain(last, width))
  {
    hide ScanFrom, Numeral, HexNumber;
    var end := Plain(last, width);
    var rest := if width.Some? then "/" + Decimal(width.value) else "";
    GroupIsRead(last, rest, p);
    HexNumberStep(last);
    var q := Open(p, last);
    if width.Some? {
      WidthIsRead(width.value, q);
    } else {
      ScanEnd(q);
    }
    assert p.bytes + ([] + EndBytes(end)) == p.bytes + EndBytes(end);
    if last != "" {
      assert Flushed(p.bytes, HexNumber(last)) == p.bytes + GroupBytes(last);
    } else {
      assert p.bytes + [] == p.bytes;
    }
  }

  /** The first octet of a dotted end is read as if it were a group. */
  lemma {:induction false} OctetDigits(t: string, v: byte)
    requires Octet(t, v)
    ensures I4.AllHex(t) && |t| <= 3
  {
    hide Numeral;
    DecimalValue(v);
    DecimalLength(v);
  }

  lemma {:induction false} DotsAreRead(text: string, quad: V4, p: Part)
    requires Fresh(p) && p.cur == text && EndOk(Dots(text, quad)) && |p.bytes| + 4 <= 16
    ensures |quad.octets| <= 4 && ScanFrom(text, p) == Meaning(p, [], -1, Dots(text, quad))
  {
    hide ScanFrom, Numeral, HexNumber, Run4, Quad, Octet;
    var texts :| |texts| >= 2 && Quad(text, texts, quad);
    var rest := QuadSplit(text, texts, quad);
    QuadSize(text, texts, quad);
    OctetDigits(texts[0], quad.octets[0]);
    GroupIsRead(texts[0], "." + rest, p);
    QuadExact(text, quad);
    ScanStep("." + rest, Open(p, texts[0]));
    NoDigits();
    assert p.bytes + ([] + EndBytes(Dots(text, quad))) == p.bytes + quad.octets + Zeros(4 - |quad.octets|);
  }

  lemma QuadSize(s: string, texts: seq<string>, r: V4)
    requires Quad(s, texts, r)
    ensures 1 <= |texts| == |r.octets| <= 4
  {
  }

  /** A text of the form is read as what it says. */
  lemma {:induction false} FormIsRead(s: string, p: Part, groups: seq<string>, gap: int, end: Ending)
    requires Fresh(p) && p.cur == s && Form(s, groups, gap, end) && (p.colon != -1 ==> gap == -1)
    requires |p.bytes| + |RowBytes(groups)| + |EndBytes(end)| <= 16
    ensures ScanFrom(s, p) == Meaning(p, groups, gap, end)
    decreases |s|
  {
    hide ScanFrom, Grouped, EndText, HexNumber;
    RowHead(groups, gap, EndText(end));
    if gap == 0 {
      var rest := Grouped(groups, -1) + EndText(end);
      ColonStep("", rest, p);
      assert Open(p, "") == p by { HexNumberStep(""); }
      FormIsRead(rest, AtGap(p, rest), groups, -1, end);
    } else if groups == [] {
      match end {
        case Plain(last, width) => PlainIsRead(last, width, p);
        case Dots(text, quad) =>
          EndTextDots(text, quad);
          DotsAreRead(text, quad, p);
      }
    } else {
      var g, next := groups[0], if gap < 0 then -1 else gap - 1;
      var rest := Grouped(groups[1..], next) + EndText(end);
      assert Group(g) && groups == [g] + groups[1..];
      GroupIsRead(g, ":" + rest, p);
      ColonStep(g, rest, p);
      RestNotEmpty(groups, gap, end);
      FormIsRead(rest, Behind(p, g, rest), groups[1..], next, end);
      MeaningCons(p, g, rest, groups[1..], next, end);
    }
  }

  lemma EndTextDots(text: string, quad: V4)
    ensures EndText(Dots(text, quad)) == text
  {
  }

  /** Behind the colon of a group there is something more. */
  lemma RestNotEmpty(groups: seq<string>, gap: int, end: Ending)
    requires groups != [] && gap != 0 && EndOk(end) && -1 <= gap <= |groups|
    requires end == Plain("", None) ==> gap == |groups|
    ensures Grouped(groups[1..], if gap < 0 then -1 else gap - 1) + EndText(end) != ""
    ensures Form(Grouped(groups, gap) + EndText(end), groups, gap, end) ==>
              Form(Grouped(groups[1..], if gap < 0 then -1 else gap - 1) + EndText(end),
                   groups[1..], if gap < 0 then -1 else gap - 1, end)
  {
    hide Numeral;
    if end.Dots? {
      var texts :| |texts| >= 2 && Quad(end.text, texts, end.quad);
      var rest := QuadSplit(end.text, texts, end.quad);
    }
  }

  // ------------------------------------------------------------------------
  // Every text that is read has the form
  // ------------------------------------------------------------------------

  lemma {:induction false} BitsAreWidth(s: string)
    requires BitsOf(s).Some?
    ensures 0 <= BitsOf(s).value <= 128 && s == Decimal(BitsOf(s).value)
  {
  }

  /** A text of one octet has no dot. */
  lemma {:induction false} OneOctet(s: string, texts: seq<string>, r: V4)
    requires Quad(s, texts, r) && |texts| == 1
    ensures forall i :: 0 <= i < |s| ==> s[i] != '.'
  {
    hide Numeral;
    assert Octet(texts[0], r.octets[0]);
    DecimalValue(r.octets[0]);
    assert forall i :: 0 <= i < |texts[0]| ==> IsDigit(texts[0][i]);
    if r.bits.Some? {
      DecimalValue(r.bits.value);
      var d := Decimal(r.bits.value);
      assert forall i :: 0 <= i < |d| ==> IsDigit(d[i]);
      assert s == texts[0] + ("/" + d);
    }
  }

  /** What stops the digits at the end of the text or of its groups. */
  lemma {:induction false} EndIsPlain(s: string, p: Part) returns (end: Ending)
    requires Fresh(p) && I4.HexSpan(s) <= 4 && ScanFrom(s, p).Scanned?
    requires var k := I4.HexSpan(s); k == |s| || s[k] == '/'
    ensures EndOk(end) && EndText(end) == s && ScanFrom(s, p) == Meaning(p, [], -1, end)
    ensures end.Plain? && |p.bytes| + |EndBytes(end)| <= 16
  {
    hide ScanFrom, Numeral, HexNumber, BitsOf;
    var k := I4.HexSpan(s);
    var g, rest := s[..k], s[k..];
    FreshStep(s, p);
    HexNumberStep(g);
    if k == |s| {
      ScanEnd(Open(p, g));
      end := Plain(g, None);
    } else {
      NoDigits();
      ScanStep(rest, Open(p, g));
      BitsAreWidth(rest[1..]);
      end := Plain(g, Some(BitsOf(rest[1..]).value));
      assert rest == "/" + rest[1..];
    }
    assert s == g + rest;
    PlainIsRead(g, end.width, p);
  }

  lemma {:induction false} EndIsDots(s: string, p: Part) returns (end: Ending)
    requires Fresh(p) && p.cur == s && I4.HexSpan(s) <= 4 && ScanFrom(s, p).Scanned?
    requires var k := I4.HexSpan(s); k < |s| && s[k] == '.'
    ensures EndOk(end) && EndText(end) == s && ScanFrom(s, p) == Meaning(p, [], -1, end)
    ensures end.Dots? && |p.bytes| + |EndBytes(end)| <= 16
  {
    hide ScanFrom, Numeral, HexNumber, Run4, Quad;
    var k := I4.HexSpan(s);
    FreshStep(s, p);
    NoDigits();
    ScanStep(s[k..], Open(p, s[..k]));
    var quad := Run4(s, [], 0, 0).value;
    QuadExact(s, quad);
    var texts :| Quad(s, texts, quad);
    QuadSize(s, texts, quad);
    if |texts| == 1 {
      OneOctet(s, texts, quad);
    }
    end := Dots(s, quad);
    DotsAreRead(s, quad, p);
  }

  /** What is read has the form and says what was read. */
  lemma {:induction false} ReadIsForm(s: string, p: Part) returns (groups: seq<string>, gap: int, end: Ending)
    requires Fresh(p) && p.cur == s && ScanFrom(s, p).Scanned?
    ensures Form(s, groups, gap, end) && (p.colon != -1 ==> gap == -1) && (gap == 0 <==> s != "" && s[0] == ':')
    ensures |p.bytes| + |RowBytes(groups)| + |EndBytes(end)| <= 16 && ScanFrom(s, p) == Meaning(p, groups, gap, end)
    decreases |s|
  {
    hide ScanFrom, EndText, HexNumber, EndOk, EndBytes, EndBits, Fresh, ValidPart, Grouped, RowBytes, GroupBytes, Form;
    var k := I4.HexSpan(s);
    Turn(s, p);
    if k == |s| || s[k] == '/' || s[k] == '.' {
      end := EndIsRead(s, p);
      groups, gap := [], -1;
    } else {
      var g, rest := s[..k], s[k + 1..];
      if k == 0 {
        groups, gap, end := ReadIsForm(rest, AtGap(p, rest));
        FormAtGap(rest, groups, end);
        gap := 0;
      } else {
        groups, gap, end := ReadIsForm(rest, Behind(p, g, rest));
        FormText(rest, groups, gap, end);
        MeaningCons(p, g, rest, groups, gap, end);
        RowLonger(g, groups, gap, end);
        groups, gap := [g] + groups, if gap < 0 then -1 else gap + 1;
      }
    }
  }

  lemma FormText(s: string, groups: seq<string>, gap: int, end: Ending)
    requires Form(s, groups, gap, end)
    ensures Groups(groups) && LastOk(end) && gap >= -1 && s == Grouped(groups, gap) + EndText(end)
  {
  }

  /** One more colon in front. */
  lemma FormAtGap(s: string, groups: seq<string>, end: Ending)
    requires Form(s, groups, -1, end)
    ensures Form(":" + s, groups, 0, end) && Groups(groups) && LastOk(end)
  {
    hide EndOk, EndText, Grouped;
    LastIsOk(end);
    RowHead(groups, 0, EndText(end));
    FormEnds(s, groups, end);
  }

  lemma FormEnds(s: string, groups: seq<string>, end: Ending)
    requires Form(s, groups, -1, end)
    ensures end == Plain("", None) ==> groups == []
  {
  }

  /** The text behind the groups. */
  lemma {:induction false} EndIsRead(s: string, p: Part) returns (end: Ending)
    requires Fresh(p) && p.cur == s && I4.HexSpan(s) <= 4 && ScanFrom(s, p).Scanned?
    requires var k := I4.HexSpan(s); k == |s| || s[k] == '/' || s[k] == '.'
    ensures Form(s, [], -1, end) && ScanFrom(s, p) == Meaning(p, [], -1, end) && (s == "" || s[0] != ':')
    ensures |p.bytes| + |RowBytes([])| + |EndBytes(end)| <= 16
  {
    hide ScanFrom, EndText, HexNumber, EndOk, EndBytes, EndBits, Fresh, Grouped, RowBytes, GroupBytes, Form;
    var k := I4.HexSpan(s);
    NoDigits();
    if k < |s| && s[k] == '.' {
      end := EndIsDots(s, p);
    } else {
      end := EndIsPlain(s, p);
    }
    EndAlone(s, end);
  }

  lemma EndAlone(s: string, end: Ending)
    requires EndOk(end) && EndText(end) == s
    ensures Form(s, [], -1, end) && RowBytes([]) == []
  {
    hide EndOk, EndText;
    RowHead([], -1, s);
  }

  lemma LastIsOk(end: Ending)
    requires EndOk(end)
    ensures LastOk(end)
  {
  }

  lemma {:induction false} RowLonger(g: string, groups: seq<string>, gap: int, end: Ending)
    requires Group(g) && Form(Grouped(groups, gap) + EndText(end), groups, gap, end)
    requires Grouped(groups, gap) + EndText(end) != ""
    ensures var s, next := g + (":" + (Grouped(groups, gap) + EndText(end))), if gap < 0 then -1 else gap + 1;
            Form(s, [g] + groups, next, end) && |RowBytes([g] + groups)| == 2 + |RowBytes(groups)|
  {
    hide EndOk, GroupBytes;
    var next := if gap < 0 then -1 else gap + 1;
    assert ([g] + groups)[1..] == groups;
    RowHead([g] + groups, next, EndText(end));
    assert Plain("", None).last == "";
  }

  // ------------------------------------------------------------------------
  // The whole text
  // ------------------------------------------------------------------------

  /** The text is groups of one to four digits, "::" at most once, and an ending, of 16 bytes at most. */
  ghost predicate Spells(s: string, groups: seq<string>, gap: int, end: Ending) {
    && Groups(groups) && LastOk(end) && Form(Entered(s), groups, gap, end) && (gap == 0 <==> s != "" && s[0] == ':')
    && |RowBytes(groups)| + |EndBytes(end)| <= 16
  }

  function Start(s: string): Part { Part([], -1, false, 0, 0, Entered(s)) }

  /** The loop reads exactly the texts of that form, and what they say. */
  lemma {:induction false} SpellsExact(s: string, r: Scan)
    requires r.Scanned?
    ensures ScanText(s) == r <==>
            exists groups: seq<string>, gap: int, end: Ending ::
              Spells(s, groups, gap, end) && r == Meaning(Start(s), groups, gap, end)
  {
    hide ScanFrom, Form;
    if ScanText(s) == r {
      var groups, gap, end := ReadIsForm(Entered(s), Start(s));
      FormParts(Entered(s), groups, gap, end);
      assert Spells(s, groups, gap, end);
    }
    if groups: seq<string>, gap: int, end: Ending :|
        Spells(s, groups, gap, end) && r == Meaning(Start(s), groups, gap, end) {
      FormIsRead(Entered(s), Start(s), groups, gap, end);
      FirstColon(Entered(s), groups, gap, end);
    }
  }

  lemma FormParts(s: string, groups: seq<string>, gap: int, end: Ending)
    requires Form(s, groups, gap, end)
    ensures Groups(groups) && LastOk(end)
  {
  }

  lemma FirstColon(s: string, groups: seq<string>, gap: int, end: Ending)
    requires Form(s, groups, gap, end)
    ensures gap == 0 ==> s != "" && s[0] == ':'
  {
  }

  // ------------------------------------------------------------------------
  // Too many groups
  // ------------------------------------------------------------------------

  /** `s` is `n` groups, each with its colon, and something more; group number `gap` stands behind "::". */
  ghost predicate Splits(s: string, n: nat, groups: seq<string>, gap: int, rest: string) {
    && |groups| == n && Groups(groups) && -1 <= gap < n && rest != ""
    && s == Grouped(groups, gap) + rest
  }

  /** Nine groups of one to four digits, a colon after the ninth, and something more. "::" may stand in front or
      between two groups, once. */
  ghost predicate NineGroups(s: string) {
    exists groups: seq<string>, gap: int, rest: string ::
      Splits(Entered(s), 9, groups, gap, rest) && (gap == 0 <==> s != "" && s[0] == ':')
  }

  /** No group is open; `n` groups are one too many. */
  ghost predicate Between(p: Part, n: nat) {
    Fresh(p) && 1 <= n <= 9 && |p.bytes| == 18 - 2 * n
  }

  /** A scan that ends with too many groups has read them. */
  lemma {:induction false} OverfullSplits(s: string, p: Part, n: nat)
    returns (groups: seq<string>, gap: int, rest: string)
    requires Between(p, n) && ScanFrom(s, p).Overfull?
    ensures Splits(s, n, groups, gap, rest) && (p.colon != -1 ==> gap == -1)
    ensures gap == 0 <==> s != "" && s[0] == ':'
    decreases |s|
  {
    hide ScanFrom, Grouped, HexNumber, Fresh, Group;
    var k := I4.HexSpan(s);
    Turn(s, p);
    NoDigits();
    var g, more := s[..k], s[k + 1..];
    if k == 0 {
      groups, gap, rest := OverfullSplits(more, AtGap(p, more), n);
      RowHead(groups, 0, rest);
      gap := 0;
    } else if n == 1 {
      groups, gap, rest := [g] + [], -1, more;
      RowHead([g] + [], -1, rest);
      RowHead([], -1, rest);
    } else {
      groups, gap, rest := OverfullSplits(more, Behind(p, g, more), n - 1);
      var next := if gap < 0 then -1 else gap + 1;
      RowHead([g] + groups, next, rest);
      assert ([g] + groups)[1..] == groups;
      groups, gap := [g] + groups, next;
    }
  }

  /** Texts of that form are read up to the colon after the last group. */
  lemma {:induction false} SplitsOverfull(s: string, p: Part, n: nat, groups: seq<string>, gap: int, rest: string)
    requires Between(p, n) && Splits(s, n, groups, gap, rest) && (p.colon != -1 ==> gap == -1)
    ensures ScanFrom(s, p).Overfull?
    decreases |s|
  {
    hide ScanFrom, Grouped, HexNumber;
    RowHead(groups, gap, rest);
    if gap == 0 {
      var more := Grouped(groups, -1) + rest;
      ColonStep("", more, p);
      assert Open(p, "") == p by { HexNumberStep(""); }
      SplitsOverfull(more, AtGap(p, more), n, groups, -1, rest);
    } else {
      var g, tail, next := groups[0], groups[1..], if gap < 0 then -1 else gap - 1;
      var more := Grouped(tail, next) + rest;
      assert Group(g);
      GroupIsRead(g, ":" + more, p);
      ColonStep(g, more, p);
      if n > 1 {
        SplitsOverfull(more, Behind(p, g, more), n - 1, tail, next, rest);
      }
    }
  }

  /** The loop returns 0 early exactly for the texts that begin with nine groups, a colon and something more. */
  lemma {:induction false} OverfullExact(s: string)
    ensures ScanText(s).Overfull? <==> NineGroups(s)
  {
    hide ScanFrom, Grouped;
    var t, p := Entered(s), Start(s);
    if ScanText(s).Overfull? {
      var groups, gap, rest := OverfullSplits(t, p, 9);
    }
    if groups: seq<string>, gap: int, rest: string :|
        Splits(t, 9, groups, gap, rest) && (gap == 0 <==> s != "" && s[0] == ':') {
      SplitsOverfull(t, p, 9, groups, gap, rest);
      RowHead(groups, gap, rest);
    }
  }

  // ------------------------------------------------------------------------
  // Which texts are accepted
  // ------------------------------------------------------------------------

  /** As many bytes as the width asks for, or fewer and "::"; of those behind "::" no more than it asks for. */
  predicate Fits(groups: seq<string>, gap: int, end: Ending)
    requires Groups(groups) && LastOk(end)
  {
    var n, wanted := |RowBytes(groups)| + |EndBytes(end)|, Wanted(EndBits(end), end.Dots?);
    (gap == -1) == (n == wanted) && (gap != -1 ==> n - 2 * gap <= wanted)
  }

  /** The text is an address or network of that width. */
  ghost predicate Accepted6(s: string, bits: int) {
    exists groups: seq<string>, gap: int, end: Ending ::
      Spells(s, groups, gap, end) && Fits(groups, gap, end) && EndBits(end) == bits
  }

  lemma {:induction false} SpellsMeaning(s: string, groups: seq<string>, gap: int, end: Ending)
    requires Spells(s, groups, gap, end)
    ensures var r := Meaning(Start(s), groups, gap, end);
            && r == Scanned(RowBytes(groups) + EndBytes(end), if gap < 0 then -1 else 2 * gap, EndBits(end), end.Dots?)
            && ValidScan(r) && -1 <= gap <= |groups| && |RowBytes(groups)| == 2 * |groups|
  {
    hide RowBytes, EndBytes, EndBits, Grouped, EndText;
    EndBitsOk(end);
    RowSize(groups);
    assert [] + (RowBytes(groups) + EndBytes(end)) == RowBytes(groups) + EndBytes(end);
  }

  lemma {:induction false} SpellsFits(s: string, groups: seq<string>, gap: int, end: Ending)
    requires Spells(s, groups, gap, end)
    ensures var r := Meaning(Start(s), groups, gap, end);
            ValidScan(r) && (Finished(r, 16).Address? <==> Fits(groups, gap, end))
  {
    hide RowBytes, EndBytes, EndBits, Form, Meaning, Kept;
    SpellsMeaning(s, groups, gap, end);
  }

  lemma EndBitsOk(end: Ending)
    requires EndOk(end)
    ensures 0 <= EndBits(end) <= 128
  {
  }

  lemma RowSize(groups: seq<string>)
    requires Groups(groups)
    ensures |RowBytes(groups)| == 2 * |groups|
  {
  }

  /** The accepted texts are exactly those that are spelled and fit, with their width. */
  lemma {:induction false} AcceptedExact(s: string, bits: int)
    ensures ValidScan(ScanText(s))
    ensures Accepted6(s, bits) <==> Finished(ScanText(s), 16).Address? && Finished(ScanText(s), 16).bits == bits
  {
    hide ScanText, Form, Meaning, Finished, Fits;
    ScanTextValid(s);
    var r := ScanText(s);
    NotScanned(r);
    if Finished(r, 16).Address? && Finished(r, 16).bits == bits {
      SpellsExact(s, r);
      var groups, gap, end :| Spells(s, groups, gap, end) && r == Meaning(Start(s), groups, gap, end);
      SpellsMeaning(s, groups, gap, end);
      SpellsFits(s, groups, gap, end);
    }
    if groups, gap, end :| Spells(s, groups, gap, end) && Fits(groups, gap, end) && EndBits(end) == bits {
      SpellsMeaning(s, groups, gap, end);
      SpellsFits(s, groups, gap, end);
      SpellsExact(s, Meaning(Start(s), groups, gap, end));
      NotScanned(Meaning(Start(s), groups, gap, end));
    }
  }

  /** More bytes stand behind "::" than the width asks for. */
  ghost predicate Escapes(s: string) {
    exists groups: seq<string>, gap: int, end: Ending ::
      Spells(s, groups, gap, end) && gap != -1
      && |RowBytes(groups)| + |EndBytes(end)| - 2 * gap > Wanted(EndBits(end), end.Dots?)
  }

  /** For exactly those texts the shift leaves its array. */
  lemma {:induction false} EscapesExact(s: string)
    ensures ValidScan(ScanText(s)) && (Escapes(s) <==> Finished(ScanText(s), 16).Outside?)
  {
    hide ScanText, Form, Meaning, EndBits, EndBytes, RowBytes, Kept;
    ScanTextValid(s);
    var r := ScanText(s);
    if Finished(r, 16).Outside? {
      SpellsExact(s, r);
      var groups, gap, end :| Spells(s, groups, gap, end) && r == Meaning(Start(s), groups, gap, end);
      SpellsMeaning(s, groups, gap, end);
    }
    if groups, gap, end :|
        Spells(s, groups, gap, end) && gap != -1
        && |RowBytes(groups)| + |EndBytes(end)| - 2 * gap > Wanted(EndBits(end), end.Dots?) {
      SpellsMeaning(s, groups, gap, end);
      SpellsExact(s, Meaning(Start(s), groups, gap, end));
    }
  }

  lemma NotScanned(r: Scan)
    requires ValidScan(r)
    ensures Finished(r, 16).Address? ==>
              r.Scanned? && 0 <= r.bits <= 128 && Finished(r, 16).bits == r.bits
              && |Finished(r, 16).bytes| == (r.bits + 7) / 8
    ensures Finished(r, 16).Zero? <==> r.Overfull?
    ensures !Finished(r, 16).TooLong?
  {
  }
}
