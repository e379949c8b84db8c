/** Reading IPv4 network numbers.
    Models inet_net_pton_ipv4 of ext/noderb_extension/libuv/src/ares/inet_net_pton.c. */
module InetParse4 {
  import opened Bytes
  import opened Options
  import opened InetText
  import opened InetParse

  /** What the first part of the text gives: the octets, and the text after them. */
  datatype Lead = NoEntry | NoRoom | Lead(octets: seq<byte>, rest: string)

  datatype Net = NotNet | NetTooLong | Net(bits: int, octets: seq<byte>)

  predicate IsHex(c: char) { XValue(c).Some? }

  /** The number of digits in front. */
  function Span(s: string): (k: nat)
    ensures k <= |s| && AllDigits(s[..k]) && (k < |s| ==> !IsDigit(s[k]))
  {
    if s == "" || !IsDigit(s[0]) then 0
    else
      var k := Span(s[1..]);
      assert s[..k + 1] == [s[0]] + s[1..][..k];
      k + 1
  }

  function HexSpan(s: string): (k: nat)
    ensures k <= |s| && AllHex(s[..k]) && (k < |s| ==> !IsHex(s[k]))
  {
    if s == "" || !IsHex(s[0]) then 0
    else
      var k := HexSpan(s[1..]);
      assert s[..k + 1] == [s[0]] + s[1..][..k];
      k + 1
  }

  /** Dotted numbers, each up to 255. */
  function Decimals(s: string, room: nat): Lead
    decreases |s|
  {
    var k := Span(s);
    if Value(s[..k]) > 255 then NoEntry
    else if room == 0 then NoRoom
    else if k == |s| || s[k] == '/' then Lead([Value(s[..k])], s[k..])
    else if s[k] != '.' || k + 1 >= |s| || !IsDigit(s[k + 1]) then NoEntry
    else match Decimals(s[k + 1..], room - 1)
      case Lead(octets, rest) => Lead([Value(s[..k])] + octets, rest)
      case other => other
  }

  function HexValue(c: char): (v: int)
    requires IsHex(c)
    ensures 0 <= v < 16
  {
    XValue(c).value
  }

  predicate AllHex(s: string) {
    forall i :: 0 <= i < |s| ==> IsHex(s[i])
  }

  /** Pairs of hexadecimal digits; a last single one is the high half of its octet. */
  function HexOctets(h: string): (r: seq<byte>)
    requires AllHex(h)
    ensures |r| == (|h| + 1) / 2
  {
    if h == "" then []
    else if |h| == 1 then [16 * HexValue(h[0])]
    else [16 * HexValue(h[0]) + HexValue(h[1])] + HexOctets(h[2..])
  }

  function Hexadecimals(s: string, room: nat): Lead {
    var k := HexSpan(s);
    if room < (k + 1) / 2 then NoRoom else Lead(HexOctets(s[..k]), s[k..])
  }

  function LeadOf(s: string, size: nat): Lead {
    if |s| >= 3 && s[0] == '0' && (s[1] == 'x' || s[1] == 'X') && IsHex(s[2]) then
      if size == 0 then NoRoom else Hexadecimals(s[2..], size)
    else if s != "" && IsDigit(s[0]) then Decimals(s, size)
    else NoEntry
  }

  /** The width a network has by the class of its first octet, widened to the octets given. */
  function ClassBits(first: byte, count: nat): int {
    var bits := if first >= 240 then 32
                else if first >= 224 then 8
                else if first >= 192 then 24
                else if first >= 128 then 16
                else 8;
    var wide := if bits < 8 * count then 8 * count else bits;
    if wide == 8 && first == 224 then 4 else wide
  }

  /** The octets that cover the mask. */
  function Extended(octets: seq<byte>, bits: int, size: nat): Net {
    var n := (bits + 7) / 8;
    if n <= |octets| then Net(bits, octets)
    else if n > size then NetTooLong
    else Net(bits, octets + Zeros(n - |octets|))
  }

  function NetOf(s: string, size: nat): Net {
    match LeadOf(s, size)
    case NoEntry => NotNet
    case NoRoom => NetTooLong
    case Lead(octets, rest) =>
      if octets == [] then NotNet
      else if rest == "" then Extended(octets, ClassBits(octets[0], |octets|), size)
      else if rest[0] != '/' || Span(rest[1..]) == 0 || Span(rest[1..]) < |rest| - 1 then NotNet
      else
        var bits := Value(rest[1..]);
        if bits > 32 then NetTooLong else Extended(octets, bits, size)
  }

  lemma {:induction false} SpanAtLeast(s: string, k: nat)
    requires k <= |s| && AllDigits(s[..k])
    ensures k <= Span(s) && Value(s[..k]) <= Value(s[..Span(s)])
  {
    var j := Span(s);
    ValuePrefix(s[..j], k);
    assert s[..j][..k] == s[..k];
  }

  /** Reads a number up to the first other character, or until it passes 255. */
  method Number(s: string) returns (i: nat, tmp: int)
    requires s != "" && IsDigit(s[0])
    ensures tmp <= 255 ==> i == Span(s) && tmp == Value(s[..i])
    ensures tmp > 255 ==> Value(s[..Span(s)]) > 255
    ensures tmp >= 0
  {
    tmp := Digit(s[0]);
    i := 1;
    assert s[..1] == [s[0]] && s[..1][..0] == "";
    while i < |s| && IsDigit(s[i])
      invariant 0 < i <= |s| && AllDigits(s[..i]) && tmp == Value(s[..i]) && 0 <= tmp <= 255
    {
      assert s[..i + 1][..i] == s[..i];
      tmp := 10 * tmp + Digit(s[i]);
      i := i + 1;
      if tmp > 255 {
        SpanAtLeast(s, i);
        return;
      }
    }
  }

  /** What was read before `r`. */
  function Prepended(octets: seq<byte>, r: Lead): Lead {
    if r.Lead? then r.(octets := octets + r.octets) else r
  }

  lemma DecimalsStep(s: string, room: nat)
    ensures var k := Span(s); var v := Value(s[..k]);
            Decimals(s, room) ==
            if v > 255 then NoEntry
            else if room == 0 then NoRoom
            else if k == |s| || s[k] == '/' then Lead([v], s[k..])
            else if s[k] != '.' || k + 1 >= |s| || !IsDigit(s[k + 1]) then NoEntry
            else Prepended([v], Decimals(s[k + 1..], room - 1))
  {
  }

  lemma PrependedTwice(a: seq<byte>, v: byte, r: Lead)
    ensures Prepended(a, Prepended([v], r)) == Prepended(a + [v], r)
  {
    if r.Lead? {
      assert a + ([v] + r.octets) == a + [v] + r.octets;
    }
  }

  method ReadDecimals(src: string, size: nat) returns (r: Lead)
    requires src != "" && IsDigit(src[0])
    ensures r == Decimals(src, size)
  {
    hide Decimals, Value;
    var i, left := 0, size;
    var octets: seq<byte> := [];
    assert src[0..] == src;
    while true
      invariant 0 <= i < |src| && IsDigit(src[i]) && left >= 0
      invariant Decimals(src, size) == Prepended(octets, Decimals(src[i..], left))
      decreases |src| - i
    {
      ghost var s := src[i..];
      DecimalsStep(s, left);
      var k, tmp := Number(src[i..]);
      if tmp > 255 {
        return NoEntry;
      }
      if left == 0 {
        return NoRoom;
      }
      left := left - 1;
      var v: byte := tmp;
      var j := i + k;
      assert s[k..] == src[j..];
      PrependedTwice(octets, v, if k + 1 < |s| then Decimals(s[k + 1..], left) else NoEntry);
      octets := octets + [v];
      if j == |src| || src[j] == '/' {
        return Lead(octets, src[j..]);
      }
      if src[j] != '.' {
        return NoEntry;
      }
      if j + 1 == |src| || !IsDigit(src[j + 1]) {
        return NoEntry;
      }
      assert s[k + 1..] == src[j + 1..];
      i := j + 1;
    }
  }

  lemma AllHexPart(h: string, i: nat, j: nat)
    requires AllHex(h) && i <= j <= |h|
    ensures AllHex(h[i..j])
  {
  }

  lemma HexOctetsStep(h: string)
    requires AllHex(h) && |h| >= 2
    ensures AllHex(h[2..]) && HexOctets(h) == [16 * HexValue(h[0]) + HexValue(h[1])] + HexOctets(h[2..])
  {
    AllHexPart(h, 2, |h|);
  }

  lemma {:induction false} HexOctetsOdd(h: string)
    requires AllHex(h) && |h| % 2 == 1
    ensures AllHex(h[..|h| - 1]) && HexOctets(h) == HexOctets(h[..|h| - 1]) + [16 * HexValue(h[|h| - 1])]
    decreases |h|
  {
    hide HexValue;
    AllHexPart(h, 0, |h| - 1);
    if |h| == 1 {
      HexOctetsNone();
    } else {
      hide HexOctets;
      HexOctetsStep(h);
      HexOctetsOdd(h[2..]);
      HexOctetsStep(h[..|h| - 1]);
      assert h[2..][..|h| - 3] == h[..|h| - 1][2..];
    }
  }

  lemma HexOctetsTwo(h: string)
    requires AllHex(h) && |h| == 2
    ensures HexOctets(h) == [16 * HexValue(h[0]) + HexValue(h[1])]
  {
    HexOctetsNone();
  }

  lemma {:induction false} HexOctetsEven(h: string)
    requires AllHex(h) && |h| % 2 == 0 && h != ""
    ensures AllHex(h[..|h| - 2])
    ensures HexOctets(h) == HexOctets(h[..|h| - 2]) + [16 * HexValue(h[|h| - 2]) + HexValue(h[|h| - 1])]
    decreases |h|
  {
    hide HexValue, HexOctets;
    AllHexPart(h, 0, |h| - 2);
    if |h| == 2 {
      HexOctetsNone();
      HexOctetsTwo(h);
    } else {
      HexOctetsStep(h);
      HexOctetsEven(h[2..]);
      HexOctetsStep(h[..|h| - 2]);
      assert h[2..][..|h| - 4] == h[..|h| - 2][2..];
    }
  }

  lemma HexOctetsNone()
    ensures HexOctets("") == []
  {
  }

  lemma HexSpanAtLeast(s: string, k: nat)
    requires k <= |s| && AllHex(s[..k])
    ensures k <= HexSpan(s)
  {
    if HexSpan(s) < k {
      HexAt(s, k, HexSpan(s));
    }
  }

  lemma {:induction false} HexSpanIs(s: string, k: nat)
    requires k <= |s| && AllHex(s[..k]) && (k < |s| ==> !IsHex(s[k]))
    ensures HexSpan(s) == k
  {
    var j := HexSpan(s);
    if j < k {
      HexAt(s, k, j);
    } else if k < j {
      HexAt(s, j, k);
    }
  }

  lemma HexAt(s: string, k: nat, j: nat)
    requires j < k <= |s| && AllHex(s[..k])
    ensures IsHex(s[j])
  {
    assert s[j] == s[..k][j];
  }

  /** Reads pairs of hexadecimal digits. */
  method ReadHex(s: string, size: nat) returns (r: Lead)
    requires size > 0
    ensures r == Hexadecimals(s, size)
  {
    hide HexOctets, HexValue, IsHex;
    HexOctetsNone();
    var i, dirty, tmp, left := 0, 0, 0, size;
    var octets: seq<byte> := [];
    assert s[..0] == "";
    while i < |s| && IsHex(s[i])
      invariant 0 <= i <= |s| && AllHex(s[..i]) && dirty == i % 2 && left + |octets| == size && left >= 0
      invariant octets == HexOctets(s[..i - dirty])
      invariant dirty == 1 ==> i >= 1 && tmp == HexValue(s[i - 1])
    {
      var n := HexValue(s[i]);
      assert s[..i + 1] == s[..i] + [s[i]];
      assert s[..i + 1][..i - dirty] == s[..i - dirty];
      if dirty == 0 {
        tmp := n;
      } else {
        tmp := 16 * tmp + n;
      }
      i := i + 1;
      dirty := dirty + 1;
      if dirty == 2 {
        if left == 0 {
          HexSpanAtLeast(s, i);
          return NoRoom;
        }
        left := left - 1;
        HexOctetsEven(s[..i]);
        octets := octets + [tmp];
        dirty := 0;
      }
    }
    HexSpanIs(s, i);
    if dirty != 0 {
      if left == 0 {
        return NoRoom;
      }
      HexOctetsOdd(s[..i]);
      assert s[..i][..i - 1] == s[..i - 1];
      octets := octets + [16 * tmp];
    }
    r := Lead(octets, s[i..]);
  }

  /** Reads the whole text as a number, if it is one. */
  method ReadBits(s: string) returns (bits: Option<int>)
    requires s != "" && IsDigit(s[0])
    ensures bits == if Span(s) == |s| then Some(Value(s)) else None
  {
    var n, i := Digit(s[0]), 1;
    assert s[..1] == [s[0]] && s[..1][..0] == "";
    while i < |s| && IsDigit(s[i])
      invariant 0 < i <= |s| && AllDigits(s[..i]) && n == Value(s[..i])
    {
      assert s[..i + 1][..i] == s[..i];
      n := 10 * n + Digit(s[i]);
      i := i + 1;
    }
    assert s[..|s|] == s;
    bits := if i < |s| then None else Some(n);
  }

  /** Appends zeros until the octets cover the mask. */
  method Extend(octets0: seq<byte>, bits: int, size: nat) returns (r: Net)
    requires |octets0| <= size
    ensures r == Extended(octets0, bits, size)
  {
    var octets, left := octets0, size - |octets0|;
    assert octets0 + Zeros(0) == octets0;
    while bits > 8 * |octets|
      invariant |octets0| <= |octets| && left == size - |octets| && left >= 0
      invariant octets == octets0 + Zeros(|octets| - |octets0|)
      invariant |octets| > |octets0| ==> 8 * (|octets| - 1) < bits
      decreases left
    {
      if left == 0 {
        return NetTooLong;
      }
      left := left - 1;
      assert Zeros(|octets| - |octets0|) + [0] == Zeros(|octets| + 1 - |octets0|);
      octets := octets + [0];
    }
    r := Net(bits, octets);
  }

  lemma {:induction false} LeadFits(s: string, size: nat)
    ensures LeadOf(s, size).Lead? ==> |LeadOf(s, size).octets| <= size
  {
    if s != "" && IsDigit(s[0]) {
      DecimalsFit(s, size);
    }
  }

  lemma {:induction false} DecimalsFit(s: string, room: nat)
    ensures Decimals(s, room).Lead? ==> |Decimals(s, room).octets| <= room
    decreases |s|
  {
    hide Decimals, Value;
    var k := Span(s);
    DecimalsStep(s, room);
    if Value(s[..k]) <= 255 && room > 0 && k < |s| && s[k] == '.' {
      DecimalsFit(s[k + 1..], room - 1);
    }
  }

  method ReadLead(src: string, size: nat) returns (r: Lead)
    ensures r == LeadOf(src, size)
  {
    if |src| >= 3 && src[0] == '0' && (src[1] == 'x' || src[1] == 'X') && IsHex(src[2]) {
      if size == 0 {
        return NoRoom;
      }
      r := ReadHex(src[2..], size);
    } else if src != "" && IsDigit(src[0]) {
      r := ReadDecimals(src, size);
    } else {
      r := NoEntry;
    }
  }

  /** inet_net_pton_ipv4 */
  method NetPton4(src: string, size: nat) returns (r: Net)
    ensures r == NetOf(src, size)
  {
    hide LeadOf, Extended, ClassBits, Value;
    var lead := ReadLead(src, size);
    LeadFits(src, size);
    if lead.NoEntry? {
      return NotNet;
    }
    if lead.NoRoom? {
      return NetTooLong;
    }
    var octets, rest := lead.octets, lead.rest;
    var bits := -1;
    if rest != "" && rest[0] == '/' && |rest| >= 2 && IsDigit(rest[1]) && octets != [] {
      var b := ReadBits(rest[1..]);
      if b.None? {
        return NotNet;
      }
      bits := b.value;
      if bits > 32 {
        return NetTooLong;
      }
    } else if rest != "" {
      SpanNone(rest);
      return NotNet;
    }
    if octets == [] {
      return NotNet;
    }
    if bits == -1 {
      bits := ClassBits(octets[0], |octets|);
    }
    r := Extend(octets, bits, size);
  }

  lemma SpanNone(rest: string)
    requires rest != ""
    ensures |rest| < 2 || !IsDigit(rest[1]) ==> Span(rest[1..]) == 0
  {
  }

  lemma ExtendedCovers(octets: seq<byte>, bits: int, size: nat)
    requires |octets| <= size && 0 <= bits
    ensures var r := Extended(octets, bits, size); r.Net? ==> r.bits == bits <= 8 * |r.octets| && |r.octets| <= size
  {
  }

  /** A network has room for its mask, and no more octets than the caller has. */
  lemma {:induction false} NetCovers(s: string, size: nat)
    ensures var r := NetOf(s, size); r.Net? ==> 0 <= r.bits <= 8 * |r.octets| && |r.octets| <= size
  {
    hide LeadOf, Extended, Span;
    LeadFits(s, size);
    var lead := LeadOf(s, size);
    if lead.Lead? && lead.octets != [] {
      ExtendedCovers(lead.octets, ClassBits(lead.octets[0], |lead.octets|), size);
      if lead.rest != "" && Span(lead.rest[1..]) == |lead.rest| - 1 {
        ExtendedCovers(lead.octets, Value(lead.rest[1..]), size);
      }
    }
  }
}
