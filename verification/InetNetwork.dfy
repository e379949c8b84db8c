/** Which texts are IPv4 network numbers.
    Relates what inet_net_pton_ipv4 of ext/noderb_extension/libuv/src/ares/inet_net_pton.c takes to their form. */
module InetNetwork {
  import opened Bytes
  import opened Options
  import opened Sequences
  import opened InetText
  import opened InetParse
  import opened InetParse4

  // ------------------------------------------------------------------------
  // The form of the texts
  // ------------------------------------------------------------------------

  /** Decimal numerals, leading zeros allowed, with a dot between each two. */
  ghost predicate DotForm(s: string, texts: seq<string>, octets: seq<byte>) {
    && texts != [] && |texts| == |octets| && s == Join(texts, '.')
    && forall i :: 0 <= i < |texts| ==> texts[i] != "" && AllDigits(texts[i]) && Value(texts[i]) == octets[i]
  }

  /** "0x" and hexadecimal digits, two an octet; a last single digit is a high half. */
  ghost predicate HexForm(s: string, octets: seq<byte>) {
    && |s| >= 3 && s[0] == '0' && (s[1] == 'x' || s[1] == 'X') && AllHex(s[2..]) && |octets| == (|s| - 1) / 2
    && forall i :: 0 <= i < |octets| ==>
         octets[i] == 16 * HexValue(s[2..][2 * i]) + if 2 * i + 1 < |s| - 2 then HexValue(s[2..][2 * i + 1]) else 0
  }

  /** Nothing, or a slash and a decimal numeral. */
  ghost predicate WidthForm(s: string, bits: Option<int>) {
    match bits
    case None => s == ""
    case Some(b) => |s| > 1 && s[0] == '/' && AllDigits(s[1..]) && Value(s[1..]) == b
  }

  ghost predicate Lead4(s: string, octets: seq<byte>) {
    HexForm(s, octets) || exists texts :: DotForm(s, texts, octets)
  }

  /** `s` writes these octets with that width. */
  ghost predicate Written(s: string, k: nat, octets: seq<byte>, bits: Option<int>) {
    k <= |s| && Lead4(s[..k], octets) && WidthForm(s[k..], bits)
  }

  // ------------------------------------------------------------------------
  // The octets
  // ------------------------------------------------------------------------

  lemma {:induction false} SpanIs(s: string, k: nat)
    requires k <= |s| && AllDigits(s[..k]) && (k < |s| ==> !IsDigit(s[k]))
    ensures Span(s) == k
  {
    var j := Span(s);
    if j < k {
      DigitAt(s, k, j);
    } else if k < j {
      DigitAt(s, j, k);
    }
  }

  lemma DigitAt(s: string, k: nat, j: nat)
    requires j < k <= |s| && AllDigits(s[..k])
    ensures IsDigit(s[j])
  {
    assert s[j] == s[..k][j];
  }

  lemma ValueByte(t: string, v: byte, rest: string)
    requires t != "" && AllDigits(t) && Value(t) == v && (rest != "" ==> !IsDigit(rest[0]))
    ensures Span(t + rest) == |t| && (t + rest)[..|t|] == t && (t + rest)[|t|..] == rest
  {
    assert (t + rest)[..|t|] == t;
    SpanIs(t + rest, |t|);
  }

  /** The first numeral of a dotted text, and the dotted text behind it. */
  lemma DotFormHead(s: string, texts: seq<string>, octets: seq<byte>)
    requires DotForm(s, texts, octets)
    ensures texts != [] && |octets| == |texts| && texts[0] != "" && AllDigits(texts[0]) && Value(texts[0]) == octets[0]
    ensures |texts| == 1 ==> s == texts[0] && octets == [octets[0]]
    ensures |texts| > 1 ==>
              var more := Join(texts[1..], '.');
              && s == texts[0] + ("." + more) && DotForm(more, texts[1..], octets[1..])
              && octets == [octets[0]] + octets[1..]
  {
    hide Value, Join;
    JoinStep(texts);
  }

  /** Dotted texts are read. */
  lemma {:induction false} DotsAreRead(s: string, texts: seq<string>, octets: seq<byte>, rest: string, room: nat)
    requires DotForm(s, texts, octets) && (rest != "" ==> rest[0] == '/') && |octets| <= room
    ensures Decimals(s + rest, room) == Lead(octets, rest) && s != "" && IsDigit(s[0])
    decreases |octets|
  {
    hide Value, Decimals, DotForm, Join;
    DotFormHead(s, texts, octets);
    var t, v := texts[0], octets[0];
    if |texts| == 1 {
      ValueByte(t, v, rest);
      DecimalsStep(s + rest, room);
    } else {
      var s1 := Join(texts[1..], '.');
      DotsAreRead(s1, texts[1..], octets[1..], rest, room - 1);
      var more := "." + (s1 + rest);
      Regroup(".", s1, rest);
      Regroup(t, "." + s1, rest);
      ValueByte(t, v, more);
      DecimalsStep(t + more, room);
      assert (t + more)[|t| + 1..] == s1 + rest;
    }
  }

  lemma JoinStep(texts: seq<string>)
    requires texts != []
    ensures Join(texts, '.') == if |texts| == 1 then texts[0] else texts[0] + ("." + Join(texts[1..], '.'))
  {
  }

  lemma DotFormOne(t: string, v: byte)
    requires t != "" && AllDigits(t) && Value(t) == v
    ensures DotForm(t, [t], [v])
  {
    hide Value;
  }

  lemma DotFormMore(t: string, v: byte, s: string, texts: seq<string>, octets: seq<byte>)
    requires t != "" && AllDigits(t) && Value(t) == v && DotForm(s, texts, octets)
    ensures DotForm(t + ("." + s), [t] + texts, [v] + octets)
  {
    hide Value, Join;
    JoinStep([t] + texts);
    assert ([t] + texts)[1..] == texts;
  }

  /** What is read has dotted form. */
  lemma {:induction false} ReadIsDots(s: string, room: nat) returns (texts: seq<string>, n: nat)
    requires s != "" && IsDigit(s[0]) && Decimals(s, room).Lead?
    ensures var r := Decimals(s, room);
            n <= |s| && s[n..] == r.rest && (r.rest != "" ==> r.rest[0] == '/') && DotForm(s[..n], texts, r.octets)
    decreases |s|
  {
    hide Value, Decimals, DotForm;
    var k := Span(s);
    DecimalsStep(s, room);
    var t := s[..k];
    var v := Value(t);
    if k == |s| || s[k] == '/' {
      texts, n := [t], k;
      DotFormOne(t, v);
    } else {
      var more, m := ReadIsDots(s[k + 1..], room - 1);
      texts, n := [t] + more, k + 1 + m;
      DotFormMore(t, v, s[k + 1..][..m], more, Decimals(s[k + 1..], room - 1).octets);
      assert s[..n] == t + ("." + s[k + 1..][..m]);
      assert s[k + 1..][m..] == s[n..];
    }
  }

  /** Octet by octet, what the pairs of digits are. */
  lemma {:induction false} HexOctetsAt(h: string, i: nat)
    requires AllHex(h) && i < (|h| + 1) / 2
    ensures HexOctets(h)[i] == 16 * HexValue(h[2 * i]) + if 2 * i + 1 < |h| then HexValue(h[2 * i + 1]) else 0
    decreases i
  {
    if |h| > 1 && i > 0 {
      AllHexPart(h, 2, |h|);
      HexOctetsAt(h[2..], i - 1);
    }
  }

  lemma {:induction false} HexFormExact(s: string, octets: seq<byte>)
    requires |s| >= 3 && s[0] == '0' && (s[1] == 'x' || s[1] == 'X') && AllHex(s[2..])
    ensures HexForm(s, octets) <==> octets == HexOctets(s[2..])
  {
    hide HexValue, HexOctets;
    var h := s[2..];
    var r := HexOctets(h);
    HexOctetsSize(h);
    forall i | 0 <= i < |r|
      ensures r[i] == 16 * HexValue(h[2 * i]) + if 2 * i + 1 < |h| then HexValue(h[2 * i + 1]) else 0
    {
      HexOctetsAt(h, i);
    }
  }

  lemma HexOctetsSize(h: string)
    requires AllHex(h)
    ensures |HexOctets(h)| == (|h| + 1) / 2
  {
  }

  // ------------------------------------------------------------------------
  // The whole text
  // ------------------------------------------------------------------------

  predicate StartsHex(s: string) {
    |s| >= 3 && s[0] == '0' && (s[1] == 'x' || s[1] == 'X') && IsHex(s[2])
  }

  lemma LeadOfIs(s: string, size: nat)
    ensures StartsHex(s) ==> LeadOf(s, size) == if size == 0 then NoRoom else Hexadecimals(s[2..], size)
    ensures !StartsHex(s) && s != "" && IsDigit(s[0]) ==> LeadOf(s, size) == Decimals(s, size)
  {
    hide Decimals, Hexadecimals;
  }

  lemma {:induction false} HexIsRead(s: string, k: nat, octets: seq<byte>, size: nat)
    requires k <= |s| && HexForm(s[..k], octets) && (k < |s| ==> s[k] == '/') && |octets| <= size
    ensures LeadOf(s, size) == Lead(octets, s[k..]) && octets != []
  {
    hide Value, Decimals, HexOctets, HexValue, IsHex, LeadOf, HexSpan;
    var lead := s[..k];
    HexFormExact(lead, octets);
    HexOctetsSize(lead[2..]);
    assert s[2..][..k - 2] == lead[2..] && s[2..][k - 2..] == s[k..];
    assert IsHex(lead[2..][0]) && lead[2..][0] == s[2];
    NotHex();
    HexSpanIs(s[2..], k - 2);
    LeadOfIs(s, size);
  }

  lemma {:induction false} WrittenIsRead(s: string, k: nat, octets: seq<byte>, bits: Option<int>, size: nat)
    requires Written(s, k, octets, bits) && |octets| <= size
    ensures LeadOf(s, size) == Lead(octets, s[k..]) && octets != []
  {
    hide Value, Decimals, HexForm, DotForm, LeadOf;
    var lead, rest := s[..k], s[k..];
    if HexForm(lead, octets) {
      HexIsRead(s, k, octets, size);
    } else {
      var texts :| DotForm(lead, texts, octets);
      assert s == lead + rest;
      DotsAreRead(lead, texts, octets, rest, size);
      SecondIsNoX(lead, texts, octets, rest);
      DotFormSome(lead, texts, octets);
      LeadOfIs(s, size);
    }
  }

  lemma DotFormSome(s: string, texts: seq<string>, octets: seq<byte>)
    requires DotForm(s, texts, octets)
    ensures octets != []
  {
  }

  lemma NotHex()
    ensures !IsHex('/') && !IsDigit('x') && !IsDigit('X')
  {
  }

  lemma SecondIsNoX(s: string, texts: seq<string>, octets: seq<byte>, rest: string)
    requires DotForm(s, texts, octets) && (rest != "" ==> rest[0] == '/')
    ensures !StartsHex(s + rest)
  {
    hide Value, Join;
    JoinStep(texts);
    var t := texts[0];
    if |t| > 1 {
      assert IsDigit(t[1]);
    }
  }

  lemma {:induction false} ReadIsWritten(s: string, size: nat) returns (k: nat)
    requires LeadOf(s, size).Lead?
    ensures k <= |s| && Lead4(s[..k], LeadOf(s, size).octets) && s[k..] == LeadOf(s, size).rest
    ensures |LeadOf(s, size).octets| <= size
  {
    hide Value, Decimals, HexOctets, HexValue, DotForm;
    LeadFits(s, size);
    if StartsHex(s) {
      k := HexSpan(s[2..]) + 2;
      assert s[..k][2..] == s[2..][..k - 2] && s[2..][k - 2..] == s[k..];
      HexSpanAtLeast(s[2..], 1);
      HexFormExact(s[..k], HexOctets(s[2..][..k - 2]));
    } else {
      var r := LeadOf(s, size);
      var texts, n := ReadIsDots(s, size);
      k := n;
      assert DotForm(s[..k], texts, r.octets);
    }
  }

  /** The width that counts. */
  function WidthOf(octets: seq<byte>, bits: Option<int>): int
    requires octets != []
  {
    if bits.Some? then bits.value else ClassBits(octets[0], |octets|)
  }

  /** The texts taken are those that write octets with a width up to 32, both of which the caller has room for; the
      result is that width, and the octets with zeros up to it. */
  lemma {:induction false} NetworkExact(s: string, size: nat, r: Net)
    requires r.Net?
    ensures NetOf(s, size) == r <==>
            exists k: nat, octets: seq<byte>, bits: Option<int> ::
              && Written(s, k, octets, bits) && octets != [] && (bits.Some? ==> bits.value <= 32) && |octets| <= size
              && r == Extended(octets, WidthOf(octets, bits), size)
  {
    hide Value, LeadOf, Extended, Lead4, ClassBits;
    if NetOf(s, size) == r {
      var k := ReadIsWritten(s, size);
      var octets, rest := LeadOf(s, size).octets, s[k..];
      var bits := if rest == "" then None else Some(Value(rest[1..]));
      assert Written(s, k, octets, bits) by {
        if rest != "" {
          assert rest[1..][..|rest| - 1] == rest[1..];
        }
      }
    }
    if k: nat, octets: seq<byte>, bits: Option<int> :| (
        && Written(s, k, octets, bits) && octets != [] && (bits.Some? ==> bits.value <= 32) && |octets| <= size
        && r == Extended(octets, WidthOf(octets, bits), size)) {
      WrittenIsRead(s, k, octets, bits, size);
      var rest := s[k..];
      if rest != "" {
        assert rest[1..][..|rest| - 1] == rest[1..];
        SpanIs(rest[1..], |rest| - 1);
      }
    }
  }

  /** A network without a width: it has that of its class, which the leading bits of the first octet tell, but all the
      octets written at least, and 4 bits if the octet 224 is all that is written. The octets are those written, and
      zeros behind them up to the width. */
  lemma {:induction false} ClassWidth(s: string, octets: seq<byte>, size: nat)
    requires Lead4(s, octets) && octets != [] && |octets| <= size && NetOf(s, size).Net?
    ensures var r, first := NetOf(s, size), octets[0];
            var width := if first / 128 == 0 || first / 16 == 14 then 8
                         else if first / 64 == 2 then 16
                         else if first / 32 == 6 then 24
                         else 32;
            && r.bits == (if octets == [224] then 4 else if width < 8 * |octets| then 8 * |octets| else width)
            && octets <= r.octets && (forall i :: |octets| <= i < |r.octets| ==> r.octets[i] == 0)
            && (r.octets == octets || 8 * (|r.octets| - 1) < r.bits <= 8 * |r.octets|)
  {
    hide Value, LeadOf, Lead4;
    assert s[..|s|] == s;
    WrittenIsRead(s, |s|, octets, None, size);
  }
}
