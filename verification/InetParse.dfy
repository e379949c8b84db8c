/** Reading IPv4 and IPv6 addresses.
    Models ext/noderb_extension/libuv/src/ares/inet_net_pton.c. */
module InetParse {
  import opened Bytes
  import opened Options
  import opened InetText

  function Zeros(n: nat): seq<byte> {
    seq(n, _ => 0)
  }

  predicate IsDigit(c: char) { '0' <= c <= '9' }

  /** The value of a digit in lower or upper case. */
  function XValue(c: char): Option<int> {
    if '0' <= c <= '9' then Some(c as int - '0' as int)
    else if 'a' <= c <= 'f' then Some(c as int - 'a' as int + 10)
    else if 'A' <= c <= 'F' then Some(c as int - 'A' as int + 10)
    else None
  }

  function Digit(c: char): int
    requires IsDigit(c)
  {
    c as int - '0' as int
  }

  predicate AllDigits(s: string) {
    forall i :: 0 <= i < |s| ==> IsDigit(s[i])
  }

  function Value(s: string): nat
    requires AllDigits(s)
  {
    if s == "" then 0 else 10 * Value(s[..|s| - 1]) + Digit(s[|s| - 1])
  }

  // ------------------------------------------------------------------------
  // Decimal numerals
  // ------------------------------------------------------------------------

  lemma CharOfDigit(c: char)
    requires IsDigit(c)
    ensures DigitChar(Digit(c)) == c
  {
  }

  lemma DecimalUnfold(n: nat)
    ensures n < 10 ==> Decimal(n) == [DigitChar(n)]
    ensures n >= 10 ==> Decimal(n) == Decimal(n / 10) + [DigitChar(n % 10)]
  {
  }

  lemma {:induction false} DecimalValue(n: nat)
    ensures AllDigits(Decimal(n)) && Value(Decimal(n)) == n && (n > 0 ==> Decimal(n)[0] != '0')
            && (n == 0 ==> Decimal(n) == "0")
    decreases n
  {
    hide Numeral, Decimal;
    DecimalUnfold(n);
    DigitOfChar(if n < 10 then n else n % 10);
    if n < 10 {
      assert [DigitChar(n)][..0] == "";
    } else {
      DecimalValue(n / 10);
      assert Decimal(n)[..|Decimal(n)| - 1] == Decimal(n / 10);
    }
  }

  /** One more digit. */
  lemma DecimalSnoc(n: nat, c: char)
    requires n > 0 && IsDigit(c)
    ensures Decimal(10 * n + Digit(c)) == Decimal(n) + [c]
  {
    CharOfDigit(c);
    var m := 10 * n + Digit(c);
    assert m / 10 == n && m % 10 == Digit(c);
  }

  lemma DecimalOne(c: char)
    requires IsDigit(c)
    ensures Decimal(Digit(c)) == [c]
  {
    CharOfDigit(c);
  }

  lemma {:induction false} ValuePrefix(s: string, i: nat)
    requires AllDigits(s) && i <= |s|
    ensures Value(s[..i]) <= Value(s)
  {
    if i < |s| {
      ValuePrefix(s[..|s| - 1], i);
      assert s[..|s| - 1][..i] == s[..i];
    } else {
      assert s[..i] == s;
    }
  }

  /** The first `i` digits of `s` are a numeral too great, or a zero that leads others: `s` is no numeral up to
      `limit`. */
  lemma {:induction false} NotNumeral(s: string, i: nat, v: int, limit: int)
    requires i <= |s| && 0 <= v <= limit && s == Decimal(v)
    ensures AllDigits(s[..i]) && Value(s[..i]) <= limit && (i >= 1 && s[0] == '0' ==> |s| == 1) && |s| >= 1
  {
    DecimalValue(v);
    ValuePrefix(s, i);
  }

  /** getbits: reads the rest of the text as a prefix length. */
  method GetBits(src: string) returns (bits: Option<int>)
    ensures bits.Some? ==> 0 <= bits.value <= 128 && src == Decimal(bits.value)
    ensures bits.None? ==> forall v :: 0 <= v <= 128 ==> src != Decimal(v)
  {
    hide Numeral;
    var val, n, i := 0, 0, 0;
    while i < |src|
      invariant 0 <= i <= |src| && n == i && AllDigits(src[..i]) && 0 <= val <= 128
      invariant i == 0 ==> val == 0
      invariant i > 0 ==> src[..i] == Decimal(val)
    {
      var ch := src[i];
      i := i + 1;
      if IsDigit(ch) {
        n := n + 1;
        if n != 1 && val == 0 {
          LeadingZero(src, i - 1, 128);
          return None;
        }
        assert src[..i] == src[..i - 1] + [ch];
        if val == 0 {
          DecimalOne(ch);
        } else {
          DecimalSnoc(val, ch);
        }
        val := 10 * val + Digit(ch);
        if val > 128 {
          TooGreat(src, i, val, 128);
          return None;
        }
        continue;
      }
      NoDigit(src, i - 1, 128);
      return None;
    }
    if n == 0 {
      EmptyText(128);
      return None;
    }
    assert src[..i] == src;
    bits := Some(val);
  }

  lemma LeadingZero(s: string, i: nat, limit: int)
    requires 1 <= i < |s| && s[..i] == Decimal(0)
    ensures forall v :: 0 <= v <= limit ==> s != Decimal(v)
  {
    DecimalValue(0);
    assert s[0] == s[..i][0] == '0';
    forall v | 0 <= v <= limit ensures s != Decimal(v) {
      if s == Decimal(v) {
        NotNumeral(s, i, v, limit);
      }
    }
  }

  lemma TooGreat(s: string, i: nat, val: nat, limit: int)
    requires i <= |s| && s[..i] == Decimal(val) && val > limit
    ensures forall v :: 0 <= v <= limit ==> s != Decimal(v)
  {
    DecimalValue(val);
    forall v | 0 <= v <= limit ensures s != Decimal(v) {
      if s == Decimal(v) {
        NotNumeral(s, i, v, limit);
      }
    }
  }

  lemma NoDigit(s: string, i: nat, limit: int)
    requires i < |s| && !IsDigit(s[i])
    ensures forall v :: 0 <= v <= limit ==> s != Decimal(v)
  {
    forall v | 0 <= v <= limit ensures s != Decimal(v) {
      DecimalValue(v);
    }
  }

  lemma EmptyText(limit: int)
    ensures forall v :: 0 <= v <= limit ==> "" != Decimal(v)
  {
  }

  // ------------------------------------------------------------------------
  // Dotted quads inside an IPv6 address
  // ------------------------------------------------------------------------

  datatype V4 = V4(octets: seq<byte>, bits: Option<int>)

  /** The prefix length that the text is, if it is one. */
  ghost function BitsOf(s: string): (r: Option<int>) {
    if exists v :: 0 <= v <= 128 && s == Decimal(v) then
      var v :| 0 <= v <= 128 && s == Decimal(v);
      Some(v)
    else None
  }

  lemma BitsOfDecimal(v: int)
    requires 0 <= v <= 128
    ensures BitsOf(Decimal(v)) == Some(v)
  {
    var w := BitsOf(Decimal(v)).value;
    DecimalValue(v);
    DecimalValue(w);
  }

  /** Reading goes on at `s`; `octets` are complete and the next has `n` digits so far, with value `val`. */
  ghost function Run4(s: string, octets: seq<byte>, n: nat, val: byte): (r: Option<V4>)
    ensures r.Some? ==> |r.value.octets| <= 4 && (r.value.bits.Some? ==> 0 <= r.value.bits.value <= 128)
  {
    if s == "" then
      if n == 0 || |octets| > 3 then None else Some(V4(octets + [val], None))
    else if IsDigit(s[0]) then
      var v := 10 * val as int + Digit(s[0]);
      if (n != 0 && val == 0) || v > 255 then None else Run4(s[1..], octets, n + 1, v)
    else if s[0] != '.' && s[0] != '/' then None
    else if |octets| > 3 then None
    else if s[0] == '.' then Run4(s[1..], octets + [val], 0, 0)
    else match BitsOf(s[1..])
      case None => None
      case Some(bits) => Some(V4(octets + [val], Some(bits)))
  }

  /** An octet's text is its numeral; an empty text stands for zero. */
  predicate Octet(t: string, v: byte) {
    t == Decimal(v) || (t == "" && v == 0)
  }

  ghost predicate Octets(texts: seq<string>, octets: seq<byte>) {
    |texts| == |octets| && forall i :: 0 <= i < |texts| ==> Octet(texts[i], octets[i])
  }

  /** The texts getv4 takes: up to four octets between dots, the last of which is not empty, or else a prefix length
      follows. */
  ghost predicate Quad(s: string, texts: seq<string>, r: V4) {
    && 1 <= |texts| <= 4 && Octets(texts, r.octets)
    && match r.bits
       case None => texts[|texts| - 1] != "" && s == Join(texts, '.')
       case Some(bits) => 0 <= bits <= 128 && s == Join(texts, '.') + "/" + Decimal(bits)
  }

  lemma DigitOfChar(d: int)
    requires 0 <= d < 10
    ensures IsDigit(DigitChar(d)) && Digit(DigitChar(d)) == d
  {
    assert DigitChar(d) == ['0', '1', '2', '3', '4', '5', '6', '7', '8', '9'][d];
  }

  lemma {:induction false} Run4Digits(v: byte, rest: string, octets: seq<byte>)
    ensures Run4(Decimal(v) + rest, octets, 0, 0) == Run4(rest, octets, |Decimal(v)|, v)
    decreases v
  {
    hide BitsOf, Run4;
    var d, s := DigitChar(v % 10), Decimal(v) + rest;
    DigitOfChar(v % 10);
    if v < 10 {
      Run4Step(s, octets, 0, 0);
      assert s[0] == d && s[1..] == rest;
    } else {
      Run4Digits(v / 10, [d] + rest, octets);
      Run4Step([d] + rest, octets, |Decimal(v / 10)|, v / 10);
      assert s == Decimal(v / 10) + ([d] + rest);
      assert ([d] + rest)[1..] == rest;
    }
  }

  lemma Run4Dot(rest: string, octets: seq<byte>, n: nat, val: byte)
    requires |octets| <= 3
    ensures Run4("." + rest, octets, n, val) == Run4(rest, octets + [val], 0, 0)
  {
    assert ("." + rest)[1..] == rest;
  }

  lemma Run4Slash(bits: int, octets: seq<byte>, n: nat, val: byte)
    requires |octets| <= 3 && 0 <= bits <= 128
    ensures Run4("/" + Decimal(bits), octets, n, val) == Some(V4(octets + [val], Some(bits)))
  {
    hide Numeral, BitsOf;
    BitsOfDecimal(bits);
    assert ("/" + Decimal(bits))[1..] == Decimal(bits);
  }

  lemma Run4Octet(t: string, v: byte, rest: string, octets: seq<byte>)
    requires Octet(t, v)
    ensures Run4(t + rest, octets, 0, 0) == Run4(rest, octets, |t|, v)
  {
    hide Run4, Numeral;
    if t != "" {
      Run4Digits(v, rest, octets);
    } else {
      assert t + rest == rest;
    }
  }

  /** The first octet of a quad, and what follows it. */
  lemma {:induction false} QuadSplit(s: string, texts: seq<string>, r: V4) returns (rest: string)
    requires Quad(s, texts, r) && |texts| > 1
    ensures Octet(texts[0], r.octets[0]) && s == texts[0] + ("." + rest)
            && Quad(rest, texts[1..], r.(octets := r.octets[1..]))
  {
    hide Numeral;
    rest := Join(texts[1..], '.');
    assert Join(texts, '.') == texts[0] + "." + rest;
    if r.bits.Some? {
      rest := rest + "/" + Decimal(r.bits.value);
    }
    assert s == texts[0] + ("." + rest);
    assert Octets(texts[1..], r.octets[1..]);
  }

  /** Every text of the form is read as it should be. */
  lemma {:induction false} QuadIsRead(s: string, texts: seq<string>, r: V4, done: seq<byte>)
    requires Quad(s, texts, r) && |done| + |texts| <= 4
    ensures Run4(s, done, 0, 0) == Some(r.(octets := done + r.octets))
    decreases |texts|
  {
    hide Numeral, BitsOf, Decimal;
    var t, v := texts[0], r.octets[0];
    if |texts| == 1 {
      assert Octet(t, v) && r.octets == [v];
      if r.bits.Some? {
        Run4Octet(t, v, "/" + Decimal(r.bits.value), done);
        Run4Slash(r.bits.value, done, |t|, v);
        assert s == t + ("/" + Decimal(r.bits.value));
      } else {
        Run4Octet(t, v, "", done);
        assert s == t + "";
      }
    } else {
      hide Run4, Quad;
      var rest := QuadSplit(s, texts, r);
      var q := r.(octets := r.octets[1..]);
      Run4Octet(t, v, "." + rest, done);
      Run4Dot(rest, done, |t|, v);
      QuadIsRead(rest, texts[1..], q, done + [v]);
      assert done + [v] + q.octets == done + r.octets;
    }
  }

  /** What is read before the current octet. */
  function Dots(texts: seq<string>): string {
    if texts == [] then "" else Dots(texts[..|texts| - 1]) + texts[|texts| - 1] + "."
  }

  lemma {:induction false} JoinDots(texts: seq<string>, t: string)
    ensures Join(texts + [t], '.') == Dots(texts) + t
    decreases |texts|
  {
    if texts != [] {
      var k := |texts| - 1;
      JoinDots(texts[..k], texts[k]);
      assert texts[..k] + [texts[k]] == texts;
      JoinSnoc(texts, t, '.');
    } else {
      assert texts + [t] == [t];
    }
  }

  lemma DotsSnoc(texts: seq<string>, t: string, s: string)
    requires s != "" && s[0] == '.'
    ensures Dots(texts + [t]) + "" + s[1..] == Dots(texts) + t + s
  {
    assert (texts + [t])[..|texts|] == texts;
  }

  /** Every text that is read has the form. */
  lemma {:induction false} ReadIsQuad(s: string, texts: seq<string>, octets: seq<byte>, t: string, val: byte)
      returns (all: seq<string>)
    requires Octets(texts, octets) && Octet(t, val) && Run4(s, octets, |t|, val).Some?
    ensures Quad(Dots(texts) + t + s, all, Run4(s, octets, |t|, val).value)
    decreases |s|
  {
    hide Numeral, Join;
    all := texts + [t];
    JoinDots(texts, t);
    if s == "" {
      assert Dots(texts) + t + s == Dots(texts) + t;
    } else if IsDigit(s[0]) {
      hide Quad, Octets, Dots;
      var v := 10 * val as int + Digit(s[0]);
      assert Octet(t + [s[0]], v) by {
        DecimalMore(t, val, s[0]);
      }
      all := ReadIsQuad(s[1..], texts, octets, t + [s[0]], v);
      assert Dots(texts) + (t + [s[0]]) + s[1..] == Dots(texts) + t + s;
    } else if s[0] == '.' {
      hide Quad, Octet, Octets, Dots;
      DotsSnoc(texts, t, s);
      all := ReadIsQuad(s[1..], all, octets + [val], "", 0);
    } else {
      assert Dots(texts) + t + s == Dots(texts) + t + "/" + s[1..];
    }
  }

  lemma DecimalMore(t: string, val: byte, c: char)
    requires Octet(t, val) && IsDigit(c) && !(|t| != 0 && val == 0)
    ensures t + [c] == Decimal(10 * val + Digit(c))
  {
    if t == "" {
      DecimalOne(c);
    } else {
      DecimalSnoc(val, c);
    }
  }

  /** getv4 takes exactly the texts of the form. */
  lemma {:induction false} QuadExact(s: string, r: V4)
    ensures Run4(s, [], 0, 0) == Some(r) <==> exists texts :: Quad(s, texts, r)
  {
    if Run4(s, [], 0, 0) == Some(r) {
      var texts := ReadIsQuad(s, [], [], "", 0);
      assert Dots([]) + "" + s == s;
    }
    if texts :| Quad(s, texts, r) {
      QuadIsRead(s, texts, r, []);
      assert [] + r.octets == r.octets;
    }
  }

  /** Four numerals between dots, and perhaps a prefix length. */
  ghost predicate Strict(s: string, a: seq<byte>, bits: Option<int>) {
    && |a| == 4 && (bits.Some? ==> 0 <= bits.value <= 128)
    && s == Dotted(a) + if bits.Some? then "/" + Decimal(bits.value) else ""
  }

  function Numerals(a: seq<byte>): seq<string> {
    seq(|a|, i requires 0 <= i < |a| => Decimal(a[i]))
  }

  lemma JoinFour(t: seq<string>)
    requires |t| == 4
    ensures |Join(t, '.')| == |t[0]| + |t[1]| + |t[2]| + |t[3]| + 3
  {
    assert t[1..][1..] == t[2..] && t[2..][1..] == t[3..];
    assert Join(t[2..], '.') == t[2] + ['.'] + t[3];
    assert Join(t[1..], '.') == t[1] + ['.'] + Join(t[2..], '.');
  }

  lemma OctetLength(t: string, v: byte)
    requires Octet(t, v)
    ensures |t| <= |Decimal(v)| && (|t| == |Decimal(v)| <==> t != "") && (t != "" ==> t == Decimal(v))
  {
    DecimalValue(v);
  }

  lemma StrictQuad(s: string, a: seq<byte>, bits: Option<int>)
    requires Strict(s, a, bits)
    ensures Quad(s, Numerals(a), V4(a, bits))
  {
    hide Numeral, Join;
    DecimalValue(a[3]);
    assert bits.None? ==> s == Dotted(a);
    assert bits.Some? ==> s == Join(Numerals(a), '.') + "/" + Decimal(bits.value);
  }

  lemma {:induction false} SameSize(s: string, texts: seq<string>, r: V4)
    requires Quad(s, texts, r) && Strict(s, r.octets, r.bits)
    ensures |texts| == 4 && forall i :: 0 <= i < 4 ==> texts[i] != ""
  {
    hide Numeral, Join;
    var t := Numerals(r.octets);
    JoinFour(texts);
    JoinFour(t);
    assert |Join(texts, '.')| == |Join(t, '.')|;
    forall i | 0 <= i < 4 ensures |texts[i]| <= |t[i]| && (|texts[i]| == |t[i]| <==> texts[i] != "") {
      assert Octet(texts[i], r.octets[i]);
      OctetLength(texts[i], r.octets[i]);
    }
  }

  /** A text that getv4 takes is a full dotted quad exactly when it has four octets and none of them is empty. */
  lemma {:induction false} StrictExact(s: string, texts: seq<string>, r: V4)
    requires Quad(s, texts, r)
    ensures (exists a, bits :: Strict(s, a, bits)) <==> |texts| == 4 && forall i :: 0 <= i < 4 ==> texts[i] != ""
  {
    hide Numeral, Join, Run4;
    QuadExact(s, r);
    if a, bits :| Strict(s, a, bits) {
      StrictQuad(s, a, bits);
      QuadExact(s, V4(a, bits));
      SameSize(s, texts, r);
    }
    if |texts| == 4 && forall i :: 0 <= i < 4 ==> texts[i] != "" {
      forall i | 0 <= i < 4 ensures texts[i] == Decimal(r.octets[i]) {
        assert Octet(texts[i], r.octets[i]);
        OctetLength(texts[i], r.octets[i]);
      }
      assert texts == Numerals(r.octets);
      assert Strict(s, r.octets, r.bits);
    }
  }

  /** One character. */
  lemma Run4Step(s: string, octets: seq<byte>, n: nat, val: byte)
    requires s != ""
    ensures var c := s[0];
            Run4(s, octets, n, val) ==
            if IsDigit(c) then
              if (n != 0 && val == 0) || 10 * val as int + Digit(c) > 255 then None
                  else Run4(s[1..], octets, n + 1, 10 * val as int + Digit(c))
            else if (c != '.' && c != '/') || |octets| > 3 then None
            else if c == '.' then Run4(s[1..], octets + [val], 0, 0)
            else if BitsOf(s[1..]).None? then None else Some(V4(octets + [val], Some(BitsOf(s[1..]).value)))
  {
  }

  /** Stores an octet. */
  method Put(dst: array<byte>, tp: nat, n: nat, val: byte)
    requires tp + n < dst.Length
    modifies dst
    ensures dst[tp..tp + n + 1] == old(dst[tp..tp + n]) + [val]
    ensures forall j :: 0 <= j < dst.Length && j != tp + n ==> dst[j] == old(dst[j])
  {
    dst[tp + n] := val;
  }

  /** getv4: reads a dotted quad into `dst` at `tp`. */
  method GetV4(src: string, dst: array<byte>, tp: nat) returns (n4: nat, bits: Option<int>, ok: bool)
    requires tp + 4 <= dst.Length
    modifies dst
    ensures n4 <= 4 && forall j :: 0 <= j < tp || tp + n4 <= j < dst.Length ==> dst[j] == old(dst[j])
    ensures Run4(src, [], 0, 0) == if ok then Some(V4(dst[tp..tp + n4], bits)) else None
  {
    hide Numeral, BitsOf;
    var val, n, i := 0, 0, 0;
    ok, bits, n4 := false, None, 0;
    assert dst[tp..tp] == [] && src[0..] == src;
    while i < |src|
      invariant 0 <= i <= |src| && 0 <= val < 256 && n >= 0 && 0 <= n4 <= 4
      invariant Run4(src, [], 0, 0) == Run4(src[i..], dst[tp..tp + n4], n, val)
      invariant forall j :: 0 <= j < tp || tp + n4 <= j < dst.Length ==> dst[j] == old(dst[j])
    {
      var ch := src[i];
      Run4Step(src[i..], dst[tp..tp + n4], n, val);
      assert src[i..][1..] == src[i + 1..];
      i := i + 1;
      if IsDigit(ch) {
        if n != 0 && val == 0 {
          return;
        }
        n := n + 1;
        val := 10 * val + Digit(ch);
        if val > 255 {
          return;
        }
        continue;
      }
      if ch == '.' || ch == '/' {
        if n4 > 3 {
          return;
        }
        Put(dst, tp, n4, val);
        n4 := n4 + 1;
        if ch == '/' {
          bits := GetBits(src[i..]);
          GetBitsIsBitsOf(src[i..], bits);
          ok := bits.Some?;
          return;
        }
        val, n := 0, 0;
        continue;
      }
      return;
    }
    assert src[i..] == "";
    if n == 0 || n4 > 3 {
      return;
    }
    Put(dst, tp, n4, val);
    n4, ok := n4 + 1, true;
  }

  lemma GetBitsIsBitsOf(s: string, bits: Option<int>)
    requires bits.Some? ==> 0 <= bits.value <= 128 && s == Decimal(bits.value)
    requires bits.None? ==> forall v :: 0 <= v <= 128 ==> s != Decimal(v)
    ensures bits == BitsOf(s)
  {
    if bits.Some? {
      BitsOfDecimal(bits.value);
    }
  }
}
