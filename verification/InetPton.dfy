/** An address of either kind. Models ares_inet_pton of
    ext/noderb_extension/libuv/src/ares/inet_net_pton.c. */
module InetPton {
  import opened Bytes
  import opened Options
  import opened Sequences
  import opened InetText
  import opened InetParse
  import I4 = InetParse4
  import Network = InetNetwork
  import opened InetParse6
  import opened InetGroups

  datatype Family = Inet | Inet6 | Unknown

  // ------------------------------------------------------------------------
  // IPv4
  // ------------------------------------------------------------------------

  /** `n` octets are as many as the text writes and as few as cover its width besides. */
  predicate Covers(n: nat, octets: seq<byte>, width: int) {
    |octets| <= n && width <= 8 * n && (|octets| < n ==> 8 * (n - 1) < width)
  }

  /** The text writes a network of up to four octets, which takes `n` octets. */
  ghost predicate Accepted4(s: string, n: nat) {
    exists k: nat, octets: seq<byte>, bits: Option<int> ::
      && Network.Written(s, k, octets, bits) && octets != [] && (bits.Some? ==> bits.value <= 32) && |octets| <= 4
      && Covers(n, octets, Network.WidthOf(octets, bits))
  }

  lemma ExtendedTakes(octets: seq<byte>, width: int, n: nat)
    requires octets != [] && |octets| <= 4 && 0 <= width <= 32
    ensures var r := I4.Extended(octets, width, 4); r.Net? && (Covers(n, octets, width) <==> |r.octets| == n)
  {
  }

  lemma WidthFits(octets: seq<byte>, s: string, k: nat, bits: Option<int>)
    requires Network.Written(s, k, octets, bits)
    requires octets != [] && |octets| <= 4 && (bits.Some? ==> bits.value <= 32)
    ensures 0 <= Network.WidthOf(octets, bits) <= 32
  {
    hide Network.Lead4;
  }

  /** The accepted texts are exactly those, with the octets that are written. */
  lemma {:induction false} Accepted4Exact(s: string, n: nat)
    ensures Accepted4(s, n) <==> I4.NetOf(s, 4).Net? && |I4.NetOf(s, 4).octets| == n
  {
    hide I4.NetOf, I4.Extended, Network.Written, Network.WidthOf, Covers;
    var r := I4.NetOf(s, 4);
    if r.Net? && |r.octets| == n {
      Network.NetworkExact(s, 4, r);
      var k, octets, bits :|
        && Network.Written(s, k, octets, bits) && octets != [] && (bits.Some? ==> bits.value <= 32) && |octets| <= 4
        && r == I4.Extended(octets, Network.WidthOf(octets, bits), 4);
      WidthFits(octets, s, k, bits);
      ExtendedTakes(octets, Network.WidthOf(octets, bits), n);
    }
    if k: nat, octets: seq<byte>, bits: Option<int> :|
        && Network.Written(s, k, octets, bits) && octets != [] && (bits.Some? ==> bits.value <= 32) && |octets| <= 4
        && Covers(n, octets, Network.WidthOf(octets, bits)) {
      var w := Network.WidthOf(octets, bits);
      WidthFits(octets, s, k, bits);
      ExtendedTakes(octets, w, n);
      Network.NetworkExact(s, 4, I4.Extended(octets, w, 4));
    }
  }

  /** One number alone is an address of which one octet is written. */
  lemma ShortNetwork(text: string)
    requires text == "10"
    ensures Accepted4(text, 1) && I4.NetOf(text, 4) == I4.Net(8, [10])
  {
    hide I4.LeadOf;
    var none: Option<int> := None;
    assert Value("10") == 10 by {
      assert "10"[..1] == "1" && "1"[..0] == "";
    }
    assert Network.DotForm("10", ["10"], [10]);
    assert "10"[..2] == "10" && "10"[2..] == "";
    assert Network.Written("10", 2, [10], none);
    assert Covers(1, [10], Network.WidthOf([10], none));
    Network.NetworkExact(text, 4, I4.Net(8, [10]));
  }

  // ------------------------------------------------------------------------
  // IPv6
  // ------------------------------------------------------------------------

  /** The number that inet_net_pton_ipv6 returns. */
  function Returned(o: Outcome): int {
    match o
    case Zero => 0
    case Address(bits, _) => bits
    case _ => -1
  }

  /** It returns 0 exactly for nine groups and something more, and for accepted texts with prefix length 0. */
  lemma {:induction false} ZeroExact(s: string)
    ensures ValidScan(ScanText(s))
    ensures Returned(Finished(ScanText(s), 16)) == 0 <==> NineGroups(s) || Accepted6(s, 0)
  {
    hide ScanText, NineGroups, Accepted6, Finished;
    AcceptedExact(s, 0);
    OverfullExact(s);
    NotScanned(ScanText(s));
  }

  /** Every address of no bits is returned like a text with too many groups. */
  lemma NoPrefix(text: string)
    requires text == "::/0"
    ensures Accepted6(text, 0) && !NineGroups(text)
  {
    hide ScanText, NineGroups;
    var end := Plain("", Some(0));
    assert text[1..] == ":/0" && Decimal(0) == "0";
    assert Spells(text, [], 0, end);
    SpelledAs(text, [], 0, end);
  }

  lemma HalfForm(text: string, groups: seq<string>, end: Ending)
    requires text == "fe80::1/64" && groups == ["fe80"] && end == Plain("1", Some(64))
    ensures Spells(text, groups, 1, end) && RowBytes(groups) == [0xfe, 0x80] && EndBytes(end) == [0, 1]
  {
    hide HexNumber, Numeral;
    HexGroup();
    SixtyFour();
    assert groups[1..] == [] && EndText(end) == "1/64" && Grouped(groups, 1) == "fe80" + (":" + ":");
    assert text == Grouped(groups, 1) + EndText(end);
    assert Group("fe80") && Group("1");
    assert RowBytes([]) == [];
  }

  /** Fewer bytes than an address has: eight for a prefix length of 64. */
  lemma {:induction false} HalfAddress(text: string)
    requires text == "fe80::1/64"
    ensures Accepted6(text, 64) && !NineGroups(text)
    ensures ValidScan(ScanText(text)) && Finished(ScanText(text), 16) == Address(64, [0xfe, 0x80, 0, 0, 0, 0, 0, 1])
  {
    hide ScanText, NineGroups, Spells, EndText, Grouped, RowBytes, EndBytes, Meaning, HexNumber;
    var groups, end := ["fe80"], Plain("1", Some(64));
    HalfForm(text, groups, end);
    SpelledAs(text, groups, 1, end);
    var b: seq<byte> := [0xfe, 0x80, 0, 1];
    assert Kept(b, 2, 8) == [0xfe, 0x80, 0, 0, 0, 0, 0, 1];
  }

  /** What is read of a text that is spelled with "::" and fits. */
  lemma {:induction false} SpelledAs(text: string, groups: seq<string>, gap: nat, end: Ending)
    requires Spells(text, groups, gap, end) && Fits(groups, gap, end)
    ensures Accepted6(text, EndBits(end)) && !NineGroups(text)
    ensures gap <= |groups| && 2 * |groups| == |RowBytes(groups)|
    ensures ScanText(text) == Scanned(RowBytes(groups) + EndBytes(end), 2 * gap, EndBits(end), end.Dots?)
    ensures ValidScan(ScanText(text))
  {
    hide ScanText, NineGroups, EndText, Grouped, RowBytes, EndBytes, Form;
    SpellsMeaning(text, groups, gap, end);
    SpellsExact(text, Meaning(Start(text), groups, gap, end));
    OverfullExact(text);
  }

  lemma SixtyFour()
    ensures Decimal(64) == "64"
  {
    assert Decimal(6) == "6";
  }

  lemma HexGroup()
    ensures I4.AllHex("fe80") && HexNumber("fe80") == 0xfe80 && I4.AllHex("1") && HexNumber("1") == 1
  {
    assert "fe80"[..3] == "fe8" && "fe8"[..2] == "fe" && "fe"[..1] == "f" && "f"[..0] == "" && "1"[..0] == "";
  }

  lemma ShortForm(text: string, end: Ending)
    requires text == "::1.2" && end == Dots("1.2", V4([1, 2], None))
    ensures Spells(text, [], 0, end)
  {
    assert Decimal(1) == "1" && Decimal(2) == "2";
    assert text[1..] == ":1.2";
    assert ["1", "2"][1..] == ["2"];
    assert Quad("1.2", ["1", "2"], end.quad);
  }

  /** A dotted end with two octets is taken; they are not the last two bytes. */
  lemma {:induction false} ShortDots(text: string)
    requires text == "::1.2"
    ensures Accepted6(text, 128)
    ensures ValidScan(ScanText(text)) && Finished(ScanText(text), 16) == Address(128, Zeros(12) + [1, 2, 0, 0])
  {
    hide ScanText, NineGroups, Spells, EndText, Grouped, Meaning;
    var end := Dots("1.2", V4([1, 2], None));
    ShortForm(text, end);
    SpelledAs(text, [], 0, end);
    var b: seq<byte> := [1, 2, 0, 0];
    assert Kept(b, 0, 16) == Zeros(12) + b;
  }

  // ------------------------------------------------------------------------
  // ares_inet_pton
  // ------------------------------------------------------------------------

  /** ares_inet_pton: 1 for an address, 0 for a text that is none, -1 for any other failure; `written` are the bytes
      of the address that are written when the code is 1. They are all that an address has only when enough of them are
      written or wanted. */
  method Pton(af: Family, src: string) returns (code: int, written: seq<byte>)
    ensures code in {-1, 0, 1} && (code != 1 ==> written == [])
    ensures af.Unknown? ==> code == -1
    ensures af.Inet? && I4.NetOf(src, 4).Net? ==> code == 1 && written == I4.NetOf(src, 4).octets
    ensures af.Inet? ==> forall n: nat :: Accepted4(src, n) <==> code == 1 && |written| == n
    ensures af.Inet? ==> (code == 0 <==> I4.NetOf(src, 4).NotNet?)
    ensures ValidScan(ScanText(src))
    ensures af.Inet6? && !Escapes(src) ==> (code == 1 <==> NineGroups(src) || exists bits :: Accepted6(src, bits))
    ensures af.Inet6? && !Escapes(src) ==> code != -1
    ensures af.Inet6? ==> forall bits :: Accepted6(src, bits) ==>
                code == 1 && |written| == (bits + 7) / 8 && Finished(ScanText(src), 16) == Address(bits, written)
    ensures af.Inet6? && !Escapes(src) ==>
              (code == 1 && |written| == 16 <==> exists bits :: bits > 120 && Accepted6(src, bits))
    ensures af.Inet6? && !Escapes(src) ==> (code == 1 && written == [] <==> NineGroups(src) || Accepted6(src, 0))
  {
    written := [];
    ScanTextValid(src);
    match af {
      case Unknown => code := -1;
      case Inet =>
        hide I4.NetOf, Accepted4;
        forall n: nat ensures Accepted4(src, n) <==> I4.NetOf(src, 4).Net? && |I4.NetOf(src, 4).octets| == n {
          Accepted4Exact(src, n);
        }
        var r := I4.NetPton4(src, 4);
        code := if r.Net? then 1 else if r.NotNet? then 0 else -1;
        written := if r.Net? then r.octets else [];
      case Inet6 =>
        hide Finished, NineGroups, ScanText, Accepted6, Escapes;
        OverfullExact(src);
        EscapesExact(src);
        NotScanned(ScanText(src));
        forall bits ensures Accepted6(src, bits) <==>
                            Finished(ScanText(src), 16).Address? && Finished(ScanText(src), 16).bits == bits {
          AcceptedExact(src, bits);
        }
        var o := NetPton6(src, 16);
        assert o.Address? ==> Accepted6(src, o.bits);
        code := if o.Address? || o.Zero? then 1 else if o.NotFound? then 0 else -1;
        written := if o.Address? then o.bytes else [];
    }
  }
}
