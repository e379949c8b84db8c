/** Printed addresses are read back.
    Relates ext/noderb_extension/libuv/src/ares/inet_ntop.c and inet_net_pton.c. */
module InetRoundTrip {
  import opened Bytes
  import opened Options
  import opened Sequences
  import opened InetText
  import opened InetParse
  import I4 = InetParse4
  import opened InetParse6
  import opened InetGroups

  // ------------------------------------------------------------------------
  // IPv4
  // ------------------------------------------------------------------------

  lemma {:induction false} DecimalsOfNumeral(v: byte, rest: string, room: nat)
    requires rest == "" || rest[0] == '.'
    ensures I4.Span(Decimal(v) + rest) == |Decimal(v)| && Value(Decimal(v)) == v
    ensures (Decimal(v) + rest)[..|Decimal(v)|] == Decimal(v) && (Decimal(v) + rest)[|Decimal(v)|..] == rest
  {
    DecimalValue(v);
    var s := Decimal(v) + rest;
    assert s[..|Decimal(v)|] == Decimal(v);
  }

  lemma {:induction false} DottedCons(a: seq<byte>)
    requires |a| > 1
    ensures Dotted(a) == Decimal(a[0]) + ("." + Dotted(a[1..]))
  {
    var t := seq(|a|, i requires 0 <= i < |a| => Decimal(a[i]));
    assert t[1..] == seq(|a[1..]|, i requires 0 <= i < |a[1..]| => Decimal(a[1..][i]));
  }

  lemma DottedHead(a: seq<byte>)
    requires |a| > 0
    ensures Dotted(a) != "" && IsDigit(Dotted(a)[0])
    ensures |Dotted(a)| >= 2 ==> IsDigit(Dotted(a)[1]) || Dotted(a)[1] == '.'
  {
    DecimalValue(a[0]);
    if |a| > 1 {
      DottedCons(a);
      assert |Decimal(a[0])| == 1 ==> Dotted(a)[1] == ("." + Dotted(a[1..]))[0];
    }
  }

  lemma {:induction false} DottedIsRead(a: seq<byte>, room: nat)
    requires 1 <= |a| <= room
    ensures I4.Decimals(Dotted(a), room) == I4.Lead(a, "")
    decreases |a|
  {
    hide Numeral, Dotted, Value, I4.Decimals, I4.Span;
    var v := a[0];
    if |a| == 1 {
      DecimalsOfNumeral(v, "", room);
      assert Dotted(a) == Decimal(v) + "" by { DottedOne(a); }
      I4.DecimalsStep(Dotted(a), room);
    } else {
      var rest := "." + Dotted(a[1..]);
      DottedCons(a);
      DottedHead(a[1..]);
      DecimalsOfNumeral(v, rest, room);
      I4.DecimalsStep(Dotted(a), room);
      DottedIsRead(a[1..], room - 1);
      assert Dotted(a)[|Decimal(v)| + 1..] == rest[1..] == Dotted(a[1..]);
      assert [v] + a[1..] == a;
    }
  }

  lemma DottedOne(a: seq<byte>)
    requires |a| == 1
    ensures Dotted(a) == Decimal(a[0])
  {
  }

  /** Every IPv4 address that is printed is read back. */
  lemma {:induction false} RoundTrip4(a: seq<byte>)
    requires |a| == 4
    ensures I4.NetOf(Dotted(a), 4) == I4.Net(32, a)
  {
    hide Dotted;
    DottedIsRead(a, 4);
    DottedHead(a);
  }

  // ------------------------------------------------------------------------
  // IPv6: one group
  // ------------------------------------------------------------------------

  lemma ScanDigit(d: int, rest: string, p: Part)
    requires ValidPart(p) && p.digits < 4 && 0 <= d < 16
    ensures ValidPart(Shifted(p, d))
    ensures ScanFrom([DigitChar(d)] + rest, p) == ScanFrom(rest, Shifted(p, d))
  {
    hide ScanFrom;
    ScanStep([DigitChar(d)] + rest, p);
    assert ([DigitChar(d)] + rest)[1..] == rest;
  }

  /** The numeral of a word of up to `k` hexadecimal digits. */
  lemma {:induction false} HexIsRead(w: nat, k: nat, rest: string, p: Part)
    requires Fresh(p) && 1 <= k <= 4 && w < Power16(k)
    ensures 1 <= |Hex(w)| <= k
    ensures var q := p.(saw := true, val := w, digits := |Hex(w)|);
              ValidPart(q) && ScanFrom(Hex(w) + rest, p) == ScanFrom(rest, q)
    decreases k
  {
    hide ScanFrom;
    if w < 16 {
      ScanDigit(w, rest, p);
      assert Hex(w) == [DigitChar(w)];
    } else {
      var more := [DigitChar(w % 16)] + rest;
      HexIsRead(w / 16, k - 1, more, p);
      ScanDigit(w % 16, rest, p.(saw := true, val := w / 16, digits := |Hex(w / 16)|));
      assert Hex(w) + rest == Hex(w / 16) + more;
    }
  }

  function Power16(k: nat): nat {
    if k == 0 then 1 else 16 * Power16(k - 1)
  }

  lemma WordIsRead(w: Word, rest: string, p: Part)
    requires Fresh(p)
    ensures Hex(w) != ""
    ensures var q := p.(saw := true, val := w, digits := |Hex(w)|);
              ValidPart(q) && ScanFrom(Hex(w) + rest, p) == ScanFrom(rest, q)
  {
    assert Power16(4) == 16 * Power16(3) && Power16(3) == 16 * Power16(2) && Power16(2) == 16 * Power16(1)
           && Power16(1) == 16;
    HexIsRead(w, 4, rest, p);
  }

  // ------------------------------------------------------------------------
  // IPv6: several groups
  // ------------------------------------------------------------------------

  function BytesOf(words: seq<Word>): (r: seq<byte>)
    ensures |r| == 2 * |words|
  {
    if words == [] then [] else Flushed([], words[0]) + BytesOf(words[1..])
  }

  lemma {:induction false} BytesAppend(u: seq<Word>, v: seq<Word>)
    ensures BytesOf(u + v) == BytesOf(u) + BytesOf(v)
  {
    hide Flushed;
    if u == [] {
      assert u + v == v;
    } else {
      BytesAppend(u[1..], v);
      assert (u + v)[1..] == u[1..] + v && (u + v)[0] == u[0];
      assert BytesOf(u + v) == Flushed([], u[0]) + (BytesOf(u[1..]) + BytesOf(v));
    }
  }

  lemma {:induction false} BytesOfWords(a: seq<byte>)
    requires |a| % 2 == 0
    ensures BytesOf(WordsOf(a)) == a
  {
    if a == [] {
    } else {
      assert WordsOf(a)[1..] == WordsOf(a[2..]);
      BytesOfWords(a[2..]);
      assert a == [a[0], a[1]] + a[2..];
    }
  }

  lemma JoinCons(words: seq<Word>)
    requires |words| > 1
    ensures Join(Hexes(words), ':') == Hex(words[0]) + (":" + Join(Hexes(words[1..]), ':'))
            && Join(Hexes(words[1..]), ':') != ""
  {
    assert Hexes(words)[1..] == Hexes(words[1..]);
  }

  /** After reading groups: all but the last are stored. */
  function Pending(p: Part, words: seq<Word>, cur: string): Part
    requires words != []
  {
    var n := |words| - 1;
    Part(p.bytes + BytesOf(words[..n]), p.colon, true, words[n], |Hex(words[n])|, cur)
  }

  lemma {:induction false} GroupsAreRead(words: seq<Word>, rest: string, p: Part) returns (cur: string)
    requires words != [] && Fresh(p) && |p.bytes| + 2 * |words| <= 18
    ensures var q := Pending(p, words, cur);
              ValidPart(q) && ScanFrom(Join(Hexes(words), ':') + rest, p) == ScanFrom(rest, q)
    decreases |words|
  {
    hide Numeral, ScanFrom, BytesOf, Hexes;
    var w := words[0];
    if |words| == 1 {
      WordIsRead(w, rest, p);
      cur := p.cur;
      OneGroup(p, w, cur);
      assert words == [w];
    } else {
      JoinCons(words);
      var more := Join(Hexes(words[1..]), ':') + rest;
      WordIsRead(w, ":" + more, p);
      var q := p.(saw := true, val := w, digits := |Hex(w)|);
      var r := Part(Flushed(p.bytes, w), p.colon, false, 0, 0, more);
      ScanStep(":" + more, q);
      assert (":" + more)[1..] == more;
      cur := GroupsAreRead(words[1..], rest, r);
      assert Join(Hexes(words), ':') + rest == Hex(w) + (":" + more);
      PendingCons(p, words, more, cur);
    }
  }

  lemma OneGroup(p: Part, w: Word, cur: string)
    ensures Pending(p, [w], cur) == Part(p.bytes, p.colon, true, w, |Hex(w)|, cur) && Join(Hexes([w]), ':') == Hex(w)
  {
    hide Numeral;
    assert [w][..0] == [] && p.bytes + BytesOf([]) == p.bytes;
  }

  lemma PendingCons(p: Part, words: seq<Word>, more: string, cur: string)
    requires |words| > 1
    ensures Pending(Part(Flushed(p.bytes, words[0]), p.colon, false, 0, 0, more), words[1..], cur)
            == Pending(p, words, cur)
  {
    var n := |words| - 1;
    assert words[1..][..n - 1] == words[..n][1..];
    assert Flushed(p.bytes, words[0]) + BytesOf(words[..n][1..])
           == p.bytes + (Flushed([], words[0]) + BytesOf(words[..n][1..]));
  }

  /** Groups up to the end of the text. */
  lemma {:induction false} LastGroups(words: seq<Word>, p: Part)
    requires words != [] && Fresh(p) && |p.bytes| + 2 * |words| <= 16
    ensures ScanFrom(Join(Hexes(words), ':'), p) == Scanned(p.bytes + BytesOf(words), p.colon, 128, false)
  {
    hide ScanFrom, Numeral, Join, Hexes;
    var cur := GroupsAreRead(words, "", p);
    assert Join(Hexes(words), ':') + "" == Join(Hexes(words), ':');
    ScanEnd(Pending(p, words, cur));
    FlushedPending(p, words, cur);
  }

  lemma FlushedPending(p: Part, words: seq<Word>, cur: string)
    requires words != []
    ensures var q := Pending(p, words, cur); Flushed(q.bytes, q.val) == p.bytes + BytesOf(words)
  {
    var n := |words| - 1;
    BytesAppend(words[..n], [words[n]]);
    assert words[..n] + [words[n]] == words;
    assert BytesOf([words[n]]) == Flushed([], words[n]) + BytesOf([]);
  }

  // ------------------------------------------------------------------------
  // IPv6: "::"
  // ------------------------------------------------------------------------

  /** After "::" that stands for the words between `pre` and what follows. */
  function Opened(pre: seq<Word>, rest: string): Part {
    Part(BytesOf(pre), 2 * |pre|, false, 0, 0, rest)
  }

  lemma {:induction false} OpeningIsRead(pre: seq<Word>, rest: string)
    requires |pre| <= 8
    ensures Fresh(Opened(pre, rest))
            && ScanText(Join(Hexes(pre), ':') + "::" + rest) == ScanFrom(rest, Opened(pre, rest))
  {
    hide Numeral;
    var s := Join(Hexes(pre), ':') + "::" + rest;
    if pre == [] {
      assert s[1..] == ":" + rest;
    } else {
      var p := Part([], -1, false, 0, 0, s);
      HexHead(pre[0]);
      assert s == Join(Hexes(pre), ':') + (":" + (":" + rest));
      var cur := GroupsAreRead(pre, ":" + (":" + rest), p);
      var q := Pending(p, pre, cur);
      FlushedPending(p, pre, cur);
      assert [] + BytesOf(pre) == BytesOf(pre);
    }
  }

  lemma {:induction false} HexHead(w: nat)
    ensures Hex(w) != "" && Hex(w)[0] != ':'
    decreases w
  {
    if w < 16 {
    } else {
      HexHead(w / 16);
    }
  }

  /** A full address without "::". */
  lemma {:induction false} PlainIsRead(words: seq<Word>)
    requires |words| == 8
    ensures ScanText(Join(Hexes(words), ':')) == Scanned(BytesOf(words), -1, 128, false)
  {
    hide ScanFrom, Numeral;
    var s := Join(Hexes(words), ':');
    HexHead(words[0]);
    LastGroups(words, Part([], -1, false, 0, 0, s));
    assert [] + BytesOf(words) == BytesOf(words);
  }

  /** An octet read as if it were a group. */
  lemma {:induction false} OctetIsScanned(v: nat, k: nat, rest: string, p: Part) returns (val: int)
    requires Fresh(p) && 1 <= k <= 3 && |Decimal(v)| <= k
    ensures var q := p.(saw := true, val := val, digits := |Decimal(v)|);
              ValidPart(q) && ScanFrom(Decimal(v) + rest, p) == ScanFrom(rest, q)
    decreases k
  {
    hide ScanFrom;
    if v < 10 {
      ScanDigit(v, rest, p);
      assert Decimal(v) == [DigitChar(v)];
      val := v;
    } else {
      var more := [DigitChar(v % 10)] + rest;
      assert |Decimal(v / 10)| >= 1;
      val := OctetIsScanned(v / 10, k - 1, more, p);
      ScanDigit(v % 10, rest, p.(saw := true, val := val, digits := |Decimal(v / 10)|));
      assert Decimal(v) + rest == Decimal(v / 10) + more;
      val := 16 * val + v % 10;
    }
  }

  lemma QuadOf(a: seq<byte>)
    requires |a| == 4
    ensures Run4(Dotted(a), [], 0, 0) == Some(V4(a, None))
  {
    hide Numeral, Run4;
    var t := seq(|a|, i requires 0 <= i < |a| => Decimal(a[i]));
    assert Octets(t, a);
    assert Quad(Dotted(a), t, V4(a, None));
    QuadIsRead(Dotted(a), t, V4(a, None), []);
    assert [] + a == a;
  }

  /** A dotted quad ends the text. */
  lemma {:induction false} QuadIsScanned(a: seq<byte>, p: Part)
    requires |a| == 4 && Fresh(p) && |p.bytes| + 4 <= 16 && p.cur == Dotted(a)
    ensures ScanFrom(Dotted(a), p) == Scanned(p.bytes + a, p.colon, 128, true)
  {
    hide ScanFrom, Numeral, Dotted, Run4;
    var rest := "." + Dotted(a[1..]);
    DottedCons(a);
    DecimalLength(a[0]);
    var val := OctetIsScanned(a[0], 3, rest, p);
    var q := p.(saw := true, val := val, digits := |Decimal(a[0])|);
    ScanStep(rest, q);
    QuadOf(a);
    assert p.bytes + a + Zeros(0) == p.bytes + a;
  }

  // ------------------------------------------------------------------------
  // The whole address
  // ------------------------------------------------------------------------

  lemma {:induction false} ZerosBytes(words: seq<Word>)
    requires forall i :: 0 <= i < |words| ==> words[i] == 0
    ensures BytesOf(words) == Zeros(2 * |words|)
  {
    if words == [] {
    } else {
      ZerosBytes(words[1..]);
      assert Zeros(2 * |words|) == [0, 0] + Zeros(2 * |words| - 2);
    }
  }

  /** The words split at the run. */
  lemma {:induction false} RunBytes(a: seq<byte>, base: int, len: int)
    requires |a| == 16 && ZeroRun(WordsOf(a), base, len)
    ensures var words := WordsOf(a); a == BytesOf(words[..base]) + Zeros(2 * len) + BytesOf(words[base + len..])
  {
    hide BytesOf, WordsOf;
    var words := WordsOf(a);
    BytesOfWords(a);
    ZerosBytes(words[base..base + len]);
    BytesAppend(words[..base], words[base..base + len]);
    BytesAppend(words[..base] + words[base..base + len], words[base + len..]);
    assert words == words[..base] + words[base..base + len] + words[base + len..];
  }

  /** What follows "::" is read as the rest of the address. */
  lemma {:induction false} TailIsRead(a: seq<byte>, base: int, len: int) returns (v4: bool)
    requires |a| == 16 && ZeroRun(WordsOf(a), base, len) && len >= 2
    ensures var words := WordsOf(a); var t := Join(Tail(a, base, len), ':');
            ScanFrom(t, Opened(words[..base], t))
                == Scanned(BytesOf(words[..base]) + BytesOf(words[base + len..]), 2 * base, 128, v4)
  {
    hide ScanFrom, Numeral, Dotted, WordsOf;
    var words := WordsOf(a);
    var t := Join(Tail(a, base, len), ':');
    var p := Opened(words[..base], t);
    var post := words[base + len..];
    v4 := Embedded(words, base, len);
    if Embedded(words, base, len) {
      EmbeddedIsRead(a, len, t);
    } else if post == [] {
      ScanEnd(p);
      assert p.bytes + BytesOf(post) == p.bytes;
    } else {
      LastGroups(post, p);
    }
  }

  lemma LastWords(a: seq<byte>)
    requires |a| == 16
    ensures WordsOf(a)[6..] == WordsOf(a[12..])
  {
    var u, v := WordsOf(a)[6..], WordsOf(a[12..]);
    assert forall i :: 0 <= i < 2 ==> a[12 + 2 * i] == a[12..][2 * i] && a[12 + 2 * i + 1] == a[12..][2 * i + 1];
    assert u[0] == v[0] && u[1] == v[1];
  }

  /** The end of an embedded address behind five zero words and 0xffff. */
  lemma {:induction false} MappedIsRead(w: Word, q: seq<byte>, p: Part, t: string)
    requires |q| == 4 && Fresh(p) && |p.bytes| + 6 <= 16 && t == Hex(w) + (":" + Dotted(q))
    ensures ScanFrom(t, p) == Scanned(p.bytes + ([w / 256, w % 256] + q), p.colon, 128, true)
  {
    hide Numeral, Dotted, ScanFrom;
    var d := Dotted(q);
    WordIsRead(w, ":" + d, p);
    ScanStep(":" + d, p.(saw := true, val := w, digits := |Hex(w)|));
    assert (":" + d)[1..] == d;
    DottedHead(q);
    QuadIsScanned(q, Part(Flushed(p.bytes, w), p.colon, false, 0, 0, d));
    Regroup(p.bytes, [w / 256, w % 256], q);
  }

  lemma MappedTail(a: seq<byte>, t: string)
    requires |a| == 16 && Embedded(WordsOf(a), 0, 5) && t == Join(Tail(a, 0, 5), ':')
    ensures t == Hex(WordsOf(a)[5]) + (":" + Dotted(a[12..]))
  {
    hide Numeral, Dotted, WordAt;
    var words, d := WordsOf(a), Dotted(a[12..]);
    assert Hexes(words[5..6]) + [d] == [Hex(words[5]), d];
    assert [Hex(words[5]), d][1..] == [d];
  }

  lemma EmbeddedTail(a: seq<byte>, t: string)
    requires |a| == 16 && Embedded(WordsOf(a), 0, 6) && t == Join(Tail(a, 0, 6), ':')
    ensures t == Dotted(a[12..])
  {
    hide Numeral, Dotted, WordAt;
    assert Hexes(WordsOf(a)[6..6]) + [Dotted(a[12..])] == [Dotted(a[12..])];
  }

  lemma {:induction false} EmbeddedIsRead(a: seq<byte>, len: int, t: string)
    requires |a| == 16 && ZeroRun(WordsOf(a), 0, len) && Embedded(WordsOf(a), 0, len) && t == Join(Tail(a, 0, len), ':')
    ensures var words := WordsOf(a);
            ScanFrom(t, Opened(words[..0], t)) == Scanned(BytesOf(words[..0]) + BytesOf(words[len..]), 0, 128, true)
  {
    hide Numeral, Dotted, WordsOf, ScanFrom, Tail, Join, Hexes;
    var words, q := WordsOf(a), a[12..];
    var p := Opened(words[..0], t);
    LastWords(a);
    BytesOfWords(q);
    if len == 6 {
      EmbeddedTail(a, t);
      QuadIsScanned(q, p);
    } else {
      MappedTail(a, t);
      MappedIsRead(words[5], q, p, t);
      assert words[5..] == [words[5]] + words[6..];
      assert BytesOf(words[5..]) == Flushed([], words[5]) + BytesOf(words[6..]);
    }
  }

  /** Every IPv6 address that is printed is read back. */
  lemma {:induction false} RoundTrip6(a: seq<byte>, base: int, len: int)
    requires |a| == 16 && Chosen(WordsOf(a), base, len)
    ensures -1 <= base && (base != -1 ==> 0 <= len && base + len <= 8)
    ensures ValidScan(ScanText(Text(a, base, len))) && Finished(ScanText(Text(a, base, len)), 16) == Address(128, a)
  {
    hide ScanText, Numeral, Hexes, Dotted, WordsOf, Tail, Chosen, ZeroRun;
    var words := WordsOf(a);
    ChosenBounds(words, base, len);
    BytesOfWords(a);
    if base == -1 {
      PlainIsRead(words);
    } else {
      var t := Join(Tail(a, base, len), ':');
      ChosenRun(words, base, len);
      OpeningIsRead(words[..base], t);
      var v4 := TailIsRead(a, base, len);
      RunBytes(a, base, len);
      SpreadOut(a, BytesOf(words[..base]), len, BytesOf(words[base + len..]), v4);
    }
  }

  lemma ChosenRun(words: seq<Word>, base: int, len: int)
    requires Chosen(words, base, len) && base != -1
    ensures ZeroRun(words, base, len) && len >= 2
  {
  }

  lemma SpreadOut(a: seq<byte>, u: seq<byte>, len: nat, v: seq<byte>, v4: bool)
    requires |a| == 16 && a == u + Zeros(2 * len) + v && len > 0
    ensures Finished(Scanned(u + v, |u|, 128, v4), 16) == Address(128, a)
  {
    assert (u + v)[..|u|] == u && (u + v)[|u|..] == v;
    assert a[..16] == a;
  }

  // ------------------------------------------------------------------------
  // Too many groups
  // ------------------------------------------------------------------------

  /** How texts of groups alone are taken: eight are an address; from ten on the function returns 0. */
  lemma {:induction false} GroupCount(words: seq<Word>)
    requires words != []
    ensures var r := ScanText(Join(Hexes(words), ':'));
            && ValidScan(r)
            && Finished(r, 16) == if |words| == 8 then Address(128, BytesOf(words)) else if |words| <= 9 then NotFound
                else Zero
  {
    hide ScanFrom, Numeral;
    var s := Join(Hexes(words), ':');
    var p := Part([], -1, false, 0, 0, s);
    HexHead(words[0]);
    if |words| <= 8 {
      LastGroups(words, p);
      assert [] + BytesOf(words) == BytesOf(words);
      assert |words| == 8 ==> BytesOf(words)[..16] == BytesOf(words);
    } else if |words| == 9 {
      var cur := GroupsAreRead(words, "", p);
      assert s + "" == s;
      ScanEnd(Pending(p, words, cur));
    } else {
      var rest := Join(Hexes(words[9..]), ':');
      JoinSplit(words, 9);
      var cur := GroupsAreRead(words[..9], ":" + rest, p);
      ScanStep(":" + rest, Pending(p, words[..9], cur));
      assert (":" + rest)[1..] == rest;
    }
  }

  lemma {:induction false} JoinSplit(words: seq<Word>, k: nat)
    requires 1 <= k < |words|
    ensures Join(Hexes(words), ':') == Join(Hexes(words[..k]), ':') + (":" + Join(Hexes(words[k..]), ':'))
    decreases k
  {
    hide Numeral;
    JoinCons(words);
    if k == 1 {
    } else {
      JoinSplit(words[1..], k - 1);
      JoinCons(words[..k]);
      assert words[1..][..k - 1] == words[..k][1..] && words[1..][k - 1..] == words[k..];
      var head, middle, rest := Hex(words[0]), Join(Hexes(words[..k][1..]), ':'), Join(Hexes(words[k..]), ':');
      Regroup(":", middle, ":" + rest);
      Regroup(head, ":" + middle, ":" + rest);
    }
  }
}
