/** IPv6 texts with a prefix length. Relates what inet_net_pton_ipv6 of
    ext/noderb_extension/libuv/src/ares/inet_net_pton.c keeps to the address written. */
module InetPrefix {
  import opened Bytes
  import opened Options
  import opened InetText
  import opened InetParse
  import opened InetParse6
  import opened InetRoundTrip
  import G = InetGroups

  /** The address that is written: zeros stand where "::" is. */
  function Full(b: seq<byte>, colon: int): (r: seq<byte>)
    requires |b| <= 16 && -1 <= colon <= |b|
    ensures |r| == if colon == -1 then |b| else 16
  {
    if colon == -1 then b else b[..colon] + Zeros(16 - |b|) + b[colon..]
  }

  /** The bytes of `b` from `i` up to `k` are zeros. */
  ghost predicate NoneIn(b: seq<byte>, i: int, k: int) {
    forall j :: 0 <= i <= j < k && j < |b| ==> b[j] == 0
  }

  /** A downward shift finds the bytes that it puts at `i` and on, up to `k`, there already. */
  ghost predicate SameIn(b: seq<byte>, i: int, k: int, end: int)
    requires end < |b|
  {
    forall j :: 0 <= i <= j < k && j < |b| ==> b[j] == b[Source(j, |b|, end)]
  }

  /** Nothing is out of place in the first `n` bytes: what is moved ends behind them or where it belongs, or the bytes
      that come to stand there are the same by chance. */
  ghost predicate InPlace(b: seq<byte>, colon: nat, end: nat, n: nat)
    requires colon <= |b| <= 16 && n <= end <= 16 && |b| - colon <= end && |b| != end
  {
    var m := |b| - colon;
    || n + m <= end
    || end == 16
    || if |b| < end then NoneIn(b, colon, |b| + n - end)
       else SameIn(b, end - m, if n < colon then n else colon, end) && NoneIn(b, colon, |b| + n - 16)
  }

  lemma FullAt(b: seq<byte>, colon: nat, j: nat)
    requires colon <= |b| <= 16 && j < 16
    ensures Full(b, colon)[j] == if j < colon then b[j] else if j < 16 - (|b| - colon) then 0 else b[j - (16 - |b|)]
  {
  }

  lemma KeptDownAt(b: seq<byte>, colon: nat, end: nat, j: nat)
    requires colon <= |b| <= 16 && |b| - colon <= end < |b| && j < end
    ensures Kept(b, colon, end)[j]
            == if j < end - (|b| - colon) then b[j] else if j < colon then b[Source(j, |b|, end)] else 0
  {
    hide Source;
  }

  lemma PrefixAt(u: seq<byte>, v: seq<byte>, n: nat, j: nat)
    requires j < n <= |u| && n <= |v| && u[..n] == v[..n]
    ensures u[j] == v[j]
  {
    assert u[j] == u[..n][j];
  }

  lemma {:induction false} KeptUp(b: seq<byte>, colon: nat, end: nat, n: nat)
    requires colon <= |b| < end && n <= end < 16 && n + (|b| - colon) > end
    ensures Kept(b, colon, end)[..n] == Full(b, colon)[..n] <==> NoneIn(b, colon, |b| + n - end)
  {
    var kept, full := Kept(b, colon, end), Full(b, colon);
    if kept[..n] == full[..n] {
      forall k | colon <= k < |b| + n - end ensures b[k] == 0 {
        TailIsZero(b, colon, end, n, k);
      }
    }
    if NoneIn(b, colon, |b| + n - end) {
      forall j | 0 <= j < n ensures kept[j] == full[j] {
        assert j >= end - (|b| - colon) ==> kept[j] == b[j - (end - |b|)];
        assert j >= 16 - (|b| - colon) ==> full[j] == b[j - (16 - |b|)];
      }
      assert kept[..n] == full[..n];
    }
  }

  lemma KeptUpAt(b: seq<byte>, colon: nat, end: nat, k: nat)
    requires colon <= k < |b| < end
    ensures Kept(b, colon, end)[k + (end - |b|)] == b[k]
  {
  }

  lemma {:induction false} TailIsZero(b: seq<byte>, colon: nat, end: nat, n: nat, k: nat)
    requires colon <= |b| < end && n <= end < 16 && Kept(b, colon, end)[..n] == Full(b, colon)[..n]
    requires colon <= k < |b| + n - end
    ensures b[k] == 0
    decreases k
  {
    hide Kept, Full;
    var j := k + (end - |b|);
    KeptUpAt(b, colon, end, k);
    PrefixAt(Kept(b, colon, end), Full(b, colon), n, j);
    FullAt(b, colon, j);
    if k >= colon + (16 - end) {
      TailIsZero(b, colon, end, n, k - (16 - end));
    }
  }

  lemma {:induction false} KeptDown(b: seq<byte>, colon: nat, end: nat, n: nat)
    requires colon <= |b| <= 16 && n <= end < |b| && |b| - colon <= end
    requires Kept(b, colon, end)[..n] == Full(b, colon)[..n]
    ensures SameIn(b, end - (|b| - colon), if n < colon then n else colon, end) && NoneIn(b, colon, |b| + n - 16)
  {
    hide Source, Kept, Full;
    var m := |b| - colon;
    var kept, full := Kept(b, colon, end), Full(b, colon);
    forall j | end - m <= j < n && j < colon ensures b[j] == b[Source(j, |b|, end)] {
      PrefixAt(kept, full, n, j);
      KeptDownAt(b, colon, end, j);
      FullAt(b, colon, j);
    }
    forall k | colon <= k < |b| + n - 16 ensures b[k] == 0 {
      var j := k + (16 - |b|);
      PrefixAt(kept, full, n, j);
      KeptDownAt(b, colon, end, j);
      FullAt(b, colon, j);
    }
  }

  lemma {:induction false} DownKept(b: seq<byte>, colon: nat, end: nat, n: nat)
    requires colon <= |b| <= 16 && n <= end < |b| && |b| - colon <= end
    requires SameIn(b, end - (|b| - colon), if n < colon then n else colon, end) && NoneIn(b, colon, |b| + n - 16)
    ensures Kept(b, colon, end)[..n] == Full(b, colon)[..n]
  {
    hide Source, Kept, Full;
    var kept, full := Kept(b, colon, end), Full(b, colon);
    forall j | 0 <= j < n ensures kept[..n][j] == full[..n][j] {
      KeptDownAt(b, colon, end, j);
      FullAt(b, colon, j);
    }
  }

  lemma KeptSafe(b: seq<byte>, colon: nat, end: nat, n: nat)
    requires colon <= |b| <= 16 && n <= end <= 16 && |b| - colon <= end && |b| != end
    requires n + (|b| - colon) <= end || end == 16
    ensures Kept(b, colon, end)[..n] == Full(b, colon)[..n]
  {
    hide Source;
    if end == 16 {
      assert Kept(b, colon, end) == Full(b, colon);
    } else {
      forall j | 0 <= j < n ensures Kept(b, colon, end)[..n][j] == Full(b, colon)[..n][j] {
        assert |b| > end ==> Kept(b, colon, end)[j] == MovedAt(b, colon, |b|, end, j);
      }
    }
  }

  /** The bytes that are kept are those of the address written, cut to the prefix, exactly when nothing is out of
      place. */
  lemma {:induction false} KeptExact(b: seq<byte>, colon: nat, end: nat, n: nat)
    requires colon <= |b| <= 16 && n <= end <= 16 && |b| - colon <= end && |b| != end
    ensures Kept(b, colon, end)[..n] == Full(b, colon)[..n] <==> InPlace(b, colon, end, n)
  {
    hide Kept, Full, Source, NoneIn, SameIn;
    if end == 16 || n + (|b| - colon) <= end {
      KeptSafe(b, colon, end, n);
    } else if |b| < end {
      KeptUp(b, colon, end, n);
    } else {
      if Kept(b, colon, end)[..n] == Full(b, colon)[..n] {
        KeptDown(b, colon, end, n);
      }
      if InPlace(b, colon, end, n) {
        DownKept(b, colon, end, n);
      }
    }
  }

  /** For every text: the shift leaves its array exactly when more bytes stand behind "::" than are wanted; and what is
      kept is the address written, cut to the prefix, exactly when there is no "::" or nothing is out of place. */
  lemma {:induction false} TextExact(s: string, size: nat)
    ensures ValidScan(ScanText(s))
    ensures var r, o := ScanText(s), Finished(ScanText(s), size);
            && (o.Outside? <==> r.Scanned? && r.colon != -1 && |r.bytes| - r.colon > Wanted(r.bits, r.v4))
            && (o.Address? ==>
                  && r.Scanned? && o.bits == r.bits && (r.bits + 7) / 8 <= |Full(r.bytes, r.colon)|
                  && (o.bytes == Full(r.bytes, r.colon)[..(r.bits + 7) / 8] <==>
                        || r.colon == -1
                        || InPlace(r.bytes, r.colon, Wanted(r.bits, r.v4), (r.bits + 7) / 8)))
  {
    hide ScanText, Kept, InPlace;
    ScanTextValid(s);
    var r := ScanText(s);
    if Finished(r, size).Address? && r.colon != -1 {
      KeptExact(r.bytes, r.colon, Wanted(r.bits, r.v4), (r.bits + 7) / 8);
    }
  }

  /** How the bytes of a scan are taken: refused, outside the array, or an address; and then they are those of the
      address written, cut to the prefix, exactly when there is no "::" or nothing is out of place. */
  ghost predicate TakenAs(o: Outcome, b: seq<byte>, colon: int, bits: int, v4: bool)
    requires |b| <= 16 && -1 <= colon <= |b| && 0 <= bits <= 128
  {
    var wanted, n := Wanted(bits, v4), (bits + 7) / 8;
    && (o.NotFound? <==> (colon == -1) != (|b| == wanted))
    && (o.Outside? <==> colon != -1 && |b| - colon > wanted)
    && (o.Address? <==> (colon == -1) == (|b| == wanted) && (colon == -1 || |b| - colon <= wanted))
    && (o.Address? ==>
          && o.bits == bits && n <= |Full(b, colon)|
          && (o.bytes == Full(b, colon)[..n] <==> colon == -1 || InPlace(b, colon, wanted, n)))
  }

  lemma ScanTaken(b: seq<byte>, colon: int, bits: int, v4: bool)
    requires |b| <= 16 && -1 <= colon <= |b| && 0 <= bits <= 128
    ensures TakenAs(Finished(Scanned(b, colon, bits, v4), 16), b, colon, bits, v4)
  {
    hide Kept, Full, InPlace;
    var wanted, n := Wanted(bits, v4), (bits + 7) / 8;
    if colon == -1 {
      FullWhole(b);
    } else if |b| != wanted && |b| - colon <= wanted {
      KeptExact(b, colon, wanted, n);
    }
  }

  /** So is every text taken that is groups of digits, "::" at most once, and an ending. */
  lemma {:induction false} SpelledExact(s: string, groups: seq<string>, gap: int, end: G.Ending)
    requires G.Spells(s, groups, gap, end)
    ensures ValidScan(ScanText(s)) && 0 <= G.EndBits(end) <= 128 && -1 <= gap <= |groups|
    ensures 2 * gap <= |G.RowBytes(groups) + G.EndBytes(end)| <= 16
    ensures TakenAs(Finished(ScanText(s), 16), G.RowBytes(groups) + G.EndBytes(end), if gap == -1 then -1 else 2 * gap,
                    G.EndBits(end), end.Dots?)
  {
    hide ScanText, TakenAs, Finished, G.Form, G.Meaning, G.RowBytes, G.EndBytes, G.EndBits;
    G.SpellsMeaning(s, groups, gap, end);
    G.SpellsExact(s, G.Meaning(G.Start(s), groups, gap, end));
    ScanTaken(G.RowBytes(groups) + G.EndBytes(end), if gap == -1 then -1 else 2 * gap, G.EndBits(end), end.Dots?);
  }

  lemma FullWhole(b: seq<byte>)
    requires |b| <= 16
    ensures Full(b, -1) == b
  {
  }

  ghost predicate AllInPlace(t: nat, colon: nat, end: nat, n: nat)
    requires colon <= t <= 16 && n <= end <= 16 && t - colon <= end && t != end
  {
    forall b: seq<byte> :: |b| == t ==> Kept(b, colon, end)[..n] == Full(b, colon)[..n]
  }

  /** So are they for all bytes, exactly when none that is moved ends in the prefix or the whole address is wanted. */
  lemma {:induction false} ShapeExact(t: nat, colon: nat, end: nat, n: nat)
    requires colon <= t <= 16 && n <= end <= 16 && t - colon <= end && t != end
    ensures AllInPlace(t, colon, end, n) <==> n + (t - colon) <= end || end == 16
  {
    hide Kept, Full;
    var m := t - colon;
    if n + m <= end || end == 16 {
      forall b: seq<byte> | |b| == t ensures Kept(b, colon, end)[..n] == Full(b, colon)[..n] {
        KeptExact(b, colon, end, n);
      }
    } else {
      var at := if t < end then colon else end - m;
      var b := Zeros(t)[at := 1];
      KeptExact(b, colon, end, n);
      if t < end {
        assert b[colon] == 1;
      } else {
        assert b[Source(at, t, end)] == 0;
      }
    }
  }

  /** Without a prefix length every address that is read is the one written, whole, and the shift stays inside. */
  lemma {:induction false} PlainInPlace(s: string)
    requires '/' !in s
    ensures ValidScan(ScanText(s)) && !Finished(ScanText(s), 16).Outside?
    ensures var r, o := ScanText(s), Finished(ScanText(s), 16);
            o.Address? ==> r.Scanned? && o == Address(128, Full(r.bytes, r.colon))
  {
    hide ScanFrom, Kept;
    ScanTextValid(s);
    if s == "" || s[0] != ':' {
      NoPrefixLength(s, Part([], -1, false, 0, 0, s));
    } else if |s| >= 2 && s[1] == ':' {
      NoPrefixLength(s[1..], Part([], -1, false, 0, 0, s[1..]));
    }
    if Finished(ScanText(s), 16).Address? {
      WholeInPlace(ScanText(s));
    }
  }

  lemma WholeInPlace(r: Scan)
    requires ValidScan(r) && r.Scanned? && r.bits == 128 && Finished(r, 16).Address?
    ensures Finished(r, 16) == Address(128, Full(r.bytes, r.colon))
  {
    var full := Full(r.bytes, r.colon);
    assert full[..16] == full;
  }

  lemma {:induction false} NoPrefixLength(s: string, p: Part)
    requires ValidPart(p) && '/' !in s && '/' !in p.cur
    ensures ScanFrom(s, p).Scanned? ==> ScanFrom(s, p).bits == 128
    decreases |s|
  {
    hide ScanFrom, Run4;
    if s == "" {
      ScanEnd(p);
    } else {
      ScanStep(s, p);
      if XValue(s[0]).Some? {
        if p.digits < 4 {
          NoPrefixLength(s[1..], Shifted(p, XValue(s[0]).value));
        }
      } else if s[0] == ':' {
        if !p.saw {
          if p.colon == -1 {
            NoPrefixLength(s[1..], p.(colon := |p.bytes|, cur := s[1..]));
          }
        } else if s[1..] != "" && |p.bytes| + 2 <= 16 {
          NoPrefixLength(s[1..], Part(Flushed(p.bytes, p.val), p.colon, false, 0, 0, s[1..]));
        }
      } else if s[0] == '.' && |p.bytes| + 4 <= 16 && Run4(p.cur, [], 0, 0).Some? {
        QuadPlain(p.cur);
      }
    }
  }

  lemma {:induction false} QuadPlain(s: string)
    requires '/' !in s && Run4(s, [], 0, 0).Some?
    ensures Run4(s, [], 0, 0).value.bits.None?
  {
    hide Run4, Quad;
    var r := Run4(s, [], 0, 0).value;
    var texts := ReadIsQuad(s, [], [], "", 0);
    assert Dots([]) + "" + s == s;
    QuadSlash(s, texts, r);
  }

  lemma QuadSlash(s: string, texts: seq<string>, r: V4)
    requires Quad(s, texts, r)
    ensures r.bits.Some? ==> '/' in s
  {
    if r.bits.Some? {
      assert s[|Join(texts, '.')|] == '/';
    }
  }

  // ------------------------------------------------------------------------
  // Prefix notation
  // ------------------------------------------------------------------------

  /** Groups, "::", groups, and a prefix length. */
  function Notation(pre: seq<Word>, post: seq<Word>, bits: nat): string {
    Join(Hexes(pre), ':') + "::" + (Join(Hexes(post), ':') + ("/" + Decimal(bits)))
  }

  lemma {:induction false} NotationIsRead(pre: seq<Word>, post: seq<Word>, bits: nat)
    requires |pre| + |post| <= 8 && bits <= 128
    ensures ScanText(Notation(pre, post, bits)) == Scanned(BytesOf(pre) + BytesOf(post), 2 * |pre|, bits, false)
  {
    hide ScanFrom, ScanText, Numeral, BitsOf, Hexes, BytesOf;
    var slash := "/" + Decimal(bits);
    var rest := Join(Hexes(post), ':') + slash;
    var p := Opened(pre, rest);
    OpeningIsRead(pre, rest);
    BitsOfDecimal(bits);
    assert slash[1..] == Decimal(bits);
    if post == [] {
      NoBytes();
      assert p.bytes + [] == p.bytes && rest == slash;
      ScanStep(slash, p);
    } else {
      var cur := GroupsAreRead(post, slash, p);
      ScanStep(slash, Pending(p, post, cur));
      FlushedPending(p, post, cur);
    }
  }

  lemma NoBytes()
    ensures BytesOf([]) == [] && Join(Hexes([]), ':') == ""
  {
  }

  /** How prefix notation is taken: the text is refused when "::" has nothing to stand for among the bytes that are
      wanted; the shift leaves its array exactly when more bytes stand behind "::" than are wanted; and what is kept is
      the address cut to the prefix exactly when nothing is out of place. */
  lemma {:induction false} NotationExact(pre: seq<Word>, post: seq<Word>, bits: nat)
    requires |pre| + |post| <= 8 && bits <= 128
    ensures ValidScan(ScanText(Notation(pre, post, bits)))
    ensures var o := Finished(ScanText(Notation(pre, post, bits)), 16);
            var b, colon, end := BytesOf(pre) + BytesOf(post), 2 * |pre|, Wanted(bits, false);
            && (o.NotFound? <==> |b| == end)
            && (o.Outside? <==> 2 * |post| > end)
            && (|b| != end && 2 * |post| <= end ==>
                  && o.Address? && o.bits == bits
                  && (o.bytes == Full(b, colon)[..(bits + 7) / 8] <==> InPlace(b, colon, end, (bits + 7) / 8)))
  {
    hide Kept, Full, ScanText, InPlace, BytesOf, Numeral, Notation;
    var b, colon, end := BytesOf(pre) + BytesOf(post), 2 * |pre|, Wanted(bits, false);
    NotationIsRead(pre, post, bits);
    if |b| != end && 2 * |post| <= end {
      KeptExact(b, colon, end, (bits + 7) / 8);
    }
  }

  lemma HexThree(a: nat, b: nat, c: nat)
    requires 0 < a < 16 && b < 16 && c < 16
    ensures Hex(256 * a + 16 * b + c) == [DigitChar(a), DigitChar(b), DigitChar(c)]
  {
    hide Numeral, DigitChar;
    HexOne(a);
    NumeralMore(a, b);
    NumeralMore(16 * a + b, c);
  }

  lemma HexFour(a: nat, b: nat, c: nat, d: nat)
    requires 0 < a < 16 && b < 16 && c < 16 && d < 16
    ensures Hex(4096 * a + 256 * b + 16 * c + d) == [DigitChar(a), DigitChar(b), DigitChar(c), DigitChar(d)]
  {
    hide Numeral, DigitChar;
    HexThree(a, b, c);
    NumeralMore(256 * a + 16 * b + c, d);
  }

  lemma NumeralMore(n: nat, d: nat)
    requires n > 0 && d < 16
    ensures Hex(16 * n + d) == Hex(n) + [DigitChar(d)]
  {
    assert (16 * n + d) / 16 == n && (16 * n + d) % 16 == d;
  }

  lemma HexOne(d: nat)
    requires d < 16
    ensures Hex(d) == [DigitChar(d)]
  {
  }

  lemma JoinOne(w: Word)
    ensures Join(Hexes([w]), ':') == Hex(w) && BytesOf([w]) == [w / 256, w % 256]
  {
    hide Numeral;
    assert BytesOf([w]) == Flushed([], w) + BytesOf([w][1..]);
  }

  lemma JoinMore(w: Word, more: seq<Word>)
    requires more != []
    ensures Join(Hexes([w] + more), ':') == Hex(w) + (":" + Join(Hexes(more), ':'))
            && BytesOf([w] + more) == [w / 256, w % 256] + BytesOf(more)
  {
    hide Numeral, Hexes;
    var words := [w] + more;
    JoinCons(words);
    assert words[1..] == more;
  }

  lemma DecimalTwo(a: nat, b: nat)
    requires 0 < a < 10 && b < 10
    ensures Decimal(10 * a + b) == [DigitChar(a), DigitChar(b)]
  {
    var n := 10 * a + b;
    assert n / 10 == a && n % 10 == b;
    assert Decimal(a) == [DigitChar(a)];
    assert Decimal(n) == Decimal(n / 10) + [DigitChar(n % 10)];
  }

  lemma KeptText(pre: seq<Word>)
    requires pre == [0x2001] + ([0xdb8] + [1])
    ensures Notation(pre, [], 32) == "2001:db8:1::/32" && BytesOf(pre) + BytesOf([]) == [0x20, 0x01, 0x0d, 0xb8, 0, 1]
  {
    hide Numeral, Join, BytesOf;
    HexFour(2, 0, 0, 1);
    HexThree(0xd, 0xb, 0x8);
    HexOne(1);
    JoinOne(1);
    JoinMore(0xdb8, [1]);
    JoinMore(0x2001, [0xdb8] + [1]);
    NoBytes();
    DecimalTwo(3, 2);
  }

  /** More groups than are wanted, and nothing behind "::": the first are kept. */
  lemma PrefixKept(text: string)
    requires text == "2001:db8:1::/32"
    ensures ValidScan(ScanText(text))
    ensures Finished(ScanText(text), 16) == Address(32, [0x20, 0x01, 0x0d, 0xb8])
  {
    hide ScanText, Notation, BytesOf;
    var pre: seq<Word> := [0x2001] + ([0xdb8] + [1]);
    KeptText(pre);
    NotationIsRead(pre, [], 32);
    var b := BytesOf(pre) + BytesOf([]);
    assert Kept(b, 6, 4) == [0x20, 0x01, 0x0d, 0xb8];
  }

  lemma RefusedText(pre: seq<Word>)
    requires pre == [0x2001] + [0xdb8]
    ensures Notation(pre, [], 32) == "2001:db8::/32"
  {
    hide Numeral, Join, BytesOf;
    HexFour(2, 0, 0, 1);
    HexThree(0xd, 0xb, 0x8);
    JoinOne(0xdb8);
    JoinMore(0x2001, [0xdb8]);
    NoBytes();
    DecimalTwo(3, 2);
  }

  lemma RefusedTail(post: seq<Word>)
    requires post == [1] + [2]
    ensures Notation([], post, 32) == "::1:2/32"
  {
    hide Numeral, Join, BytesOf;
    HexOne(1);
    HexOne(2);
    JoinOne(2);
    JoinMore(1, [2]);
    NoBytes();
    DecimalTwo(3, 2);
  }

  /** Ordinary notation that is refused: among the four bytes that are wanted "::" has nothing to stand for. */
  lemma PrefixRefused(text: string)
    requires text == "2001:db8::/32" || text == "::1:2/32"
    ensures ValidScan(ScanText(text)) && Finished(ScanText(text), 16) == NotFound
  {
    hide ScanText, Notation, InPlace, Full, BytesOf, Kept;
    var two: seq<Word>, low: seq<Word> := [0x2001] + [0xdb8], [1] + [2];
    if text == "2001:db8::/32" {
      RefusedText(two);
      NotationExact(two, [], 32);
      assert |BytesOf(two) + BytesOf([])| == 4;
    } else {
      RefusedTail(low);
      NotationExact([], low, 32);
      assert |BytesOf([]) + BytesOf(low)| == 4;
    }
  }

  lemma MisplacedText(pre: seq<Word>)
    requires pre == [0xfe80] + ([1] + ([2] + [3]))
    ensures Notation(pre, [1], 48) == "fe80:1:2:3::1/48"
    ensures BytesOf(pre) + BytesOf([1]) == [0xfe, 0x80, 0, 1, 0, 2, 0, 3, 0, 1]
  {
    hide Numeral, Join, BytesOf;
    HexFour(0xf, 0xe, 8, 0);
    HexOne(1);
    HexOne(2);
    HexOne(3);
    JoinOne(1);
    JoinOne(3);
    JoinMore(2, [3]);
    JoinMore(1, [2] + [3]);
    JoinMore(0xfe80, [1] + ([2] + [3]));
    DecimalTwo(4, 8);
  }

  lemma MisplacedBytes(b: seq<byte>)
    requires b == [0xfe, 0x80, 0, 1, 0, 2, 0, 3, 0, 1]
    ensures Kept(b, 8, 6) == [0xfe, 0x80, 0, 1, 0, 1] && Full(b, 8)[..6] == [0xfe, 0x80, 0, 1, 0, 2]
  {
    KeptDownAt(b, 8, 6, 4);
    KeptDownAt(b, 8, 6, 5);
  }

  /** Ordinary notation whose address loses two of its groups: fe80:1:1 is kept for fe80:1:2:3::1 with 48 bits. */
  lemma PrefixMisplaced(text: string)
    requires text == "fe80:1:2:3::1/48"
    ensures ValidScan(ScanText(text))
    ensures Finished(ScanText(text), 16) == Address(48, [0xfe, 0x80, 0, 1, 0, 1])
    ensures Full([0xfe, 0x80, 0, 1, 0, 2, 0, 3, 0, 1], 8)[..6] == [0xfe, 0x80, 0, 1, 0, 2]
  {
    hide ScanText, Notation, BytesOf, Kept, Full;
    var pre: seq<Word> := [0xfe80] + ([1] + ([2] + [3]));
    MisplacedText(pre);
    NotationIsRead(pre, [1], 48);
    MisplacedBytes(BytesOf(pre) + BytesOf([1]));
  }

  lemma OutsideText(post: seq<Word>)
    requires post == [1] + ([2] + ([3] + ([4] + ([5] + ([6] + [7])))))
    ensures Notation([], post, 16) == "::1:2:3:4:5:6:7/16"
  {
    hide Numeral, Join, BytesOf;
    HexOne(1);
    HexOne(2);
    HexOne(3);
    HexOne(4);
    HexOne(5);
    HexOne(6);
    HexOne(7);
    JoinOne(7);
    JoinMore(6, [7]);
    JoinMore(5, [6] + [7]);
    JoinMore(4, [5] + ([6] + [7]));
    JoinMore(3, [4] + ([5] + ([6] + [7])));
    JoinMore(2, [3] + ([4] + ([5] + ([6] + [7]))));
    JoinMore(1, [2] + ([3] + ([4] + ([5] + ([6] + [7])))));
    NoBytes();
    DecimalTwo(1, 6);
  }

  /** Fourteen bytes behind "::", four of them wanted: the shift writes in front of its array. */
  lemma PrefixOutside(text: string)
    requires text == "::1:2:3:4:5:6:7/16"
    ensures ValidScan(ScanText(text))
    ensures Finished(ScanText(text), 16) == Outside
  {
    hide ScanText, Notation, InPlace, Full, BytesOf;
    var post: seq<Word> := [1] + ([2] + ([3] + ([4] + ([5] + ([6] + [7])))));
    OutsideText(post);
    NotationExact([], post, 16);
  }
}
