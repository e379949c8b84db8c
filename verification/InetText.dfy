/** Printing IPv4 and IPv6 addresses.
    Models ext/noderb_extension/libuv/src/ares/inet_ntop.c. */
module InetText {
  import opened Bytes
  import opened Options

  // ------------------------------------------------------------------------
  // Numerals
  // ------------------------------------------------------------------------

  function DigitChar(d: int): char
    requires 0 <= d < 16
  {
    "0123456789abcdef"[d]
  }

  /** The numeral that %u prints with base 10 and %lx with base 16. */
  function Numeral(n: nat, base: int): (s: string)
    requires 2 <= base <= 16
    ensures s != ""
    decreases n
  {
    if n < base then [DigitChar(n)] else Numeral(n / base, base) + [DigitChar(n % base)]
  }

  function Decimal(n: nat): string { Numeral(n, 10) }

  function Hex(n: nat): string { Numeral(n, 16) }

  /** Texts with a separator between each two. */
  function Join(texts: seq<string>, separator: char): string {
    if texts == [] then ""
    else if |texts| == 1 then texts[0]
    else texts[0] + [separator] + Join(texts[1..], separator)
  }

  function Dotted(a: seq<byte>): string {
    Join(seq(|a|, i requires 0 <= i < |a| => Decimal(a[i])), '.')
  }

  type Word = x: int | 0 <= x < 0x1_0000

  function Hexes(words: seq<Word>): seq<string> {
    seq(|words|, i requires 0 <= i < |words| => Hex(words[i]))
  }

  // ------------------------------------------------------------------------
  // The run of zeros that "::" stands for
  // ------------------------------------------------------------------------

  /** The words from `base` on, `len` of them, are zero. */
  ghost predicate ZeroRun(words: seq<Word>, base: int, len: int) {
    0 <= base && 0 <= len && base + len <= |words| && forall i :: base <= i < base + len ==> words[i] == 0
  }

  /** The run is the first of the longest, and has two words at least; `base` is -1 when there is no such run. */
  ghost predicate Chosen(words: seq<Word>, base: int, len: int) {
    if base == -1 then
      forall b, n :: ZeroRun(words, b, n) ==> n < 2
    else
      && ZeroRun(words, base, len) && len >= 2
      && forall b, n :: ZeroRun(words, b, n) ==> n <= len && (n == len ==> base <= b)
  }

  /** At most one run can be chosen. */
  lemma {:induction false} ChosenOnce(words: seq<Word>, b: int, n: int, c: int, k: int)
    requires Chosen(words, b, n) && Chosen(words, c, k)
    ensures b == c && (b != -1 ==> n == k)
  {
    if b != -1 {
      assert ZeroRun(words, b, n);
    }
    if c != -1 {
      assert ZeroRun(words, c, k);
    }
  }

  /** Every run among the first `i` words is in the one that reaches `i`, if any, which begins at `open`, or is no
      longer than the best seen before it, and no earlier when as long. */
  ghost predicate Best(words: seq<Word>, i: int, base: int, len: int, start: int) {
    && 0 <= i <= |words|
    && (base != -1 ==> ZeroRun(words, base, len) && base + len <= i && len >= 1)
    && (start == -1 ==> i == 0 || words[i - 1] != 0)
    && (start != -1 ==> ZeroRun(words, start, i - start) && base < start < i && (start == 0 || words[start - 1] != 0))
    && forall b, n :: ZeroRun(words, b, n) && b + n <= i && n >= 1 ==>
         || (start != -1 && start <= b)
         || (base != -1 && n <= len && (n == len ==> base <= b))
  }

  /** The loop that looks for the run, with what follows it. */
  method FindRun(words: seq<Word>) returns (base: int, len: int)
    ensures Chosen(words, base, len)
  {
    base, len := -1, 0;
    var curBase, curLen := -1, 0;
    var i := 0;
    while i < |words|
      invariant 0 <= i <= |words| && Best(words, i, base, len, curBase) && curBase >= -1 && base >= -1
      invariant curBase != -1 ==> curLen == i - curBase
    {
      if words[i] == 0 {
        if curBase == -1 {
          curBase, curLen := i, 1;
        } else {
          curLen := curLen + 1;
        }
      } else if curBase != -1 {
        if base == -1 || curLen > len {
          base, len := curBase, curLen;
        }
        curBase := -1;
      }
      i := i + 1;
    }
    if curBase != -1 {
      if base == -1 || curLen > len {
        base, len := curBase, curLen;
      }
    }
    if base != -1 && len < 2 {
      base := -1;
    }
  }

  // ------------------------------------------------------------------------
  // IPv4
  // ------------------------------------------------------------------------

  /** inet_ntop4: the size is checked against the text without its NUL, so the text that is accepted overruns it exactly
      when it has as many characters. */
  method Ntop4(src: seq<byte>, size: nat) returns (r: Option<string>)
    requires |src| == 4
    ensures r == if |Dotted(src)| > size then None else Some(Dotted(src))
    ensures r.Some? ==> (|r.value| + 1 <= size <==> |Dotted(src)| != size)
    ensures size < 7 ==> r.None?
    ensures size > 15 ==> r.Some? && |r.value| + 1 <= size
  {
    var tmp := Decimal(src[0]) + "." + Decimal(src[1]) + "." + Decimal(src[2]) + "." + Decimal(src[3]);
    DottedFour(src);
    DottedLength(src);
    if |tmp| > size {
      return None;
    }
    r := Some(tmp);
  }

  lemma DottedLength(a: seq<byte>)
    requires |a| == 4
    ensures 7 <= |Dotted(a)| <= 15
  {
    hide Numeral;
    DottedFour(a);
    DecimalLength(a[0]);
    DecimalLength(a[1]);
    DecimalLength(a[2]);
    DecimalLength(a[3]);
  }

  /** An address whose text has seven characters: a buffer of seven bytes is accepted, and eight are written. */
  lemma Ntop4Overruns(src: seq<byte>)
    requires src == [1, 2, 3, 4]
    ensures Dotted(src) == "1.2.3.4" && |Dotted(src)| == 7
  {
    DottedFour(src);
  }

  lemma DottedFour(a: seq<byte>)
    requires |a| == 4
    ensures Dotted(a) == Decimal(a[0]) + "." + Decimal(a[1]) + "." + Decimal(a[2]) + "." + Decimal(a[3])
  {
    var t := seq(|a|, i requires 0 <= i < |a| => Decimal(a[i]));
    hide Numeral;
    assert t == [Decimal(a[0]), Decimal(a[1]), Decimal(a[2]), Decimal(a[3])];
    assert Join(t[3..], '.') == t[3];
    assert Join(t[2..], '.') == t[2] + "." + t[3] by { assert t[2..][1..] == t[3..]; }
    assert Join(t[1..], '.') == t[1] + "." + Join(t[2..], '.') by { assert t[1..][1..] == t[2..]; }
    assert Join(t, '.') == t[0] + "." + Join(t[1..], '.');
  }

  // ------------------------------------------------------------------------
  // IPv6
  // ------------------------------------------------------------------------

  function WordAt(a: seq<byte>, i: int): Word
    requires 0 <= 2 * i && 2 * i + 1 < |a|
  {
    256 * (a[2 * i] as int) + a[2 * i + 1] as int
  }

  /** The words of an address, high byte first. */
  function WordsOf(a: seq<byte>): (words: seq<Word>)
    requires |a| % 2 == 0
    ensures |words| == |a| / 2
  {
    seq(|a| / 2, i requires 0 <= i < |a| / 2 => WordAt(a, i))
  }

  /** The address ends in an IPv4 address. */
  predicate Embedded(words: seq<Word>, base: int, len: int)
    requires |words| == 8
  {
    base == 0 && (len == 6 || (len == 5 && words[5] == 0xffff))
  }

  /** The text of an address in which the words from `base` on, `len` of them, are abbreviated. */
  function Text(a: seq<byte>, base: int, len: int): string
    requires |a| == 16 && -1 <= base && (base != -1 ==> 0 <= len && base + len <= 8)
  {
    var words := WordsOf(a);
    if base == -1 then Join(Hexes(words), ':')
    else Join(Hexes(words[..base]), ':') + "::" + Join(Tail(a, base, len), ':')
  }

  /** What follows the abbreviated words. */
  function Tail(a: seq<byte>, base: int, len: int): seq<string>
    requires |a| == 16 && 0 <= base && 0 <= len && base + len <= 8
  {
    var words := WordsOf(a);
    if Embedded(words, base, len) then Hexes(words[len..6]) + [Dotted(a[12..])]
    else Hexes(words[base + len..])
  }

  /** What is printed before word `i`. */
  function Printed(words: seq<Word>, base: int, len: int, i: int): string
    requires 0 <= i <= |words| && -1 <= base && (base != -1 ==> 0 <= len && base + len <= |words|)
  {
    if base == -1 || i <= base then Join(Hexes(words[..i]), ':')
    else if i <= base + len then Join(Hexes(words[..base]), ':') + ":"
    else Join(Hexes(words[..base]), ':') + "::" + Join(Hexes(words[base + len..i]), ':')
  }

  lemma {:induction false} JoinSnoc(ts: seq<string>, t: string, c: char)
    ensures Join(ts + [t], c) == Join(ts, c) + (if ts == [] then "" else [c]) + t
  {
    if |ts| == 1 {
      assert (ts + [t])[1..] == [t];
    } else if |ts| > 1 {
      JoinSnoc(ts[1..], t, c);
      assert (ts + [t])[1..] == ts[1..] + [t];
    }
  }

  lemma HexesSnoc(words: seq<Word>, j: int, i: int)
    requires 0 <= j <= i < |words|
    ensures Hexes(words[j..i + 1]) == Hexes(words[j..i]) + [Hex(words[i])] && |Hexes(words[j..i])| == i - j
  {
  }

  /** A word outside the run. */
  lemma {:induction false} PrintedWord(words: seq<Word>, base: int, len: int, i: int, t: string)
    requires 0 <= i < |words| && -1 <= base && (base != -1 ==> 2 <= len && base + len <= |words|)
    requires base == -1 || i < base || base + len <= i
    ensures Printed(words, base, len, i) + (if i != 0 then ":" else "") + t
            == if base == -1 || i < base then Join(Hexes(words[..i]) + [t], ':')
               else Join(Hexes(words[..base]), ':') + "::" + Join(Hexes(words[base + len..i]) + [t], ':')
  {
    hide Hexes;
    var j := if base == -1 || i < base then 0 else base + len;
    HexesSnoc(words, j, i);
    JoinSnoc(Hexes(words[j..i]), t, ':');
    assert words[..i] == words[0..i];
    if i == j {
      assert Hexes(words[j..i]) == [];
    }
  }

  method Words(src: seq<byte>) returns (words: seq<Word>)
    requires |src| == 16
    ensures words == WordsOf(src)
  {
    var w := new Word[8](_ => 0);
    for i := 0 to 16
      invariant forall j :: 0 <= j < 8 ==>
        w[j] == if 2 * j + 1 < i then WordAt(src, j) else if 2 * j < i then 256 * (src[2 * j] as int) else 0
    {
      var x: int := src[i];
      w[i / 2] := w[i / 2] + if i % 2 == 0 then 256 * x else x;
    }
    assert forall j :: 0 <= j < 8 ==> w[j] == WordAt(src, j);
    words := w[..];
  }

  /** inet_ntop6: an address with its first longest run of zero words abbreviated. */
  method Ntop6(src: seq<byte>, size: nat) returns (r: Option<string>, ghost base: int, ghost len: int)
    requires |src| == 16
    ensures Chosen(WordsOf(src), base, len) && -1 <= base && (base != -1 ==> 0 <= len && base + len <= 8)
    ensures r == if |Text(src, base, len)| + 1 > size then None else Some(Text(src, base, len))
  {
    hide Hexes, Join, Chosen, ZeroRun, Dotted;
    var words := Words(src);
    var b, n := FindRun(words);
    ChosenBounds(words, b, n);
    base, len := b, n;
    var tmp := "";
    var i := 0;
    HexesNone(words);
    while i < 8
      invariant 0 <= i <= 8 && tmp == Printed(words, b, n, i) && (Embedded(words, b, n) ==> i <= 6)
    {
      if b != -1 && i >= b && i < b + n {
        if i == b {
          tmp := tmp + ":";
        }
        i := i + 1;
        continue;
      }
      if i != 0 {
        tmp := tmp + ":";
      }
      if i == 6 && b == 0 && (n == 6 || (n == 5 && words[5] == 0xffff)) {
        PrintedWord(words, b, n, i, Dotted(src[12..]));
        EmbeddedFits(words, n, src[12..]);
        var d := Ntop4(src[12..], 46 - |tmp|);
        tmp := tmp + d.value;
        assert tmp == Join(Hexes(words[..0]), ':') + "::" + Join(Hexes(words[n..6]) + [Dotted(src[12..])], ':');
        break;
      }
      PrintedWord(words, b, n, i, Hex(words[i]));
      HexesSnoc(words, if b == -1 || i < b then 0 else b + n, i);
      tmp := tmp + Hex(words[i]);
      i := i + 1;
    }
    TextDone(src, b, n);
    if b != -1 && b + n == 8 {
      tmp := tmp + ":";
    }
    assert tmp == Text(src, b, n);
    if |tmp| + 1 > size {
      return None, b, n;
    }
    r := Some(tmp);
  }

  /** The whole address printed word by word. */
  lemma {:induction false} TextDone(a: seq<byte>, base: int, len: int)
    requires |a| == 16 && -1 <= base && (base != -1 ==> 2 <= len && base + len <= 8)
    ensures var words := WordsOf(a);
            !Embedded(words, base, len) ==>
                Printed(words, base, len, 8) + (if base != -1 && base + len == 8 then ":" else "") == Text(a, base, len)
    ensures var words := WordsOf(a);
            Embedded(words, base, len) ==>
                Join(Hexes(words[..0]), ':') + "::" + Join(Hexes(words[len..6]) + [Dotted(a[12..])], ':')
                == Text(a, base, len)
  {
    hide Dotted, WordAt, Hexes;
    var words := WordsOf(a);
    assert words[..8] == words;
    if base != -1 && base + len == 8 {
      assert Hexes(words[8..]) == [] by { HexesEmpty(words[8..]); }
    } else if base != -1 {
      assert words[base + len..8] == words[base + len..];
    }
  }

  lemma HexesEmpty(words: seq<Word>)
    requires words == []
    ensures Hexes(words) == []
  {
  }

  lemma DecimalLength(n: byte)
    ensures 1 <= |Decimal(n)| <= 3
  {
    assert n >= 10 ==> |Numeral(n, 10)| == |Numeral(n / 10, 10)| + 1;
    assert n >= 100 ==> |Numeral(n / 10, 10)| == |Numeral(n / 100, 10)| + 1 by { assert n / 10 / 10 == n / 100; }
  }

  lemma EmbeddedFits(words: seq<Word>, len: int, a: seq<byte>)
    requires |words| == 8 && |a| == 4 && Embedded(words, 0, len)
    ensures |Printed(words, 0, len, 6)| <= 6 && |Dotted(a)| <= 15
  {
    DottedLength(a);
    if len == 5 {
      assert Hexes(words[5..6]) == [Hex(0xffff)];
    }
  }

  lemma HexesNone(words: seq<Word>)
    ensures Join(Hexes(words[..0]), ':') == ""
  {
  }

  lemma ChosenBounds(words: seq<Word>, base: int, len: int)
    requires Chosen(words, base, len)
    ensures base >= -1 && (base != -1 ==> len >= 2 && base + len <= |words|)
  {
    if base != -1 {
      assert ZeroRun(words, base, len);
    }
  }

  // ------------------------------------------------------------------------
  // Which addresses are printed with an IPv4 address at the end
  // ------------------------------------------------------------------------

  predicate StartsWithZeros(a: seq<byte>, count: nat)
    requires count <= |a|
  {
    forall i :: 0 <= i < count ==> a[i] == 0
  }

  lemma {:induction false} NumeralHasNo(n: nat, base: int, c: char)
    requires 2 <= base <= 16 && c !in "0123456789abcdef"
    ensures c !in Numeral(n, base)
    decreases n
  {
    if n >= base {
      NumeralHasNo(n / base, base, c);
    }
  }

  lemma {:induction false} JoinHasNo(texts: seq<string>, separator: char, c: char)
    requires c != separator && forall t :: t in texts ==> c !in t
    ensures c !in Join(texts, separator)
  {
    if |texts| > 1 {
      JoinHasNo(texts[1..], separator, c);
    }
  }

  lemma HexesHaveNoDot(words: seq<Word>)
    ensures '.' !in Join(Hexes(words), ':')
  {
    forall t | t in Hexes(words) ensures '.' !in t {
      var i :| 0 <= i < |words| && t == Hex(words[i]);
      NumeralHasNo(words[i], 16, '.');
    }
    JoinHasNo(Hexes(words), ':', '.');
  }

  lemma ZeroWords(a: seq<byte>, count: nat)
    requires |a| == 16 && count <= 8
    ensures ZeroRun(WordsOf(a), 0, count) <==> StartsWithZeros(a, 2 * count)
  {
    var words := WordsOf(a);
    if ZeroRun(words, 0, count) {
      forall i | 0 <= i < 2 * count ensures a[i] == 0 {
        assert words[i / 2] == WordAt(a, i / 2);
      }
    }
  }

  /** A run from the start, with a word behind it that is not zero, is the chosen one if the other words are fewer. */
  lemma {:induction false} FirstIsChosen(words: seq<Word>, base: int, len: int, n: int)
    requires |words| == 8 && Chosen(words, base, len) && 5 <= n < 8 && ZeroRun(words, 0, n) && words[n] != 0
    ensures base == 0 && len == n
  {
    forall b, k | ZeroRun(words, b, k) ensures k <= n {
      assert !(b <= n < b + k);
    }
    ChosenOnce(words, base, len, 0, n);
  }

  lemma {:induction false} EmbeddedExact(a: seq<byte>, base: int, len: int)
    requires |a| == 16 && Chosen(WordsOf(a), base, len)
    ensures Embedded(WordsOf(a), base, len) <==>
            || (StartsWithZeros(a, 12) && (a[12] != 0 || a[13] != 0))
            || (StartsWithZeros(a, 10) && a[10] == 255 == a[11])
    ensures Embedded(WordsOf(a), base, len) ==> (len == 6 <==> StartsWithZeros(a, 12))
  {
    var words := WordsOf(a);
    ZeroWords(a, 5);
    ZeroWords(a, 6);
    ZeroWords(a, 7);
    assert words[5] == WordAt(a, 5) && words[6] == WordAt(a, 6);
    if StartsWithZeros(a, 12) && words[6] != 0 {
      FirstIsChosen(words, base, len, 6);
    }
    if StartsWithZeros(a, 10) && words[5] != 0 {
      FirstIsChosen(words, base, len, 5);
    }
    assert StartsWithZeros(a, 14) <==> StartsWithZeros(a, 12) && a[12] == 0 == a[13];
  }

  /** The last four bytes are printed as an IPv4 address exactly if the first twelve are zero and the two after them are
      not both zero, or the first ten are zero and the two after them are 255. */
  lemma {:induction false} EndsInDots(a: seq<byte>, base: int, len: int)
    requires |a| == 16 && Chosen(WordsOf(a), base, len)
    ensures -1 <= base && (base != -1 ==> 0 <= len && base + len <= 8)
    ensures StartsWithZeros(a, 12) && (a[12] != 0 || a[13] != 0) ==> Text(a, base, len) == "::" + Dotted(a[12..])
    ensures StartsWithZeros(a, 10) && a[10] == 255 == a[11] ==> Text(a, base, len) == "::ffff:" + Dotted(a[12..])
    ensures '.' in Text(a, base, len) <==>
            || (StartsWithZeros(a, 12) && (a[12] != 0 || a[13] != 0))
            || (StartsWithZeros(a, 10) && a[10] == 255 == a[11])
  {
    hide Chosen, Embedded, Text, WordsOf, Dotted;
    ChosenBounds(WordsOf(a), base, len);
    WordsLength(a);
    EmbeddedExact(a, base, len);
    if Embedded(WordsOf(a), base, len) {
      EmbeddedIs(WordsOf(a), base, len);
      if len == 6 {
        EmbeddedSix(a);
      } else {
        EmbeddedFive(a);
      }
      StillDotted(Text(a, base, len), Dotted(a[12..]));
    } else {
      NoDots(a, base, len);
    }
  }

  lemma WordsLength(a: seq<byte>)
    requires |a| == 16
    ensures |WordsOf(a)| == 8
  {
  }

  lemma EmbeddedIs(words: seq<Word>, base: int, len: int)
    requires |words| == 8 && Embedded(words, base, len)
    ensures base == 0 && (len == 6 || (len == 5 && words[5] == 0xffff))
  {
  }

  lemma StillDotted(text: string, dots: string)
    requires '.' in dots && (text == "::" + dots || text == "::ffff:" + dots)
    ensures '.' in text
  {
  }

  lemma {:induction false} NoDots(a: seq<byte>, base: int, len: int)
    requires |a| == 16 && -1 <= base && (base != -1 ==> 0 <= len && base + len <= 8)
    requires !Embedded(WordsOf(a), base, len)
    ensures '.' !in Text(a, base, len)
  {
    hide Hexes, Join, Embedded, Dotted;
    var words := WordsOf(a);
    if base == -1 {
      HexesHaveNoDot(words);
    } else {
      HexesHaveNoDot(words[..base]);
      HexesHaveNoDot(words[base + len..]);
    }
  }

  lemma EmbeddedSix(a: seq<byte>)
    requires |a| == 16 && Embedded(WordsOf(a), 0, 6)
    ensures Text(a, 0, 6) == "::" + Dotted(a[12..]) && '.' in Dotted(a[12..])
  {
    hide Numeral, Dotted, Hexes;
    HasDots(a[12..]);
    var words := WordsOf(a);
    HexesEmpty(words[..0]);
    HexesEmpty(words[6..6]);
    assert Hexes(words[6..6]) + [Dotted(a[12..])] == [Dotted(a[12..])];
  }

  lemma HasDots(a: seq<byte>)
    requires |a| == 4
    ensures '.' in Dotted(a)
  {
    hide Dotted, Numeral;
    DottedFour(a);
    assert (Decimal(a[0]) + ".")[|Decimal(a[0])|] == '.';
  }

  lemma HexesOne(w: Word)
    ensures Hexes([w]) == [Hex(w)]
  {
    hide Numeral;
  }

  lemma EmbeddedFive(a: seq<byte>)
    requires |a| == 16 && Embedded(WordsOf(a), 0, 5)
    ensures Text(a, 0, 5) == "::ffff:" + Dotted(a[12..]) && '.' in Dotted(a[12..])
  {
    hide Numeral, Dotted, Hexes;
    HasDots(a[12..]);
    HexFfff();
    var words := WordsOf(a);
    HexesEmpty(words[..0]);
    assert words[5..6] == [0xffff];
    HexesOne(0xffff);
    var t := ["ffff"] + [Dotted(a[12..])];
    assert t[1..] == [Dotted(a[12..])];
    assert Tail(a, 0, 5) == t;
    assert Join(t, ':') == "ffff:" + Dotted(a[12..]);
    assert Join([], ':') == "";
  }

  lemma HexFfff()
    ensures Hex(0xffff) == "ffff"
  {
    assert Hex(0xf) == "f" && Hex(0xff) == Hex(0xf) + "f";
    assert Hex(0xfff) == Hex(0xff) + "f" && Hex(0xffff) == Hex(0xfff) + "f";
  }
}
