/** Reading IPv6 addresses.
    Models inet_net_pton_ipv6 of ext/noderb_extension/libuv/src/ares/inet_net_pton.c. */
module InetParse6 {
  import opened Bytes
  import opened Options
  import opened InetText
  import opened InetParse

  /** What has been read: whole bytes, the place of "::" among them or -1, and the current group. */
  datatype Part = Part(bytes: seq<byte>, colon: int, saw: bool, val: int, digits: int, cur: string)

  /** How the scan ends; `Overfull` is the case of a ninth group, in which the function returns 0. */
  datatype Scan = Bad | Overfull | Scanned(bytes: seq<byte>, colon: int, bits: int, v4: bool)

  /** `Outside`: the shift would write in front of its array, which C leaves undefined. */
  datatype Outcome = NotFound | TooLong | Zero | Outside | Address(bits: int, bytes: seq<byte>)

  predicate ValidPart(p: Part) {
    |p.bytes| <= 16 && -1 <= p.colon <= |p.bytes| && 0 <= p.digits <= 4 && 0 <= p.val < 0x1_0000
    && (p.digits <= 3 ==> p.val < 0x1000) && (p.digits <= 2 ==> p.val < 0x100) && (p.digits <= 1 ==> p.val < 0x10)
        && (p.digits == 0 ==> p.val == 0)
  }

  function Flushed(bytes: seq<byte>, val: int): (r: seq<byte>)
    requires 0 <= val < 0x1_0000
  {
    bytes + [val / 256, val % 256]
  }

  function Stopped(p: Part, bits: int): Scan
    requires ValidPart(p)
  {
    if !p.saw then Scanned(p.bytes, p.colon, bits, false)
    else if |p.bytes| + 2 > 16 then Bad
    else Scanned(Flushed(p.bytes, p.val), p.colon, bits, false)
  }

  function Shifted(p: Part, d: int): Part {
    p.(val := 16 * p.val + d, digits := p.digits + 1, saw := true)
  }

  /** Reading goes on at `s`. */
  ghost function ScanFrom(s: string, p: Part): Scan
    requires ValidPart(p)
    decreases |s|
  {
    if s == "" then Stopped(p, 128)
    else if XValue(s[0]).Some? then
      if p.digits == 4 then Bad else ScanFrom(s[1..], Shifted(p, XValue(s[0]).value))
    else if s[0] == ':' then
      if !p.saw then
        if p.colon != -1 then Bad else ScanFrom(s[1..], p.(colon := |p.bytes|, cur := s[1..]))
      else if s[1..] == "" then Bad
      else if |p.bytes| + 2 > 16 then Overfull
      else ScanFrom(s[1..], Part(Flushed(p.bytes, p.val), p.colon, false, 0, 0, s[1..]))
    else if s[0] == '.' then
      if |p.bytes| + 4 > 16 then Bad
      else match Run4(p.cur, [], 0, 0)
        case None => Bad
        case Some(q) =>
          Scanned(p.bytes + q.octets + Zeros(4 - |q.octets|), p.colon, if q.bits.Some? then q.bits.value else 128, true)
    else if s[0] == '/' && BitsOf(s[1..]).Some? then Stopped(p, BitsOf(s[1..]).value)
    else Bad
  }

  /** A leading "::" is entered at its second colon. */
  ghost function ScanText(s: string): Scan {
    if s != "" && s[0] == ':' then
      if |s| < 2 || s[1] != ':' then Bad else ScanFrom(s[1..], Part([], -1, false, 0, 0, s[1..]))
    else ScanFrom(s, Part([], -1, false, 0, 0, s))
  }

  /** The number of bytes that an address of so many bits must have. */
  function Wanted(bits: int, v4: bool): int {
    if v4 then 16 else if (bits + 15) / 16 < 2 then 4 else 2 * ((bits + 15) / 16)
  }

  function Cut(full: seq<byte>, bits: int, size: nat): Outcome
    requires 0 <= (bits + 7) / 8 <= |full|
  {
    if (bits + 7) / 8 > size then TooLong else Address(bits, full[..(bits + 7) / 8])
  }

  predicate ValidScan(r: Scan) {
    r.Scanned? ==> |r.bytes| <= 16 && -1 <= r.colon <= |r.bytes| && 0 <= r.bits <= 128
  }

  /** Where the byte that a downward shift by `tp - end` leaves at `j` was: the last `tp - end` bytes come again and
      again. */
  function Source(j: int, tp: int, end: int): (k: int)
    requires end < tp && j < tp
    ensures end <= k < tp && k >= j
    decreases tp - j
  {
    if j >= end then j else Source(j + (tp - end), tp, end)
  }

  /** The byte at `j` after the shift. Upwards, the bytes from `colon` to `tp` end up before `end`, with zeros where
      they were. Downwards, a byte that is overwritten before it is moved is lost. */
  function MovedAt(s: seq<byte>, colon: nat, tp: nat, end: nat, j: nat): byte
    requires colon <= tp <= |s| && tp - colon <= end <= |s| && tp != end && j < |s|
  {
    if tp < end then
      if j < colon || end <= j then s[j]
      else if j < end - (tp - colon) then 0
      else s[j - (end - tp)]
    else if end - (tp - colon) <= j < end && j < colon then s[Source(j, tp, end)]
    else if colon <= j < tp then 0
    else s[j]
  }

  /** What stands in the first `end` bytes when those behind "::" have been moved to end there. */
  function Kept(b: seq<byte>, colon: nat, end: nat): (r: seq<byte>)
    requires colon <= |b| != end && |b| - colon <= end
    ensures |r| == end
  {
    if |b| < end then b[..colon] + Zeros(end - |b|) + b[colon..]
    else seq(end, j requires 0 <= j < end => MovedAt(b, colon, |b|, end, j))
  }

  /** The bytes behind "::" go to the end of what is wanted. */
  function Finished(r: Scan, size: nat): Outcome
    requires ValidScan(r)
  {
    match r
    case Bad => NotFound
    case Overfull => Zero
    case Scanned(b, c, bits, v4) =>
      var end := Wanted(bits, v4);
      if (c == -1) != (|b| == end) then NotFound
      else if c == -1 then Cut(b, bits, size)
      else if |b| - c > end then Outside
      else Cut(Kept(b, c, end), bits, size)
  }

  lemma {:induction false} ScanFromValid(s: string, p: Part)
    requires ValidPart(p)
    ensures ValidScan(ScanFrom(s, p))
    decreases |s|
  {
    if s == "" {
    } else if XValue(s[0]).Some? {
      if p.digits != 4 {
        ScanFromValid(s[1..], Shifted(p, XValue(s[0]).value));
      }
    } else if s[0] == ':' {
      if !p.saw {
        if p.colon == -1 {
          ScanFromValid(s[1..], p.(colon := |p.bytes|, cur := s[1..]));
        }
      } else if s[1..] != "" && |p.bytes| + 2 <= 16 {
        ScanFromValid(s[1..], Part(Flushed(p.bytes, p.val), p.colon, false, 0, 0, s[1..]));
      }
    }
  }

  lemma ScanTextValid(s: string)
    ensures ValidScan(ScanText(s))
  {
    hide ScanFrom;
    if s == "" || s[0] != ':' {
      ScanFromValid(s, Part([], -1, false, 0, 0, s));
    } else if |s| >= 2 && s[1] == ':' {
      ScanFromValid(s[1..], Part([], -1, false, 0, 0, s[1..]));
    }
  }

  // ------------------------------------------------------------------------
  // The shift by hand
  // ------------------------------------------------------------------------

  /** The array after the first `i` bytes from the top have been moved one by one. */
  function Moves(s: seq<byte>, tp: nat, end: nat, i: nat): (r: seq<byte>)
    requires i <= tp <= |s| && i <= end <= |s|
    ensures |r| == |s|
  {
    if i == 0 then s
    else
      var r := Moves(s, tp, end, i - 1);
      r[end - i := r[tp - i]][tp - i := 0]
  }

  /** Round `i` of the shift reads and writes inside its array of 16 bytes. */
  predicate InArray(tp: nat, end: nat, i: nat) {
    0 <= end - i < 16 && 0 <= tp - i < 16
  }

  /** Every access of the shift is inside exactly when no more bytes are moved than are wanted. */
  lemma ShiftInside(colon: nat, tp: nat, end: nat)
    requires colon <= tp <= 16 && end <= 16
    ensures (forall i: nat :: 1 <= i <= tp - colon ==> InArray(tp, end, i)) <==> tp - colon <= end
  {
    if tp - colon > end {
      assert !InArray(tp, end, end + 1);
    }
  }

  /** Upwards: what is moved is read before it is written over. */
  lemma {:induction false} MovesUp(s: seq<byte>, tp: nat, end: nat, i: nat, j: nat)
    requires i <= tp < end <= |s| && j < |s| && forall k :: tp <= k < end ==> s[k] == 0
    ensures Moves(s, tp, end, i)[j]
            == if end - i <= j < end then s[j - (end - tp)] else if tp - i <= j < end then 0 else s[j]
    decreases i
  {
    if i == 0 {
    } else {
      MovesUp(s, tp, end, i - 1, j);
      MovesUp(s, tp, end, i - 1, tp - i);
    }
  }

  /** Downwards: a byte written over before its turn is moved in place of the one that was there. */
  lemma {:induction false} MovesDown(s: seq<byte>, tp: nat, end: nat, i: nat, j: nat)
    requires i <= end < tp <= |s| && j < |s|
    ensures Moves(s, tp, end, i)[j]
            == if tp - i <= j < tp then 0 else if end - i <= j < end then s[Source(j, tp, end)] else s[j]
    decreases i
  {
    if i == 0 {
    } else {
      MovesDown(s, tp, end, i - 1, j);
      MovesDown(s, tp, end, i - 1, tp - i);
      assert Source(end - i, tp, end) == Source(tp - i, tp, end);
    }
  }

  /** The shift by hand: the bytes from "::" on go to the end of what is wanted. */
  method Shift(tmp: array<byte>, colon: nat, tp: nat, end: nat)
    requires colon <= tp <= tmp.Length && tp - colon <= end <= tmp.Length && tp != end
    requires forall j :: tp <= j < end ==> tmp[j] == 0
    modifies tmp
    ensures forall j :: 0 <= j < tmp.Length ==> tmp[j] == MovedAt(old(tmp[..]), colon, tp, end, j)
  {
    hide Source, MovedAt;
    ghost var was := tmp[..];
    var n := tp - colon;
    for i := 1 to n + 1
      invariant tmp[..] == Moves(was, tp, end, i - 1)
    {
      tmp[end - i] := tmp[colon + n - i];
      tmp[colon + n - i] := 0;
    }
    forall j | 0 <= j < tmp.Length ensures tmp[j] == MovedAt(was, colon, tp, end, j) {
      assert tmp[j] == Moves(was, tp, end, n)[j];
      MovesAreMoved(was, colon, tp, end, j);
    }
  }

  lemma {:induction false} MovesAreMoved(s: seq<byte>, colon: nat, tp: nat, end: nat, j: nat)
    requires colon <= tp <= |s| && tp - colon <= end <= |s| && tp != end && j < |s|
    requires forall k :: tp <= k < end ==> s[k] == 0
    ensures Moves(s, tp, end, tp - colon)[j] == MovedAt(s, colon, tp, end, j)
  {
    hide Moves;
    if tp < end {
      MovesUp(s, tp, end, tp - colon, j);
    } else {
      MovesDown(s, tp, end, tp - colon, j);
    }
  }

  /** One character of the scan. */
  lemma ScanStep(s: string, p: Part)
    requires ValidPart(p) && s != ""
    ensures var c, rest := s[0], s[1..];
            ScanFrom(s, p) ==
            if XValue(c).Some? then
              if p.digits == 4 then Bad else ScanFrom(rest, Shifted(p, XValue(c).value))
            else if c == ':' then
              if !p.saw then
                if p.colon != -1 then Bad else ScanFrom(rest, p.(colon := |p.bytes|, cur := rest))
              else if rest == "" then Bad
              else if |p.bytes| + 2 > 16 then Overfull
              else ScanFrom(rest, Part(Flushed(p.bytes, p.val), p.colon, false, 0, 0, rest))
            else if c == '.' then
              if |p.bytes| + 4 > 16 || Run4(p.cur, [], 0, 0).None? then Bad
              else
                var q := Run4(p.cur, [], 0, 0).value;
                Scanned(p.bytes + q.octets + Zeros(4 - |q.octets|), p.colon,
                        if q.bits.Some? then q.bits.value else 128, true)
            else if c == '/' && BitsOf(rest).Some? then Stopped(p, BitsOf(rest).value)
            else Bad
  {
  }

  /** The array holds the bytes read, and zeros after them. */
  ghost predicate Filled(tmp: array<byte>, bytes: seq<byte>)
    reads tmp
  {
    tmp.Length == 16 && |bytes| <= 16 && tmp[..|bytes|] == bytes && forall j :: |bytes| <= j < 16 ==> tmp[j] == 0
  }

  method Flush(tmp: array<byte>, tp: nat, val: int, ghost bytes: seq<byte>)
    requires Filled(tmp, bytes) && tp == |bytes| && tp + 2 <= 16 && 0 <= val < 0x1_0000
    modifies tmp
    ensures Filled(tmp, Flushed(bytes, val))
  {
    tmp[tp] := val / 256 % 256;
    tmp[tp + 1] := val % 256;
    assert tmp[..tp + 2] == tmp[..tp] + [tmp[tp], tmp[tp + 1]];
  }

  /** Which parts follow a valid one. */
  lemma PartKeeps(p: Part, c: char, cur: string)
    requires ValidPart(p) || (p.bytes == [] && p.colon == -1 && !p.saw && p.val == 0 && p.digits == 0)
    ensures ValidPart(p) && |p.bytes| <= 16 && -1 <= p.colon <= |p.bytes| && 0 <= p.digits <= 4 && 0 <= p.val < 0x1_0000
    ensures p.digits < 4 && XValue(c).Some? ==> ValidPart(Shifted(p, XValue(c).value))
    ensures ValidPart(p.(colon := |p.bytes|, cur := cur))
    ensures |p.bytes| + 2 <= 16 ==> ValidPart(Part(Flushed(p.bytes, p.val), p.colon, false, 0, 0, cur))
  {
  }

  /** The loop over the characters; the bytes go to `tmp`, zeroed before. */
  method ScanInto(src: string, tmp: array<byte>) returns (r: Scan)
    requires tmp.Length == 16 && Filled(tmp, [])
    modifies tmp
    ensures r == ScanText(src) && (r.Scanned? ==> Filled(tmp, r.bytes))
  {
    hide Run4, BitsOf, Filled, ScanFrom, ValidPart, XValue;
    var i := 0;
    if src != "" && src[0] == ':' {
      i := 1;
      if |src| < 2 || src[1] != ':' {
        return Bad;
      }
    }
    var cur, saw, val, digits, colon, tp := i, false, 0, 0, -1, 0;
    ghost var p := Part([], -1, false, 0, 0, src[i..]);
    assert src[0..] == src;
    PartKeeps(p, ' ', src);
    assert p.bytes == [] && tmp.Length == 16 && Filled(tmp, []);
    while i < |src|
      invariant 0 <= cur <= i <= |src| && tp == |p.bytes| && tmp.Length == 16 && Filled(tmp, p.bytes) && ValidPart(p)
      invariant p.colon == colon && p.saw == saw && p.val == val && p.digits == digits && p.cur == src[cur..]
      invariant ScanText(src) == ScanFrom(src[i..], p)
    {
      var ch := src[i];
      PartKeeps(p, ch, src[i + 1..]);
      ScanStep(src[i..], p);
      assert src[i..][1..] == src[i + 1..];
      i := i + 1;
      var x := XValue(ch);
      if x.Some? {
        val := 16 * val + x.value;
        digits := digits + 1;
        if digits > 4 {
          return Bad;
        }
        saw := true;
        p := Shifted(p, x.value);
        continue;
      }
      if ch == ':' {
        cur := i;
        if !saw {
          if colon != -1 {
            return Bad;
          }
          colon := tp;
          p := p.(colon := tp, cur := src[i..]);
          continue;
        } else if i == |src| {
          return Bad;
        }
        if tp + 2 > 16 {
          return Overfull;
        }
        Flush(tmp, tp, val, p.bytes);
        p := Part(Flushed(p.bytes, p.val), colon, false, 0, 0, src[i..]);
        tp, saw, digits, val := tp + 2, false, 0, 0;
        continue;
      }
      if ch == '.' && tp + 4 <= 16 {
        r := TakeQuad(src[cur..], tmp, tp, colon, p);
        return;
      }
      if ch == '/' {
        var bits := GetBits(src[i..]);
        GetBitsIsBitsOf(src[i..], bits);
        if bits.Some? {
          r := Finish(tmp, tp, colon, saw, val, bits.value, p);
          return;
        }
      }
      return Bad;
    }
    assert src[i..] == "";
    ScanEnd(p);
    r := Finish(tmp, tp, colon, saw, val, 128, p);
  }

  /** A dotted quad ends the text, or the text is bad. */
  method TakeQuad(cur: string, tmp: array<byte>, tp: nat, colon: int, ghost p: Part) returns (r: Scan)
    requires ValidPart(p) && Filled(tmp, p.bytes) && tp == |p.bytes| && tp + 4 <= 16 && colon == p.colon && cur == p.cur
    modifies tmp
    ensures r == match Run4(cur, [], 0, 0)
                 case None => Bad
                 case Some(q) =>
                   Scanned(p.bytes + q.octets + Zeros(4 - |q.octets|), colon,
                           if q.bits.Some? then q.bits.value else 128, true)
    ensures r.Scanned? ==> Filled(tmp, r.bytes)
  {
    hide Run4;
    var n4, bits, ok := GetV4(cur, tmp, tp);
    if !ok {
      return Bad;
    }
    r := Scanned(tmp[..tp + 4], colon, if bits.Some? then bits.value else 128, true);
  }

  lemma ScanEnd(p: Part)
    requires ValidPart(p)
    ensures ScanFrom("", p) == Stopped(p, 128)
  {
  }

  /** The group that is still open at the end. */
  method Finish(tmp: array<byte>, tp: nat, colon: int, saw: bool, val: int, bits: int, ghost p: Part) returns (r: Scan)
    requires ValidPart(p) && Filled(tmp, p.bytes) && tp == |p.bytes| && colon == p.colon && saw == p.saw && val == p.val
    modifies tmp
    ensures r == Stopped(p, bits) && (r.Scanned? ==> Filled(tmp, r.bytes))
  {
    if saw {
      if tp + 2 > 16 {
        return Bad;
      }
      Flush(tmp, tp, val, p.bytes);
      r := Scanned(tmp[..tp + 2], colon, bits, false);
    } else {
      r := Scanned(tmp[..tp], colon, bits, false);
    }
  }

  /** Moves the bytes behind "::" to the end of what is wanted, and checks the length. */
  method Complete(tmp: array<byte>, tp0: nat, colon: int, end: nat, ghost bytes: seq<byte>)
      returns (failure: Option<Outcome>)
    requires Filled(tmp, bytes) && tp0 == |bytes| && -1 <= colon <= tp0 && end <= tmp.Length
    modifies tmp
    ensures failure == if (colon == -1) != (tp0 == end) then Some(NotFound)
                       else if colon != -1 && tp0 - colon > end then Some(Outside) else None
    ensures failure.None? ==> tmp[..end] == if colon == -1 then bytes else Kept(bytes, colon, end)
  {
    hide MovedAt, Source, Kept;
    var tp := tp0;
    if colon != -1 {
      if tp == end {
        return Some(NotFound);
      }
      if tp - colon > end {
        return Some(Outside);
      }
      ghost var was := tmp[..];
      Shift(tmp, colon, tp, end);
      forall j | 0 <= j < end ensures tmp[..end][j] == Kept(bytes, colon, end)[j] {
        KeptAt(was, bytes, colon, end, j);
      }
      tp := end;
    }
    if tp != end {
      return Some(NotFound);
    }
    failure := None;
  }

  lemma KeptAt(was: seq<byte>, bytes: seq<byte>, colon: nat, end: nat, j: nat)
    requires colon <= |bytes| <= |was| && |bytes| - colon <= end <= |was| && |bytes| != end && was[..|bytes|] == bytes
             && j < end
    ensures Kept(bytes, colon, end)[j] == MovedAt(was, colon, |bytes|, end, j)
  {
    assert forall k :: 0 <= k < |bytes| ==> was[k] == was[..|bytes|][k];
  }

  lemma FinishedAs(r: Scan, size: nat)
    requires ValidScan(r)
    ensures !r.Scanned? ==> Finished(r, size) == if r.Bad? then NotFound else Zero
    ensures r.Scanned? ==>
              var end, tp := Wanted(r.bits, r.v4), |r.bytes|;
              Finished(r, size) ==
              if (r.colon == -1) != (tp == end) then NotFound
              else if r.colon == -1 then Cut(r.bytes, r.bits, size)
              else if tp - r.colon > end then Outside
              else Cut(Kept(r.bytes, r.colon, end), r.bits, size)
  {
  }

  method Width(bits: int, v4: bool) returns (end: int)
    requires 0 <= bits <= 128
    ensures end == Wanted(bits, v4) && (bits + 7) / 8 <= end <= 16
  {
    var words := (bits + 15) / 16;
    if words < 2 {
      words := 2;
    }
    if v4 {
      words := 8;
    }
    end := 2 * words;
  }

  /** inet_net_pton_ipv6 */
  method NetPton6(src: string, size: nat) returns (o: Outcome)
    ensures ValidScan(ScanText(src)) && o == Finished(ScanText(src), size)
  {
    hide ScanText, Filled, Zeros, Finished, Wanted, Kept;
    var tmp := new byte[16](_ => 0);
    FilledZero(tmp);
    var r := ScanInto(src, tmp);
    ScanTextValid(src);
    FinishedAs(r, size);
    match r {
      case Bad => o := NotFound;
      case Overfull => o := Zero;
      case Scanned(_, colon, bits, v4) =>
        var tp := |r.bytes|;
        var end := Width(bits, v4);
        var failure := Complete(tmp, tp, colon, end, r.bytes);
        if failure.Some? {
          return failure.value;
        }
        var n := (bits + 7) / 8;
        if n > size {
          return TooLong;
        }
        assert tmp[..n] == tmp[..end][..n];
        o := Address(bits, tmp[..n]);
    }
  }

  lemma FilledZero(tmp: array<byte>)
    requires tmp.Length == 16 && forall j :: 0 <= j < 16 ==> tmp[j] == 0
    ensures Filled(tmp, [])
  {
  }
}
