/** Domain names in DNS messages: the wire form, and the expansion of a name to text.
    Models ext/noderb_extension/libuv/src/ares/ares_expand_name.c. */
module DnsName {
  import opened Bytes

  type Labels = seq<seq<byte>>

  const DOT: byte := 46
  const BACKSLASH: byte := 92

  /** The two high bits (INDIR_MASK, 0xc0) are both set. */
  predicate IsPointer(b: byte) { b >= 192 }

  /** The 14-bit offset in a compression pointer: (hi & ~0xc0) << 8 | lo. */
  function Target(hi: byte, lo: byte): nat { (hi % 64) * 256 + lo }

  // ------------------------------------------------------------------------
  // What a compressed name means, section 4.1.4 of RFC 1035
  // ------------------------------------------------------------------------

  /** `next` is where reading goes on after the label or pointer at `p`. */
  ghost predicate Follows(m: seq<byte>, p: nat, next: nat) {
    && p < |m|
    && m[p] != 0
    && if IsPointer(m[p]) then p + 1 < |m| && next == Target(m[p], m[p + 1]) else next == p + 1 + m[p]
  }

  /** Reading inside the message, one label or pointer after another. */
  ghost predicate Trail(m: seq<byte>, path: seq<nat>) {
    && path != []
    && (forall i :: 0 <= i < |path| ==> path[i] < |m|)
    && (forall i :: 0 <= i < |path| - 1 ==> Follows(m, path[i], path[i + 1]))
  }

  /** A trail that ends at a zero byte. */
  ghost predicate Walk(m: seq<byte>, path: seq<nat>) {
    Trail(m, path) && m[path[|path| - 1]] == 0
  }

  /** The bytes at `p` spell a domain name. */
  ghost predicate Named(m: seq<byte>, p: nat) {
    exists path :: Walk(m, path) && path[0] == p
  }

  /** The labels met along a trail, without the one at its last offset. */
  ghost function LabelsOf(m: seq<byte>, path: seq<nat>): Labels
    requires Trail(m, path)
  {
    if |path| == 1 then []
    else
      assert Follows(m, path[|path| - 2], path[|path| - 1]);
      var p := path[|path| - 2];
      LabelsOf(m, path[..|path| - 1]) + (if IsPointer(m[p]) then [] else [m[p + 1..p + 1 + m[p]]])
  }

  ghost function NameAt(m: seq<byte>, p: nat): Labels
    requires Named(m, p)
  {
    var path :| Walk(m, path) && path[0] == p;
    LabelsOf(m, path)
  }

  /** The bytes a name takes where it stands: up to and including the first pointer or the zero byte. */
  ghost function SpanOf(m: seq<byte>, path: seq<nat>): nat
    requires Walk(m, path)
    decreases |path|
  {
    if m[path[0]] == 0 then 1
    else if IsPointer(m[path[0]]) then 2
    else
      WalkTail(m, path);
      1 + m[path[0]] + SpanOf(m, path[1..])
  }

  ghost function SpanAt(m: seq<byte>, p: nat): nat
    requires Named(m, p)
  {
    var path :| Walk(m, path) && path[0] == p;
    SpanOf(m, path)
  }

  // ------------------------------------------------------------------------
  // Presentation text
  // ------------------------------------------------------------------------

  function EscapedByte(b: byte): seq<byte> {
    if b == DOT || b == BACKSLASH then [BACKSLASH, b] else [b]
  }

  function Escaped(bytes: seq<byte>): seq<byte> {
    if bytes == [] then [] else Escaped(bytes[..|bytes| - 1]) + EscapedByte(bytes[|bytes| - 1])
  }

  /** Every label followed by a dot. */
  function Dotted(labels: Labels): seq<byte> {
    if labels == [] then [] else Dotted(labels[..|labels| - 1]) + Escaped(labels[|labels| - 1]) + [DOT]
  }

  /** Labels separated by dots; the root is the empty text. */
  function Text(labels: Labels): seq<byte> {
    var t := Dotted(labels);
    if t == [] then [] else t[..|t| - 1]
  }

  // ------------------------------------------------------------------------
  // Walks are unique and short
  // ------------------------------------------------------------------------

  lemma {:induction false} WalkTail(m: seq<byte>, path: seq<nat>)
    requires Walk(m, path)
    ensures m[path[0]] != 0 ==> |path| > 1 && Walk(m, path[1..]) && Follows(m, path[0], path[1])
    ensures m[path[0]] == 0 ==> |path| == 1
  {
    if |path| > 1 {
      assert Follows(m, path[0], path[1]);
    }
  }

  /** There is at most one walk from each offset. */
  lemma {:induction false} WalkUnique(m: seq<byte>, a: seq<nat>, b: seq<nat>)
    requires Walk(m, a) && Walk(m, b) && a[0] == b[0]
    ensures a == b
    decreases |a|
  {
    WalkTail(m, a);
    WalkTail(m, b);
    if m[a[0]] != 0 {
      WalkUnique(m, a[1..], b[1..]);
      assert a == [a[0]] + a[1..] && b == [b[0]] + b[1..];
    }
  }

  /** A walk never visits an offset twice: from there on it would repeat for ever. */
  lemma {:induction false} WalkInjective(m: seq<byte>, path: seq<nat>, i: nat, j: nat)
    requires Walk(m, path) && i < j < |path|
    ensures path[i] != path[j]
  {
    if path[i] == path[j] {
      WalkUnique(m, path[i..], path[j..]);
    }
  }

  /** Pigeonhole: distinct offsets below n are at most n. */
  lemma {:induction false} Pigeonhole(path: seq<nat>, n: nat)
    requires forall i :: 0 <= i < |path| ==> path[i] < n
    requires forall i, j :: 0 <= i < j < |path| ==> path[i] != path[j]
    ensures |path| <= n
  {
    if path == [] {
    } else {
      assert path[0] < n;
      if i :| 0 <= i < |path| && path[i] == n - 1 {
        Pigeonhole(path[..i] + path[i + 1..], n - 1);
      } else {
        Pigeonhole(path, n - 1);
      }
    }
  }

  lemma {:induction false} WalkShort(m: seq<byte>, path: seq<nat>)
    requires Walk(m, path)
    ensures |path| <= |m|
  {
    forall i, j | 0 <= i < j < |path| ensures path[i] != path[j] {
      WalkInjective(m, path, i, j);
    }
    Pigeonhole(path, |m|);
  }

  lemma {:induction false} NameAtWalk(m: seq<byte>, path: seq<nat>)
    requires Walk(m, path)
    ensures Named(m, path[0])
    ensures NameAt(m, path[0]) == LabelsOf(m, path)
    ensures SpanAt(m, path[0]) == SpanOf(m, path)
  {
    forall other | Walk(m, other) && other[0] == path[0] ensures other == path {
      WalkUnique(m, other, path);
    }
  }

  /** Reading is deterministic: any trail from the start of a walk is its beginning. */
  lemma {:induction false} TrailPrefix(m: seq<byte>, trail: seq<nat>, path: seq<nat>)
    requires Trail(m, trail) && Walk(m, path) && trail[0] == path[0]
    ensures |trail| <= |path| && trail == path[..|trail|]
  {
    if |trail| > 1 {
      var k := |trail| - 1;
      TrailPrefix(m, trail[..k], path);
      assert Follows(m, trail[k - 1], trail[k]);
      assert trail[..k][k - 1] == path[k - 1];
      assert Follows(m, path[k - 1], path[k]);
    }
  }

  lemma {:induction false} DottedSnoc(labels: Labels, last: seq<byte>)
    ensures Dotted(labels + [last]) == Dotted(labels) + Escaped(last) + [DOT]
  {
    assert (labels + [last])[..|labels|] == labels;
  }

  lemma {:induction false} EscapedSnoc(m: seq<byte>, from: nat, to: nat)
    requires from <= to < |m|
    ensures Escaped(m[from..from]) == []
    ensures Escaped(m[from..to + 1]) == Escaped(m[from..to]) + EscapedByte(m[to])
  {
    assert m[from..to + 1][..to - from] == m[from..to];
  }

  /** What a reader at `p` must find to read on inside the message. */
  predicate CanRead(m: seq<byte>, p: nat)
    requires p < |m| && m[p] != 0
  {
    if IsPointer(m[p]) then p + 1 < |m| && Target(m[p], m[p + 1]) < |m| else p + 1 + m[p] < |m|
  }

  lemma {:induction false} TrailReadable(m: seq<byte>, trail: seq<nat>, path: seq<nat>)
    requires Trail(m, trail) && Walk(m, path) && path[0] == trail[0]
    ensures |trail| <= |m|
    ensures m[trail[|trail| - 1]] != 0 ==> CanRead(m, trail[|trail| - 1])
  {
    TrailPrefix(m, trail, path);
    WalkShort(m, path);
    var k := |trail| - 1;
    assert trail[k] == path[k];
    if k + 1 < |path| {
      assert Follows(m, path[k], path[k + 1]);
    }
  }

  lemma {:induction false} NotNamed(m: seq<byte>, trail: seq<nat>)
    requires Trail(m, trail)
    requires |trail| > |m| || (m[trail[|trail| - 1]] != 0 && !CanRead(m, trail[|trail| - 1]))
    ensures !Named(m, trail[0])
  {
    forall path | Walk(m, path) && path[0] == trail[0] ensures false {
      TrailReadable(m, trail, path);
    }
  }

  // ------------------------------------------------------------------------
  // The code
  // ------------------------------------------------------------------------

  /** `trail` is what has been read between `start` and `p`. */
  ghost predicate Reading(m: seq<byte>, start: nat, trail: seq<nat>, p: nat) {
    Trail(m, trail) && trail[0] == start && trail[|trail| - 1] == p
  }

  ghost function DottedLength(m: seq<byte>, trail: seq<nat>): nat
    requires Trail(m, trail)
  {
    |Dotted(LabelsOf(m, trail))|
  }

  lemma {:induction false} ReadPointer(m: seq<byte>, start: nat, trail: seq<nat>, p: nat)
    requires Reading(m, start, trail, p) && m[p] != 0 && IsPointer(m[p]) && CanRead(m, p)
    ensures Reading(m, start, trail + [Target(m[p], m[p + 1])], Target(m[p], m[p + 1]))
    ensures LabelsOf(m, trail + [Target(m[p], m[p + 1])]) == LabelsOf(m, trail)
  {
  }

  lemma {:induction false} ReadLabel(m: seq<byte>, start: nat, trail: seq<nat>, p: nat)
    requires Reading(m, start, trail, p) && m[p] != 0 && !IsPointer(m[p]) && CanRead(m, p)
    ensures Reading(m, start, trail + [p + 1 + m[p]], p + 1 + m[p])
    ensures Dotted(LabelsOf(m, trail + [p + 1 + m[p]]))
            == Dotted(LabelsOf(m, trail)) + Escaped(m[p + 1..p + 1 + m[p]]) + [DOT]
  {
    var labels, last := LabelsOf(m, trail), m[p + 1..p + 1 + m[p]];
    hide LabelsOf;
    assert LabelsOf(m, trail + [p + 1 + m[p]]) == labels + [last];
  }

  lemma {:induction false} BeginReading(m: seq<byte>, start: nat)
    requires start < |m|
    ensures Reading(m, start, [start], start) && DottedLength(m, [start]) == 0
  {
  }

  lemma {:induction false} NothingAtEnd(m: seq<byte>)
    ensures !Named(m, |m|)
  {
  }

  lemma {:induction false} EndReading(m: seq<byte>, start: nat, trail: seq<nat>, p: nat)
    requires Reading(m, start, trail, p) && m[p] == 0
    ensures Walk(m, trail) && Named(m, start) && NameAt(m, start) == LabelsOf(m, trail)
  {
    NameAtWalk(m, trail);
  }

  /** Length of the expansion of the name at offset `start`, or -1 if the encoding is invalid. */
  method NameLength(m: seq<byte>, start: nat) returns (n: int)
    requires start <= |m|
    ensures n >= 0 <==> Named(m, start)
    ensures Named(m, start) ==> n == |Text(NameAt(m, start))|
  {
    hide Trail, LabelsOf, Dotted, Escaped;
    n := 0;
    var indir := 0;
    var encoded: nat := start;
    if encoded == |m| {
      NothingAtEnd(m);
      return -1;
    }
    ghost var trail: seq<nat> := [start];
    BeginReading(m, start);
    while m[encoded] != 0
      invariant encoded < |m| && Reading(m, start, trail, encoded)
      invariant 0 <= indir <= |m| && indir < |trail|
      invariant n == DottedLength(m, trail)
      decreases |m| - indir, |m| - encoded
    {
      if IsPointer(m[encoded]) {
        if encoded + 1 >= |m| || Target(m[encoded], m[encoded + 1]) >= |m| {
          NotNamed(m, trail);
          return -1;
        }
        var offset := Target(m[encoded], m[encoded + 1]);
        ReadPointer(m, start, trail, encoded);
        trail := trail + [offset];
        encoded := offset;
        indir := indir + 1;
        if indir > |m| {
          NotNamed(m, trail);
          return -1;
        }
      } else {
        var offset: int := m[encoded];
        if encoded + offset + 1 >= |m| {
          NotNamed(m, trail);
          return -1;
        }
        ReadLabel(m, start, trail, encoded);
        ghost var first, next := encoded + 1, encoded + 1 + offset;
        ghost var before := n;
        trail := trail + [next];
        encoded := encoded + 1;
        EscapedSnoc(m, first, first);
        while offset != 0
          invariant 0 <= offset && first <= encoded && encoded + offset == next
          invariant n == before + |Escaped(m[first..encoded])|
        {
          EscapedSnoc(m, first, encoded);
          n := n + if m[encoded] == DOT || m[encoded] == BACKSLASH then 2 else 1;
          encoded := encoded + 1;
          offset := offset - 1;
        }
        n := n + 1;
      }
    }
    EndReading(m, start, trail, encoded);
    n := if n != 0 then n - 1 else n;
  }

  // ------------------------------------------------------------------------
  // The second pass, which checks nothing
  // ------------------------------------------------------------------------

  datatype Status = Success | BadName

  /** What the second pass has written when it stands at `path[i]`. */
  ghost function TextSoFar(m: seq<byte>, path: seq<nat>, i: nat): seq<byte>
    requires i < |path| && Trail(m, path[..i + 1])
  {
    Dotted(LabelsOf(m, path[..i + 1]))
  }

  lemma {:induction false} WalkStep(m: seq<byte>, path: seq<nat>, i: nat)
    requires Walk(m, path) && i < |path| && m[path[i]] != 0
    ensures i + 1 < |path| && Follows(m, path[i], path[i + 1]) && CanRead(m, path[i])
    ensures Walk(m, path[i..]) && Walk(m, path[i + 1..])
    ensures SpanOf(m, path[i..]) == if IsPointer(m[path[i]]) then 2 else 1 + m[path[i]] + SpanOf(m, path[i + 1..])
  {
    assert Follows(m, path[i], path[i + 1]);
    assert path[i..][1..] == path[i + 1..];
  }

  /** Every step of the trail is a pointer. */
  ghost predicate OnlyPointers(m: seq<byte>, trail: seq<nat>) {
    forall i :: 0 <= i < |trail| - 1 ==> trail[i] < |m| && IsPointer(m[trail[i]])
  }

  lemma {:induction false} LastStep(m: seq<byte>, trail: seq<nat>)
    requires Trail(m, trail)
    ensures trail != [] && (|trail| == 1 ==> LabelsOf(m, trail) == [] && OnlyPointers(m, trail))
    ensures |trail| > 1 ==>
              var n := |trail| - 1; var p, before := trail[n - 1], trail[..n];
              && p < |m| && m[p] > 0 && Trail(m, before) && (IsPointer(m[p]) || p + 1 + m[p] <= |m|)
              && LabelsOf(m, trail) == LabelsOf(m, before) + (if IsPointer(m[p]) then [] else [m[p + 1..p + 1 + m[p]]])
              && (OnlyPointers(m, trail) <==> OnlyPointers(m, before) && IsPointer(m[p]))
  {
    if |trail| > 1 {
      assert Follows(m, trail[|trail| - 2], trail[|trail| - 1]);
    }
  }

  /** The text of a trail grows by what its last step adds. */
  lemma {:induction false} LastText(m: seq<byte>, trail: seq<nat>, more: seq<nat>)
    requires Trail(m, more) && |more| > 1 && trail == more[..|more| - 1]
    ensures var p, next := more[|more| - 2], more[|more| - 1];
            && Trail(m, trail) && p < |m| && (IsPointer(m[p]) || p + 1 + m[p] <= |m|)
            && Dotted(LabelsOf(m, more)) == Dotted(LabelsOf(m, trail))
               + (if IsPointer(m[p]) then [] else Escaped(m[p + 1..p + 1 + m[p]]) + [DOT])
  {
    hide LabelsOf, Trail, OnlyPointers, Escaped, Dotted;
    LastStep(m, more);
    var p, labels := more[|more| - 2], LabelsOf(m, trail);
    if IsPointer(m[p]) {
      assert labels + [] == labels;
      assert Dotted(labels) + [] == Dotted(labels);
    } else {
      var last := m[p + 1..p + 1 + m[p]];
      DottedSnoc(labels, last);
      assert Dotted(labels) + Escaped(last) + [DOT] == Dotted(labels) + (Escaped(last) + [DOT]);
    }
  }

  lemma {:induction false} TextStep(m: seq<byte>, path: seq<nat>, i: nat)
    requires Walk(m, path) && i + 1 < |path| && Follows(m, path[i], path[i + 1])
    ensures Trail(m, path[..i + 1]) && Trail(m, path[..i + 2])
    ensures TextSoFar(m, path, i + 1) == TextSoFar(m, path, i)
            + (if IsPointer(m[path[i]]) then [] else Escaped(m[path[i] + 1..path[i + 1]]) + [DOT])
  {
    hide LabelsOf, Trail, Walk, Escaped, Dotted, Follows;
    FollowsNext(m, path, i);
    PartOfWalk(m, path, i + 2);
    var trail, more := path[..i + 1], path[..i + 2];
    assert trail == more[..i + 1];
    LastText(m, trail, more);
  }

  lemma FollowsNext(m: seq<byte>, path: seq<nat>, i: nat)
    requires i + 1 < |path| && Follows(m, path[i], path[i + 1])
    ensures path[i] < |m| && (!IsPointer(m[path[i]]) ==> path[i + 1] == path[i] + 1 + m[path[i]])
  {
  }

  lemma PartOfWalk(m: seq<byte>, path: seq<nat>, k: nat)
    requires Walk(m, path) && 0 < k <= |path|
    ensures Trail(m, path[..k])
  {
  }

  /** What the first pass counted bounds every stage of the second. */
  lemma {:induction false} TextGrows(m: seq<byte>, path: seq<nat>, i: nat)
    requires Walk(m, path) && i < |path|
    ensures Trail(m, path[..i + 1]) && |TextSoFar(m, path, i)| <= DottedLength(m, path)
    decreases |path| - i
  {
    if i + 1 == |path| {
      assert path[..i + 1] == path;
    } else {
      assert Follows(m, path[i], path[i + 1]);
      hide TextSoFar, DottedLength;
      TextStep(m, path, i);
      TextGrows(m, path, i + 1);
    }
  }

  lemma {:induction false} EscapedGrows(m: seq<byte>, from: nat, mid: nat, to: nat)
    requires from <= mid <= to <= |m|
    ensures |Escaped(m[from..mid])| <= |Escaped(m[from..to])|
    decreases |m| - mid
  {
    if mid < to {
      EscapedSnoc(m, from, mid);
      EscapedGrows(m, from, mid + 1, to);
    }
  }

  lemma {:induction false} SpanInside(m: seq<byte>, path: seq<nat>)
    requires Walk(m, path)
    ensures path[0] + SpanOf(m, path) <= |m|
    decreases |path|
  {
    WalkTail(m, path);
    if m[path[0]] != 0 && !IsPointer(m[path[0]]) {
      SpanInside(m, path[1..]);
    }
  }

  lemma {:induction false} SecondPassFacts(m: seq<byte>, start: nat) returns (path: seq<nat>)
    requires Named(m, start)
    ensures Walk(m, path) && path != [] && path[0] == start
    ensures NameAt(m, start) == LabelsOf(m, path) && SpanAt(m, start) == SpanOf(m, path)
    ensures start + SpanOf(m, path) <= |m|
    ensures Trail(m, path[..1]) && TextSoFar(m, path, 0) == []
    ensures path[0..] == path && path[..|path|] == path
  {
    path :| Walk(m, path) && path[0] == start;
    NameAtWalk(m, path);
    SpanInside(m, path);
  }

  lemma {:induction false} OnlyLastIsZero(m: seq<byte>, path: seq<nat>, i: nat)
    requires Walk(m, path) && i + 1 < |path|
    ensures m[path[i]] != 0
  {
    assert Follows(m, path[i], path[i + 1]);
  }

  lemma {:induction false} WalkEnd(m: seq<byte>, path: seq<nat>, i: nat)
    requires Walk(m, path) && i < |path| && path[i] < |m| && m[path[i]] == 0
    ensures i == |path| - 1 && path[..i + 1] == path
    ensures Walk(m, path[i..]) && SpanOf(m, path[i..]) == 1
    ensures Trail(m, path[..i + 1]) && TextSoFar(m, path, i) == Dotted(LabelsOf(m, path))
  {
    if i + 1 < |path| {
      OnlyLastIsZero(m, path, i);
    }
  }

  lemma {:induction false} SpanPositive(m: seq<byte>, path: seq<nat>)
    requires Walk(m, path)
    ensures SpanOf(m, path) >= 1
  {
  }

  /** Appends a label at out[q..], escaping dots and backslashes. */
  method CopyLabel(m: seq<byte>, from: nat, count: nat, out: array<byte>, at: nat) returns (q: nat)
    requires from + count < |m|
    requires at + |Escaped(m[from..from + count])| <= out.Length
    modifies out
    ensures q <= out.Length && out[..q] == old(out[..at]) + Escaped(m[from..from + count])
  {
    hide Escaped;
    q := at;
    var p, len: int := from, count;
    EscapedSnoc(m, from, from);
    while len != 0
      invariant 0 <= len && from <= p && p + len == from + count
      invariant q <= out.Length && out[..q] == old(out[..at]) + Escaped(m[from..p])
    {
      EscapedSnoc(m, from, p);
      EscapedGrows(m, from, p + 1, from + count);
      ghost var before := out[..q];
      if m[p] == DOT || m[p] == BACKSLASH {
        out[q] := BACKSLASH;
        q := q + 1;
      }
      out[q] := m[p];
      q := q + 1;
      assert out[..q] == before + EscapedByte(m[p]);
      p := p + 1;
      len := len - 1;
    }
  }

  /** Copies one label, with a dot behind it. */
  method AddLabel(m: seq<byte>, from: nat, count: nat, out: array<byte>, at: nat) returns (q: nat)
    requires from + count < |m|
    requires at + |Escaped(m[from..from + count])| < out.Length
    modifies out
    ensures q <= out.Length && out[..q] == old(out[..at]) + (Escaped(m[from..from + count]) + [DOT])
  {
    hide Escaped;
    q := CopyLabel(m, from, count, out, at);
    ghost var text := out[..q];
    out[q] := DOT;
    assert out[..q] == text;
    q := q + 1;
  }

  /** Expands the name at `start`: the text with its terminating zero, and how far to move on past the name. */
  method ExpandName(m: seq<byte>, start: nat) returns (status: Status, s: array?<byte>, enclen: nat)
    requires start <= |m|
    ensures status == Success <==> Named(m, start)
    ensures status == Success ==> s != null && s[..] == Text(NameAt(m, start)) + [0]
    ensures status == Success ==> enclen == (if Text(NameAt(m, start)) == [] then 1 else SpanAt(m, start))
    ensures status == Success ==> start + enclen <= |m|
  {
    hide Walk, Trail, LabelsOf, SpanOf, Escaped, TextSoFar, NameAt, SpanAt, Named;
    s, enclen := null, 1;
    var nlen := NameLength(m, start);
    if nlen < 0 {
      return BadName, s, enclen;
    }
    var out := new byte[nlen + 1];
    s := out;
    ghost var path: seq<nat> := SecondPassFacts(m, start);
    ghost var text := Text(NameAt(m, start));
    SpanPositive(m, path);
    if nlen == 0 {
      out[0] := 0;
      assert out[..] == text + [0];
      return Success, s, 1;
    }
    var p: nat, q: nat, indir := start, 0, false;
    ghost var i := 0;
    while m[p] != 0
      invariant 0 <= i < |path| && p == path[i] && p < |m|
      invariant Trail(m, path[..i + 1]) && q <= out.Length && out[..q] == TextSoFar(m, path, i)
      invariant Walk(m, path[i..])
      invariant indir ==> enclen == SpanOf(m, path)
      invariant !indir ==> start <= p && SpanOf(m, path) == p - start + SpanOf(m, path[i..])
      decreases |path| - i
    {
      WalkStep(m, path, i);
      TextStep(m, path, i);
      TextGrows(m, path, i + 1);
      if IsPointer(m[p]) {
        if !indir {
          enclen := p + 2 - start;
          indir := true;
        }
        p := Target(m[p], m[p + 1]);
      } else {
        var len := m[p];
        q := AddLabel(m, p + 1, len, out, q);
        p := p + 1 + len;
      }
      i := i + 1;
    }
    WalkEnd(m, path, i);
    if !indir {
      enclen := p + 1 - start;
    }
    out[q - 1] := 0;
    assert out[..] == text + [0];
    status := Success;
  }

  // ------------------------------------------------------------------------
  // When the reported length is the length of the name
  // ------------------------------------------------------------------------

  lemma {:induction false} EscapedNonEmpty(bytes: seq<byte>)
    ensures |Escaped(bytes)| >= |bytes|
  {
    if bytes == [] {
    } else {
      EscapedNonEmpty(bytes[..|bytes| - 1]);
    }
  }

  /** From `start` one pointer after another leads to a zero byte. */
  ghost predicate PointersToRoot(m: seq<byte>, start: nat) {
    exists path :: Walk(m, path) && path[0] == start && OnlyPointers(m, path)
  }

  /** A label that is met shows in the text, by one character and its dot at least. */
  lemma {:induction false} DottedSize(m: seq<byte>, trail: seq<nat>)
    requires Trail(m, trail)
    ensures if OnlyPointers(m, trail) then Dotted(LabelsOf(m, trail)) == [] else |Dotted(LabelsOf(m, trail))| >= 2
    decreases |trail|
  {
    hide Trail, LabelsOf, OnlyPointers, Escaped;
    LastStep(m, trail);
    if |trail| > 1 {
      var n := |trail| - 1;
      var p, before := trail[n - 1], trail[..n];
      DottedSize(m, before);
      if IsPointer(m[p]) {
        assert LabelsOf(m, before) + [] == LabelsOf(m, before);
      } else {
        DottedSnoc(LabelsOf(m, before), m[p + 1..p + 1 + m[p]]);
        EscapedNonEmpty(m[p + 1..p + 1 + m[p]]);
      }
    }
  }

  /** The reported length is right except for a pointer from which pointers alone lead to a zero byte: that is
      reported as one byte and takes two. */
  lemma {:induction false} EnclenExact(m: seq<byte>, start: nat)
    requires start < |m| && Named(m, start)
    ensures (if Text(NameAt(m, start)) == [] then 1 else SpanAt(m, start)) == SpanAt(m, start)
            <==> !(IsPointer(m[start]) && PointersToRoot(m, start))
    ensures Text(NameAt(m, start)) == [] <==> PointersToRoot(m, start)
  {
    var path := SecondPassFacts(m, start);
    DottedSize(m, path);
    forall other | Walk(m, other) && other[0] == start ensures other == path {
      WalkUnique(m, other, path);
    }
    assert PointersToRoot(m, start) <==> OnlyPointers(m, path);
    if m[start] != 0 && !IsPointer(m[start]) {
      WalkTail(m, path);
    }
  }

  lemma EnclenShort()
    ensures var m := [0, 192, 0];
            && Named(m, 1)
            && Text(NameAt(m, 1)) == []
            && SpanAt(m, 1) == 2
  {
    var m: seq<byte> := [0, 192, 0];
    var path: seq<nat> := [1, 0];
    assert Follows(m, 1, 0);
    NameAtWalk(m, path);
    assert path[..1] == [1];
  }
}
