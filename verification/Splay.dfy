/** Top-down splaying, in place, and the set operations built on it.
    Models SPLAY, SPLAY_FIND, SPLAY_INSERT and SPLAY_REMOVE of ext/noderb_extension/libuv/include/uv-private/tree.h. */
module Splay {
  import opened SplayCost
  import opened SplayTree

  /** The nodes in order, cut in three: the smaller ones put aside, the tree at hand, the greater ones put aside. */
  ghost predicate Cut(o: seq<Node>, key: int, a: Spine, t: Tree, b: Spine) {
    && Sorted(o) && o == LeftOrder(a) + Order(t) + RightOrder(b)
    && AllBelow(LeftOrder(a), key) && AllAbove(RightOrder(b), key)
  }

  lemma OrderBin(l: Tree, x: Node, r: Tree)
    ensures Order(Bin(l, x, r)) == Order(l) + [x] + Order(r)
  {
  }

  /** In a sorted sequence, what stands around an element. */
  lemma {:induction false} SortedAt(o: seq<Node>, a: seq<Node>, x: Node, b: seq<Node>)
    requires Sorted(o) && o == a + [x] + b
    ensures AllBelow(a, x.key) && AllAbove(b, x.key)
  {
    assert o[|a|] == x;
    forall y <- a ensures y.key < x.key {
      var i :| 0 <= i < |a| && a[i] == y;
      assert o[i] == y;
    }
    forall y <- b ensures x.key < y.key {
      var i :| 0 <= i < |b| && b[i] == y;
      assert o[|a| + 1 + i] == y;
    }
  }

  lemma {:induction false} CutLeft(o: seq<Node>, key: int, a: Spine, t: Tree, b: Spine)
    requires Cut(o, key, a, t, b) && t.Bin? && key < t.node.key
    ensures Cut(o, key, a, t.l, On(b, t.node, t.r))
  {
    hide Sorted, AllBelow, Order;
    OrderBin(t.l, t.node, t.r);
    var l, x, r := Order(t.l), t.node, Order(t.r);
    assert o == (LeftOrder(a) + l) + [x] + (r + RightOrder(b));
    SortedAt(o, LeftOrder(a) + l, x, r + RightOrder(b));
    assert o == LeftOrder(a) + l + ([x] + r + RightOrder(b));
  }

  lemma {:induction false} CutRight(o: seq<Node>, key: int, a: Spine, t: Tree, b: Spine)
    requires Cut(o, key, a, t, b) && t.Bin? && t.node.key < key
    ensures Cut(o, key, On(a, t.node, t.l), t.r, b)
  {
    hide Sorted, AllAbove, Order;
    OrderBin(t.l, t.node, t.r);
    var l, x, r := Order(t.l), t.node, Order(t.r);
    assert o == (LeftOrder(a) + l) + [x] + (r + RightOrder(b));
    SortedAt(o, LeftOrder(a) + l, x, r + RightOrder(b));
    assert o == (LeftOrder(a) + l + [x]) + r + RightOrder(b);
  }

  /** Where the loop stops: the smaller and the greater nodes of the tree at hand are on their sides. */
  ghost predicate Ready(t: Tree, key: int) {
    t.Bin? && AllBelow(Order(t.l), key) && AllAbove(Order(t.r), key)
  }

  lemma OrderLeaf()
    ensures Order(Leaf) == []
  {
  }

  /** The root has the key, or there is nothing on the side where the key would be. */
  lemma {:induction false} StopsReady(o: seq<Node>, key: int, a: Spine, t: Tree, b: Spine)
    requires Cut(o, key, a, t, b) && t.Bin?
    requires t.node.key == key || (key < t.node.key && t.l.Leaf?) || (t.node.key < key && t.r.Leaf?)
    ensures Ready(t, key)
  {
    hide Sorted, Order;
    OrderBin(t.l, t.node, t.r);
    OrderLeaf();
    var l, x, r := Order(t.l), t.node, Order(t.r);
    assert o == (LeftOrder(a) + l) + [x] + (r + RightOrder(b));
    SortedAt(o, LeftOrder(a) + l, x, r + RightOrder(b));
    assert forall y <- l :: y in LeftOrder(a) + l;
    assert forall y <- r :: y in r + RightOrder(b);
  }

  /** What a splay leaves: the same nodes in the same order, cut by the key at the root. */
  lemma {:induction false} AssembledOrder(o: seq<Node>, key: int, a: Spine, t: Tree, b: Spine)
    requires Cut(o, key, a, t, b) && Ready(t, key)
    ensures var u := Assembled(a, t, b); Order(u) == o && Ready(u, key)
  {
    hide Sorted, Order;
    PlugOrder(a, t.l);
    PlugOrder(b, t.r);
    OrderBin(t.l, t.node, t.r);
    var u := Assembled(a, t, b);
    OrderBin(u.l, u.node, u.r);
    assert o == LeftOrder(a) + (Order(t.l) + [t.node] + Order(t.r)) + RightOrder(b);
    assert Order(u) == (LeftOrder(a) + Order(t.l)) + [t.node] + (Order(t.r) + RightOrder(b));
  }

  // ------------------------------------------------------------------------
  // The macros
  // ------------------------------------------------------------------------

  /** The tree at hand is at the head, the rest hangs below `s`. */
  ghost predicate Working(head: Head, q: set<Node>, s: Node, a: Spine, t: Tree, b: Spine)
    reads head, q
  {
    Parts(Memory(q), head.root, s, a, t, b)
  }

  lemma WorkingReads(head: Head, q: set<Node>, s: Node, a: Spine, t: Tree, b: Spine)
    requires Working(head, q, s, a, t, b) && t.Bin?
    ensures head.root == t.node && t.node in q && s in q && Tip(a, s) in q && Tip(b, s) in q && t.node != s
    ensures Tip(a, s) != t.node && Tip(b, s) != t.node && (Tip(a, s) == Tip(b, s) ==> Tip(a, s) == s)
    ensures if t.l.Bin? then t.node.left == t.l.node && t.l.node in q && t.l.node != t.node else t.node.left == null
    ensures if t.r.Bin? then t.node.right == t.r.node && t.r.node in q && t.r.node != t.node else t.node.right == null
  {
    hide LeftLinked, RightLinked, Distinct, SpineDistinct;
    var m, x := Memory(q), t.node;
    Parted(t.l, x, t.r);
    RootBelow(m, t.l, m[x].left);
    RootBelow(m, t.r, m[x].right);
  }

  lemma RootBelow(m: Store, t: Tree, n: Node?)
    requires Below(m, t, n)
    ensures if t.Bin? then n == t.node && n in m && n in Nodes(t) else n == null
  {
  }

  /** SPLAY_LINKLEFT */
  method LinkLeft(head: Head, right: Node, ghost q: set<Node>, ghost s: Node, ghost a: Spine, ghost t: Tree,
      ghost b: Spine) returns (tmp: Node)
    requires Working(head, q, s, a, t, b) && t.Bin? && right == Tip(b, s)
    modifies head, q
    ensures Working(head, q, s, a, t.l, On(b, t.node, t.r)) && tmp == t.node
  {
    hide Parts;
    ghost var m := Memory(q);
    WorkingReads(head, q, s, a, t, b);
    right.left := head.root;
    tmp := head.root;
    head.root := head.root.left;
    assert Memory(q) == m[right := m[right].(left := t.node)];
    LinkLeftKeeps(m, Memory(q), s, a, t, b);
  }

  /** SPLAY_LINKRIGHT */
  method LinkRight(head: Head, left: Node, ghost q: set<Node>, ghost s: Node, ghost a: Spine, ghost t: Tree,
      ghost b: Spine) returns (tmp: Node)
    requires Working(head, q, s, a, t, b) && t.Bin? && left == Tip(a, s)
    modifies head, q
    ensures Working(head, q, s, On(a, t.node, t.l), t.r, b) && tmp == t.node
  {
    hide Parts;
    ghost var m := Memory(q);
    WorkingReads(head, q, s, a, t, b);
    left.right := head.root;
    tmp := head.root;
    head.root := head.root.right;
    assert Memory(q) == m[left := m[left].(right := t.node)];
    LinkRightKeeps(m, Memory(q), s, a, t, b);
  }

  /** SPLAY_ROTATE_RIGHT */
  method RotateRight(head: Head, tmp: Node, ghost q: set<Node>, ghost s: Node, ghost a: Spine, ghost t: Tree,
      ghost b: Spine)
    requires Working(head, q, s, a, t, b) && t.Bin? && t.l.Bin? && tmp == t.l.node
    modifies head, q
    ensures Working(head, q, s, a, RotatedRight(t), b)
  {
    hide Parts;
    ghost var m, x := Memory(q), t.node;
    WorkingReads(head, q, s, a, t, b);
    head.root.left := tmp.right;
    tmp.right := head.root;
    head.root := tmp;
    assert Memory(q) == m[x := m[x].(left := m[tmp].right)][tmp := m[tmp].(right := x)];
    RotateRightKeeps(m, Memory(q), s, a, t, b);
  }

  /** SPLAY_ROTATE_LEFT */
  method RotateLeft(head: Head, tmp: Node, ghost q: set<Node>, ghost s: Node, ghost a: Spine, ghost t: Tree,
      ghost b: Spine)
    requires Working(head, q, s, a, t, b) && t.Bin? && t.r.Bin? && tmp == t.r.node
    modifies head, q
    ensures Working(head, q, s, a, RotatedLeft(t), b)
  {
    hide Parts;
    ghost var m, x := Memory(q), t.node;
    WorkingReads(head, q, s, a, t, b);
    head.root.right := tmp.left;
    tmp.left := head.root;
    head.root := tmp;
    assert Memory(q) == m[x := m[x].(right := m[tmp].left)][tmp := m[tmp].(left := x)];
    RotateLeftKeeps(m, Memory(q), s, a, t, b);
  }

  /** SPLAY_ASSEMBLE */
  method Assemble(head: Head, s: Node, left: Node, right: Node, ghost q: set<Node>, ghost a: Spine, ghost t: Tree,
      ghost b: Spine)
    requires Working(head, q, s, a, t, b) && t.Bin? && left == Tip(a, s) && right == Tip(b, s)
    modifies head, q
    ensures Holds(head, q - {s}, Assembled(a, t, b))
  {
    hide Parts, PlugLeft, PlugRight, Below, Distinct;
    ghost var m, x := Memory(q), t.node;
    WorkingReads(head, q, s, a, t, b);
    left.right := head.root.left;
    ghost var i := m[left := m[left].(right := m[x].left)];
    assert Memory(q) == i;
    right.left := head.root.right;
    ghost var j := i[right := i[right].(left := m[x].right)];
    assert Memory(q) == j;
    head.root.left := s.right;
    head.root.right := s.left;
    assert Memory(q) == j[x := Cell(j[s].right, j[s].left)];
    AssembleKeeps(m, Memory(q), s, a, t, b);
    Restrict(q, q - {s}, Assembled(a, t, b), x);
  }

  lemma Restrict(s: set<Node>, q: set<Node>, t: Tree, root: Node?)
    requires Below(Memory(s), t, root) && Nodes(t) == q <= s
    ensures Below(Memory(q), t, root)
  {
    Kept(Memory(s), Memory(q), q, t, root);
  }

  // ------------------------------------------------------------------------
  // SPLAY
  // ------------------------------------------------------------------------

  /** How a splay to the left begins, when the parts `a` and `b` have been put aside. */
  lemma {:induction false} SplayedLeft(key: int, a: Spine, t: Tree, b: Spine)
    requires t.Bin? && key < t.node.key
    ensures t.l.Leaf? ==> Splayed(t, key) == t && Levels(t, key) == 1
    ensures t.l.Bin? && key >= t.l.node.key ==>
              && Assembled(a, Splayed(t, key), b) == Assembled(a, Splayed(t.l, key), On(b, t.node, t.r))
              && Levels(t, key) == 1 + Levels(t.l, key)
    ensures t.l.Bin? && key < t.l.node.key ==>
              var u := RotatedRight(t);
              if u.l.Leaf? then Splayed(t, key) == u && Levels(t, key) == 2
              else
                && Assembled(a, Splayed(t, key), b) == Assembled(a, Splayed(u.l, key), On(b, u.node, u.r))
                && Levels(t, key) == 2 + Levels(u.l, key)
  {
  }

  lemma {:induction false} SplayedRight(key: int, a: Spine, t: Tree, b: Spine)
    requires t.Bin? && t.node.key < key
    ensures t.r.Leaf? ==> Splayed(t, key) == t && Levels(t, key) == 1
    ensures t.r.Bin? && key <= t.r.node.key ==>
              && Assembled(a, Splayed(t, key), b) == Assembled(On(a, t.node, t.l), Splayed(t.r, key), b)
              && Levels(t, key) == 1 + Levels(t.r, key)
    ensures t.r.Bin? && t.r.node.key < key ==>
              var u := RotatedLeft(t);
              if u.r.Leaf? then Splayed(t, key) == u && Levels(t, key) == 2
              else
                && Assembled(a, Splayed(t, key), b) == Assembled(On(a, u.node, u.l), Splayed(u.r, key), b)
                && Levels(t, key) == 2 + Levels(u.r, key)
  {
  }

  /** One round of the loop to the left; `done` when it breaks. */
  method StepLeft(head: Head, key: int, right: Node, ghost q: set<Node>, ghost s: Node, ghost a: Spine,
      ghost t0: Tree, ghost b0: Spine, ghost o: seq<Node>)
    returns (tip: Node, done: bool, ghost t: Tree, ghost b: Spine)
    requires Working(head, q, s, a, t0, b0) && Cut(o, key, a, t0, b0) && t0.Bin? && right == Tip(b0, s)
             && key < t0.node.key
    modifies head, q
    ensures Working(head, q, s, a, t, b) && Cut(o, key, a, t, b) && t.Bin? && tip == Tip(b, s)
    ensures if done then Ready(t, key) else Size(t) < Size(t0)
    ensures Assembled(a, if done then t else Splayed(t, key), b) == Assembled(a, Splayed(t0, key), b0)
    ensures (if done then 0 else Levels(t, key)) + 1 <= Levels(t0, key)
  {
    hide Working, Cut, Ready, Assembled, Splayed, Levels;
    SplayedLeft(key, a, t0, b0);
    t, b, tip, done := t0, b0, right, true;
    WorkingReads(head, q, s, a, t, b);
    var tmp := head.root.left;
    if tmp == null {
      StopsReady(o, key, a, t, b);
      return;
    }
    if key < tmp.key {
      RotateRight(head, tmp, q, s, a, t, b);
      CutSame(o, key, a, t, RotatedRight(t), b);
      t := RotatedRight(t);
      WorkingReads(head, q, s, a, t, b);
      if head.root.left == null {
        StopsReady(o, key, a, t, b);
        return;
      }
    }
    tip := LinkLeft(head, right, q, s, a, t, b);
    CutLeft(o, key, a, t, b);
    b, t, done := On(b, t.node, t.r), t.l, false;
  }

  lemma CutSame(o: seq<Node>, key: int, a: Spine, t: Tree, u: Tree, b: Spine)
    requires Cut(o, key, a, t, b) && Order(t) == Order(u)
    ensures Cut(o, key, a, u, b)
  {
  }

  method StepRight(head: Head, key: int, left: Node, ghost q: set<Node>, ghost s: Node, ghost a0: Spine,
      ghost t0: Tree, ghost b: Spine, ghost o: seq<Node>)
    returns (tip: Node, done: bool, ghost t: Tree, ghost a: Spine)
    requires Working(head, q, s, a0, t0, b) && Cut(o, key, a0, t0, b) && t0.Bin? && left == Tip(a0, s)
             && t0.node.key < key
    modifies head, q
    ensures Working(head, q, s, a, t, b) && Cut(o, key, a, t, b) && t.Bin? && tip == Tip(a, s)
    ensures if done then Ready(t, key) else Size(t) < Size(t0)
    ensures Assembled(a, if done then t else Splayed(t, key), b) == Assembled(a0, Splayed(t0, key), b)
    ensures (if done then 0 else Levels(t, key)) + 1 <= Levels(t0, key)
  {
    hide Working, Cut, Ready, Assembled, Splayed, Levels;
    SplayedRight(key, a0, t0, b);
    t, a, tip, done := t0, a0, left, true;
    WorkingReads(head, q, s, a, t, b);
    var tmp := head.root.right;
    if tmp == null {
      StopsReady(o, key, a, t, b);
      return;
    }
    if key > tmp.key {
      RotateLeft(head, tmp, q, s, a, t, b);
      CutSame(o, key, a, t, RotatedLeft(t), b);
      t := RotatedLeft(t);
      WorkingReads(head, q, s, a, t, b);
      if head.root.right == null {
        StopsReady(o, key, a, t, b);
        return;
      }
    }
    tip := LinkRight(head, left, q, s, a, t, b);
    CutRight(o, key, a, t, b);
    a, t, done := On(a, t.node, t.l), t.r, false;
  }

  /** SPLAY: the same nodes in the same order, with the node of the key at the root if there is one; in any case smaller
      nodes are left of the root and greater ones right of it. */
  method Splay(head: Head, key: int, ghost q: set<Node>, ghost t0: Tree) returns (ghost u: Tree, ghost rounds: nat)
    requires Holds(head, q, t0) && t0.Bin? && Sorted(Order(t0))
    modifies head, q
    ensures Holds(head, q, u) && Order(u) == Order(t0) && Ready(u, key)
    ensures u == Splayed(t0, key) && rounds <= Levels(t0, key)
  {
    hide Working, Ready, Holds, Splayed, Levels, Assembled;
    var node := new Node(0);
    var left, right := node, node;
    ghost var o, all, a, t, b := Order(t0), q + {node}, Base, t0, Base;
    Begins(head, q, node, t0);
    NothingAside(t0, key);
    rounds := 0;
    ghost var done := false;
    WorkingReads(head, all, node, a, t, b);
    while head.root.key != key
      invariant Working(head, all, node, a, t, b) && Cut(o, key, a, t, b) && t.Bin? && left == Tip(a, node)
                && right == Tip(b, node)
      invariant head.root == t.node && all == q + {node} && fresh(node)
      invariant Assembled(a, Splayed(t, key), b) == Splayed(t0, key) && rounds + Levels(t, key) <= Levels(t0, key)
      decreases Size(t)
    {
      rounds := rounds + 1;
      var stop;
      if key < head.root.key {
        right, stop, t, b := StepLeft(head, key, right, all, node, a, t, b, o);
      } else {
        left, stop, t, a := StepRight(head, key, left, all, node, a, t, b, o);
      }
      WorkingReads(head, all, node, a, t, b);
      if stop {
        done := true;
        break;
      }
    }
    if !done {
      StopsReady(o, key, a, t, b);
      SplayedHere(t, key);
    }
    Assemble(head, node, left, right, all, a, t, b);
    u := Assembled(a, t, b);
    AssembledOrder(o, key, a, t, b);
    assert all - {node} == q;
  }

  lemma NothingAside(t: Tree, key: int)
    requires t.Bin?
    ensures Assembled(Base, Splayed(t, key), Base) == Splayed(t, key)
  {
    hide Splayed;
  }

  lemma SplayedHere(t: Tree, key: int)
    requires t.Bin? && t.node.key == key
    ensures Splayed(t, key) == t
  {
  }

  lemma {:induction false} Begins(head: Head, q: set<Node>, s: Node, t: Tree)
    requires Holds(head, q, t) && s !in q
    ensures Working(head, q + {s}, s, Base, t, Base)
  {
    Kept(Memory(q), Memory(q + {s}), q, t, head.root);
  }

  // ------------------------------------------------------------------------
  // The set operations
  // ------------------------------------------------------------------------

  lemma {:induction false} OrderNodes(t: Tree, x: Node)
    ensures x in Order(t) <==> x in Nodes(t)
  {
    if t.Leaf? {
    } else {
      OrderNodes(t.l, x);
      OrderNodes(t.r, x);
    }
  }

  /** After a splay only the root can have the key. */
  lemma {:induction false} OnlyRoot(head: Head, q: set<Node>, t: Tree, key: int)
    requires Holds(head, q, t) && Ready(t, key)
    ensures t.Bin? && head.root == t.node && t.node in q
    ensures forall x <- q :: x.key == key ==> x == t.node
  {
    hide Order;
    forall x <- q ensures x.key == key ==> x == t.node {
      OrderNodes(t, x);
      OrderNodes(t.l, x);
      OrderNodes(t.r, x);
    }
  }

  /** SPLAY_FIND */
  method Find(head: Head, key: int, ghost q: set<Node>, ghost t: Tree) returns (r: Node?, ghost u: Tree)
    requires Holds(head, q, t) && Sorted(Order(t))
    modifies head, q
    ensures Holds(head, q, u) && Order(u) == Order(t)
    ensures r != null ==> r in q && r.key == key
    ensures r == null ==> forall x <- q :: x.key != key
    ensures u == After(t, Finding(key))
  {
    hide Order, Sorted, Ready, Splayed, Levels;
    if head.root == null {
      return null, t;
    }
    ghost var rounds;
    u, rounds := Splay(head, key, q, t);
    OnlyRoot(head, q, u, key);
    r := if key == head.root.key then head.root else null;
  }

  /** `n` is the root of a tree in memory. */
  ghost predicate At(s: set<Node>, t: Tree, n: Node?)
    reads s
  {
    s == Nodes(t) && Distinct(t) && Below(Memory(s), t, n)
  }

  lemma {:induction false} AtBin(q: set<Node>, l: Tree, x: Node, r: Tree)
    requires x !in Nodes(l) && x !in Nodes(r) && Nodes(l) !! Nodes(r)
    requires q == Nodes(l) + Nodes(r) + {x} && At(Nodes(l), l, x.left) && At(Nodes(r), r, x.right)
    ensures At(q, Bin(l, x, r), x)
  {
    Kept(Memory(Nodes(l)), Memory(q), Nodes(l), l, x.left);
    Kept(Memory(Nodes(r)), Memory(q), Nodes(r), r, x.right);
  }

  lemma {:induction false} AtParts(q: set<Node>, t: Tree, n: Node?)
    requires At(q, t, n) && t.Bin?
    ensures n == t.node && t.node in q && q == Nodes(t.l) + Nodes(t.r) + {t.node}
    ensures t.node !in Nodes(t.l) && t.node !in Nodes(t.r) && Nodes(t.l) !! Nodes(t.r)
    ensures At(Nodes(t.l), t.l, t.node.left) && At(Nodes(t.r), t.r, t.node.right)
    ensures (t.node.left == null <==> t.l.Leaf?) && (t.node.right == null <==> t.r.Leaf?)
  {
    Kept(Memory(q), Memory(Nodes(t.l)), Nodes(t.l), t.l, t.node.left);
    Kept(Memory(q), Memory(Nodes(t.r)), Nodes(t.r), t.r, t.node.right);
  }

  lemma AtLeaf()
    ensures At({}, Leaf, null) && Nodes(Leaf) == {}
  {
  }

  /** A new node between the smaller and the greater ones. */
  lemma {:induction false} Joined(l: seq<Node>, x: Node, r: seq<Node>, o: seq<Node>, elm: Node)
    requires Sorted(o) && o == l + [x] + r && AllBelow(l, elm.key) && AllAbove(r, elm.key) && x.key != elm.key
    ensures var u := if elm.key < x.key then l + [elm] + ([x] + r) else l + [x] + [elm] + r;
            Sorted(u) && InsertedOne(o, elm, u)
  {
    hide Sorted;
    if elm.key < x.key {
      assert o[..|l|] == l && o[|l|..] == [x] + r;
      SortedWith(o, elm, |l|);
    } else {
      assert o[..|l| + 1] == l + [x] && o[|l| + 1..] == r;
      SortedWith(o, elm, |l| + 1);
    }
  }

  lemma {:induction false} SortedWith(o: seq<Node>, elm: Node, i: nat)
    requires Sorted(o) && i <= |o| && (forall y <- o[..i] :: y.key < elm.key) && (forall y <- o[i..] :: elm.key < y.key)
    ensures Sorted(o[..i] + [elm] + o[i..])
  {
    var u := o[..i] + [elm] + o[i..];
    forall j, k | 0 <= j < k < |u| ensures u[j].key < u[k].key {
      assert j < i ==> u[j] == o[j] && o[j] in o[..i];
      assert j > i ==> u[j] == o[j - 1];
      assert k < i ==> u[k] == o[k];
      assert k > i ==> u[k] == o[k - 1] && o[i..][k - 1 - i] == o[k - 1] && o[k - 1] in o[i..];
    }
  }

  /** `u` is `o` with `elm` put in. */
  ghost predicate InsertedOne(o: seq<Node>, elm: Node, u: seq<Node>) {
    exists i :: 0 <= i <= |o| && u == o[..i] + [elm] + o[i..]
  }

  /** `u` is `o` without its element of the key. */
  ghost predicate RemovedOne(o: seq<Node>, x: Node, u: seq<Node>) {
    exists i :: 0 <= i < |o| && o[i] == x && u == o[..i] + o[i + 1..]
  }

  /** The new node over the root, which keeps the greater nodes. */
  method HangLeft(root: Node, elm: Node, ghost q: set<Node>, ghost v: Tree)
    requires At(q, v, root) && v.Bin? && elm !in q
    modifies root, elm
    ensures At(q + {elm}, Bin(v.l, elm, Bin(Leaf, v.node, v.r)), elm)
  {
    hide At, Nodes;
    ghost var x, t := v.node, Bin(Leaf, v.node, v.r);
    AtParts(q, v, root);
    AtLeaf();
    elm.left := root.left;
    elm.right := root;
    root.left := null;
    Parted(Leaf, x, v.r);
    AtBin(Nodes(t), Leaf, x, v.r);
    AtBin(q + {elm}, v.l, elm, t);
  }

  /** The new node over the root, which keeps the smaller nodes. */
  method HangRight(root: Node, elm: Node, ghost q: set<Node>, ghost v: Tree)
    requires At(q, v, root) && v.Bin? && elm !in q
    modifies root, elm
    ensures At(q + {elm}, Bin(Bin(v.l, v.node, Leaf), elm, v.r), elm)
  {
    hide At, Nodes;
    ghost var x, t := v.node, Bin(v.l, v.node, Leaf);
    AtParts(q, v, root);
    AtLeaf();
    elm.right := root.right;
    elm.left := root;
    root.right := null;
    Parted(v.l, x, Leaf);
    AtBin(Nodes(t), v.l, x, Leaf);
    AtBin(q + {elm}, t, elm, v.r);
  }

  /** SPLAY_INSERT */
  method Insert(head: Head, elm: Node, ghost q: set<Node>, ghost t: Tree) returns (found: Node?, ghost u: Tree)
    requires Holds(head, q, t) && Sorted(Order(t))
    modifies head, q, elm
    ensures found != null ==> found in q && found.key == elm.key && Holds(head, q, u) && Order(u) == Order(t)
    ensures elm in q ==> found == elm
    ensures found == null ==>
              && (forall x <- q :: x.key != elm.key)
              && Holds(head, q + {elm}, u) && Sorted(Order(u)) && InsertedOne(Order(t), elm, Order(u))
    ensures u == After(t, Inserting(elm))
  {
    hide Order, Sorted, InsertedOne, Splayed, Levels, Ready, Holds, At;
    AtLeaf();
    HoldsEmpty(head, q, t);
    if head.root == null {
      elm.left, elm.right := null, null;
      u := Bin(Leaf, elm, Leaf);
      AtBin({elm}, Leaf, elm, Leaf);
      assert q + {elm} == {elm};
      InsertedFirst(elm);
    } else {
      ghost var v, rounds := Splay(head, elm.key, q, t);
      OnlyRoot(head, q, v, elm.key);
      HoldsAt(head, q, v);
      ghost var x := v.node;
      ReadyJoined(v, Order(t), elm);
      if elm.key < head.root.key {
        HangLeft(head.root, elm, q, v);
        u := Bin(v.l, elm, Bin(Leaf, x, v.r));
      } else if elm.key > head.root.key {
        HangRight(head.root, elm, q, v);
        u := Bin(Bin(v.l, x, Leaf), elm, v.r);
      } else {
        return head.root, v;
      }
    }
    head.root := elm;
    HoldsAt(head, q + {elm}, u);
    found := null;
  }

  lemma InsertedFirst(elm: Node)
    ensures var u := Order(Bin(Leaf, elm, Leaf)); Sorted(u) && InsertedOne(Order(Leaf), elm, u)
  {
    var o := Order(Leaf);
    assert Order(Bin(Leaf, elm, Leaf)) == o[..0] + [elm] + o[0..];
  }

  lemma {:induction false} ReadyJoined(v: Tree, o: seq<Node>, elm: Node)
    requires Ready(v, elm.key) && Sorted(o) && o == Order(v)
    ensures elm.key < v.node.key ==> var u := Order(Bin(v.l, elm, Bin(Leaf, v.node, v.r)));
              Sorted(u) && InsertedOne(o, elm, u)
    ensures v.node.key < elm.key ==> var u := Order(Bin(Bin(v.l, v.node, Leaf), elm, v.r));
              Sorted(u) && InsertedOne(o, elm, u)
  {
    hide Sorted, InsertedOne;
    var l, x, r := Order(v.l), v.node, Order(v.r);
    OrderBin(v.l, x, v.r);
    if elm.key < x.key {
      Joined(l, x, r, o, elm);
      OrderBin(Leaf, x, v.r);
      OrderBin(v.l, elm, Bin(Leaf, x, v.r));
      assert [] + [x] + r == [x] + r;
    } else if x.key < elm.key {
      Joined(l, x, r, o, elm);
      OrderBin(v.l, x, Leaf);
      OrderBin(Bin(v.l, x, Leaf), elm, v.r);
      assert l + [x] + [] == l + [x];
    }
  }

  /** A splay of nodes that are all smaller leaves nothing right of the root. */
  lemma {:induction false} NothingGreater(u: Tree, key: int)
    requires Ready(u, key) && AllBelow(Order(u), key)
    ensures u.r.Leaf?
  {
    hide Order;
    if u.r.Bin? {
      RootInOrder(u);
    }
  }

  lemma RootInOrder(u: Tree)
    requires u.Bin? && u.r.Bin?
    ensures u.r.node in Order(u.r) && u.r.node in Order(u)
  {
    assert Order(u.r)[|Order(u.r.l)|] == u.r.node;
  }

  lemma {:induction false} RootRemoved(v: Tree, o: seq<Node>, w: Tree)
    requires v.Bin? && o == Order(v)
    requires if v.l.Leaf? then w == v.r else w.Bin? && w.r == v.r && Order(Bin(w.l, w.node, Leaf)) == Order(v.l)
    ensures RemovedOne(o, v.node, Order(w))
  {
    OrderBin(v.l, v.node, v.r);
    var i := |Order(v.l)|;
    if v.l.Bin? {
      OrderBin(w.l, w.node, Leaf);
      OrderBin(w.l, w.node, w.r);
      assert Order(v.l) == Order(w.l) + [w.node];
    }
    assert Order(w) == Order(v.l) + Order(v.r);
    assert o[i] == v.node && o[..i] == Order(v.l) && o[i + 1..] == Order(v.r);
  }

  lemma HoldsAt(head: Head, q: set<Node>, t: Tree)
    ensures Holds(head, q, t) <==> At(q, t, head.root)
  {
  }

  lemma HoldsEmpty(head: Head, q: set<Node>, t: Tree)
    requires Holds(head, q, t)
    ensures head.root == null <==> t.Leaf?
    ensures t.Leaf? ==> q == {}
  {
  }

  /** SPLAY_REMOVE: takes the node of the key of `elm` out, and then returns `elm`. */
  method Remove(head: Head, elm: Node, ghost q: set<Node>, ghost t: Tree)
      returns (r: Node?, ghost u: Tree, ghost gone: Node)
    requires Holds(head, q, t) && Sorted(Order(t))
    modifies head, q
    ensures r == null ==> (forall x <- q :: x.key != elm.key) && Holds(head, q, u) && Order(u) == Order(t)
    ensures r != null ==>
              && r == elm && gone in q && gone.key == elm.key && (gone == elm <==> elm in q)
              && Holds(head, q - {gone}, u) && RemovedOne(Order(t), gone, Order(u))
    ensures u == After(t, Removing(elm.key))
  {
    hide Splayed, Levels;
    hide Holds, Order, Sorted, At, RemovedOne, Ready;
    HoldsEmpty(head, q, t);
    gone := elm;
    if head.root == null {
      return null, t, gone;
    }
    ghost var v, rounds := Splay(head, elm.key, q, t);
    OnlyRoot(head, q, v, elm.key);
    if elm.key != head.root.key {
      return null, v, gone;
    }
    HoldsAt(head, q, v);
    AtParts(q, v, head.root);
    gone := v.node;
    if head.root.left == null {
      AtLeaf();
      head.root := head.root.right;
      u := v.r;
    } else {
      var tmp := head.root.right;
      head.root := head.root.left;
      u := JoinRight(head, elm.key, tmp, v, Nodes(v.l), Nodes(v.r));
    }
    RootRemoved(v, Order(t), u);
    assert q - {gone} == Nodes(v.l) + Nodes(v.r);
    assert v.l.Leaf? ==> q - {gone} == Nodes(v.r);
    HoldsAt(head, q - {gone}, u);
    r := elm;
  }

  /** An input for which `Remove` returns a node that was not in the tree, while another one leaves it. */
  method RemoveStranger() returns (head: Head, x: Node, elm: Node, r: Node?)
    ensures x != elm && x.key == elm.key && r == elm && head.root == null
  {
    hide Order, Sorted, InsertedOne, RemovedOne, Holds, After;
    head := new Head();
    x := new Node(1);
    elm := new Node(1);
    HoldsNothing(head);
    ghost var t, u, gone;
    var found;
    found, t := Insert(head, x, {}, Leaf);
    assert {} + {x} == {x};
    r, u, gone := Remove(head, elm, {x}, t);
    assert {x} - {gone} == {};
    EmptyHead(head, u);
  }

  lemma HoldsNothing(head: Head)
    requires head.root == null
    ensures Holds(head, {}, Leaf) && Sorted(Order(Leaf))
  {
  }

  lemma EmptyHead(head: Head, t: Tree)
    requires Holds(head, {}, t)
    ensures head.root == null
  {
  }

  /** Splays the smaller nodes for the key, so that the greater ones can hang below their root. */
  method JoinRight(head: Head, key: int, tmp: Node?, ghost v: Tree, ghost p: set<Node>, ghost q: set<Node>)
      returns (ghost u: Tree)
    requires v.Bin? && v.l.Bin? && At(p, v.l, head.root) && At(q, v.r, tmp) && p !! q
    requires Ready(v, key) && Sorted(Order(v))
    modifies head, p
    ensures At(p + q, u, head.root) && u.Bin? && u.r == v.r && Order(Bin(u.l, u.node, Leaf)) == Order(v.l)
    ensures u == Bin(Splayed(v.l, key).l, Splayed(v.l, key).node, v.r)
  {
    hide Order, Sorted, Splayed, Levels, Below, Distinct;
    AtNodes(p, v.l, head.root);
    AtNodes(q, v.r, tmp);
    SortedLeft(v);
    ghost var w, rounds := Splay(head, key, p, v.l);
    assert At(q, v.r, tmp);
    NothingGreater(w, key);
    AtParts(p, w, head.root);
    head.root.right := tmp;
    u := Bin(w.l, w.node, v.r);
    AtBin(p + q, w.l, w.node, v.r);
    AtLeaf();
  }

  lemma AtNodes(s: set<Node>, t: Tree, n: Node?)
    requires At(s, t, n)
    ensures s == Nodes(t)
  {
  }

  lemma SortedLeft(v: Tree)
    requires v.Bin? && Sorted(Order(v))
    ensures Sorted(Order(v.l))
  {
    var i := |Order(v.l)|;
    assert Order(v)[..i] == Order(v.l);
    assert forall j, k :: 0 <= j < k < i ==> Order(v)[..i][j] == Order(v)[j] && Order(v)[..i][k] == Order(v)[k];
  }
}
