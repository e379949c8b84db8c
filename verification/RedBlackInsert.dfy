/** Insertion into a red-black tree.
    Models RB_INSERT_COLOR and RB_INSERT of ext/noderb_extension/libuv/include/uv-private/tree.h. */
module RedBlackInsert {
  import opened RedBlackTree
  import opened RedBlackLinks

  function Depth(c: Context): nat {
    if c.Top? then 0 else 1 + Depth(c.up)
  }

  /** The tree is balanced but for the red node at the root of `t`, which may have a red parent or be the root of all.
      */
  ghost predicate Fixing(c: Context, t: Tree, h: int, o: seq<Node>) {
    t.Bin? && t.red && Balanced(t, h) && BalancedAround(c, h) && Order(Plug(c, t)) == o
  }

  lemma {:induction false} SameOrder(c: Context, t: Tree, u: Tree)
    requires Order(t) == Order(u)
    ensures Order(Plug(c, t)) == Order(Plug(c, u))
  {
    OrderPlug(c, t);
    OrderPlug(c, u);
  }

  // ------------------------------------------------------------------------
  // The uncle is red
  // ------------------------------------------------------------------------

  function Recolored(t: Tree): Tree
    requires t.Bin? && t.l.Bin? && t.r.Bin?
  {
    Bin(t.l.(red := false), t.node, true, t.r.(red := false))
  }

  method Recolor(head: Head, tmp: Node, parent: Node, gparent: Node, ghost s: set<Node>, ghost c: Context,
      ghost t: Tree)
    requires Holds(head, s, Plug(c, t)) && t.Bin? && t.l.Bin? && t.r.Bin? && t.node == gparent
    requires (t.l.node == parent && t.r.node == tmp) || (t.l.node == tmp && t.r.node == parent)
    modifies s
    ensures Holds(head, s, Plug(c, Recolored(t)))
  {
    hide Holds;
    ghost var x := t.node;
    ghost var onLeft := t.l.node == parent;
    Paint(head, tmp, false, s,
          if onLeft then InRight(c, t.l, x, t.red) else InLeft(c, x, t.red, t.r), if onLeft then t.r else t.l);
    Paint(head, parent, false, s,
          if onLeft then InLeft(c, x, t.red, t.r.(red := false)) else InRight(c, t.l.(red := false), x, t.red),
          if onLeft then t.l else t.r);
    ghost var u := Bin(t.l.(red := false), x, t.red, t.r.(red := false));
    Paint(head, gparent, true, s, c, u);
  }

  /** Two steps up. */
  function Grandparent(c: Context, t: Tree): Tree
    requires !c.Top? && !c.up.Top?
  {
    var u := if c.InLeft? then Bin(t, c.node, c.red, c.r) else Bin(c.l, c.node, c.red, t);
    var d := c.up;
    if d.InLeft? then Bin(u, d.node, d.red, d.r) else Bin(d.l, d.node, d.red, u)
  }

  lemma {:induction false} RecoloredIsFixing(c: Context, t: Tree, h: int, o: seq<Node>)
    requires Fixing(c, t, h, o) && IsRedAbove(c) && !c.up.Top?
    requires IsRed(if c.up.InLeft? then c.up.r else c.up.l)
    ensures var g := Grandparent(c, t); g.l.Bin? && g.r.Bin? && Fixing(c.up.up, Recolored(g), h + 1, o)
  {
    hide Plug, Order;
    var g := Grandparent(c, t);
    assert Plug(c, t) == Plug(c.up.up, g) by { PlugTwice(c, t); }
    assert Order(g) == Order(Recolored(g)) by { RecoloredOrder(g); }
    SameOrder(c.up.up, g, Recolored(g));
    var u := if c.up.InLeft? then c.up.r else c.up.l;
    assert BalancedAround(c.up, h) && !c.up.red;
    assert BalancedAround(c.up.up, h + 1) && Balanced(u, h);
    assert Balanced(u.(red := false), h + 1);
    assert Balanced((if c.InLeft? then Bin(t, c.node, c.red, c.r) else Bin(c.l, c.node, c.red, t)).(red := false),
           h + 1);
  }

  lemma PlugTwice(c: Context, t: Tree)
    requires !c.Top? && !c.up.Top?
    ensures Plug(c, t) == Plug(c.up.up, Grandparent(c, t))
  {
  }

  lemma RecoloredOrder(t: Tree)
    requires t.Bin? && t.l.Bin? && t.r.Bin?
    ensures Order(t) == Order(Recolored(t))
  {
  }

  // ------------------------------------------------------------------------
  // The uncle is black: its parent is a left child
  // ------------------------------------------------------------------------

  /** The parent's subtree once `t` hangs on its outer side. */
  function OuterLeft(c: Context, t: Tree): Tree
    requires !c.Top? && t.Bin?
  {
    if c.InRight? then RotatedLeft(Bin(c.l, c.node, c.red, t)) else Bin(t, c.node, c.red, c.r)
  }

  lemma {:induction false} OuterLeftOrder(c: Context, t: Tree, o: seq<Node>)
    requires !c.Top? && t.Bin? && Order(Plug(c, t)) == o
    ensures Order(Plug(c.up, OuterLeft(c, t))) == o
  {
    if c.InRight? {
      SameOrder(c.up, Bin(c.l, c.node, c.red, t), OuterLeft(c, t));
    }
  }

  lemma {:induction false} TurnedRightOrder(c: Context, a: Tree, p: Node, b: Tree, g: Node, u: Tree)
    ensures Order(Plug(InLeft(c, p, false, Bin(b, g, true, u)), a))
            == Order(Plug(InLeft(c, g, false, u), Bin(a, p, true, b)))
  {
    SameOrder(c, Bin(a, p, false, Bin(b, g, true, u)), Bin(Bin(a, p, false, b), g, true, u));
    SameOrder(c, Bin(Bin(a, p, false, b), g, true, u), Bin(Bin(a, p, true, b), g, false, u));
  }

  method TurnRight(head: Head, elm: Node, parent: Node, gparent: Node, ghost s: set<Node>, ghost c: Context,
      ghost t: Tree, ghost h: int, ghost o: seq<Node>)
    returns (e: Node, ghost d: Context, ghost v: Tree)
    requires Holds(head, s, Plug(c, t)) && Fixing(c, t, h, o) && t.node == elm && IsRedAbove(c) && c.node == parent
    requires c.up.InLeft? && c.up.node == gparent && !IsRed(c.up.r) && parent in s
             && (parent.right == elm <==> c.InRight?)
    modifies head, s
    ensures Holds(head, s, Plug(d, v)) && Fixing(d, v, h, o) && v.node == e && Depth(d) < Depth(c) && !IsRedAbove(d)
  {
    hide Holds, Order;
    ghost var g, u, up := c.up.node, c.up.r, c.up.up;
    assert BalancedAround(c.up, h) && !c.up.red;
    var p := parent;
    e := elm;
    if parent.right == elm {
      var tmp := RotateLeft(head, parent, s, c.up, Bin(c.l, c.node, c.red, t));
      p := elm;
      e := parent;
    }
    OuterLeftOrder(c, t, o);
    ghost var q := OuterLeft(c, t);
    Paint(head, p, false, s, c.up, q);
    Paint(head, gparent, true, s, up, Bin(q.(red := false), g, false, u));
    var tmp := RotateRight(head, gparent, s, up, Bin(q.(red := false), g, true, u));
    d, v := InLeft(up, p, false, Bin(q.r, g, true, u)), q.l;
    TurnedRightOrder(up, q.l, p, q.r, g, u);
  }

  // ------------------------------------------------------------------------
  // The same on the right
  // ------------------------------------------------------------------------

  function OuterRight(c: Context, t: Tree): Tree
    requires !c.Top? && t.Bin?
  {
    if c.InLeft? then RotatedRight(Bin(t, c.node, c.red, c.r)) else Bin(c.l, c.node, c.red, t)
  }

  lemma {:induction false} OuterRightOrder(c: Context, t: Tree, o: seq<Node>)
    requires !c.Top? && t.Bin? && Order(Plug(c, t)) == o
    ensures Order(Plug(c.up, OuterRight(c, t))) == o
  {
    if c.InLeft? {
      SameOrder(c.up, Bin(t, c.node, c.red, c.r), OuterRight(c, t));
    }
  }

  lemma {:induction false} TurnedLeftOrder(c: Context, a: Tree, p: Node, b: Tree, g: Node, u: Tree)
    ensures Order(Plug(InRight(c, Bin(u, g, true, b), p, false), a))
            == Order(Plug(InRight(c, u, g, false), Bin(b, p, true, a)))
  {
    SameOrder(c, Bin(Bin(u, g, true, b), p, false, a), Bin(u, g, true, Bin(b, p, false, a)));
    SameOrder(c, Bin(u, g, true, Bin(b, p, false, a)), Bin(u, g, false, Bin(b, p, true, a)));
  }

  method TurnLeft(head: Head, elm: Node, parent: Node, gparent: Node, ghost s: set<Node>, ghost c: Context,
      ghost t: Tree, ghost h: int, ghost o: seq<Node>)
    returns (e: Node, ghost d: Context, ghost v: Tree)
    requires Holds(head, s, Plug(c, t)) && Fixing(c, t, h, o) && t.node == elm && IsRedAbove(c) && c.node == parent
    requires c.up.InRight? && c.up.node == gparent && !IsRed(c.up.l) && parent in s
             && (parent.left == elm <==> c.InLeft?)
    modifies head, s
    ensures Holds(head, s, Plug(d, v)) && Fixing(d, v, h, o) && v.node == e && Depth(d) < Depth(c) && !IsRedAbove(d)
  {
    hide Holds, Order;
    ghost var g, u, up := c.up.node, c.up.l, c.up.up;
    assert BalancedAround(c.up, h) && !c.up.red;
    var p := parent;
    e := elm;
    if parent.left == elm {
      var tmp := RotateRight(head, parent, s, c.up, Bin(t, c.node, c.red, c.r));
      p := elm;
      e := parent;
    }
    OuterRightOrder(c, t, o);
    ghost var q := OuterRight(c, t);
    Paint(head, p, false, s, c.up, q);
    Paint(head, gparent, true, s, up, Bin(u, g, false, q.(red := false)));
    var tmp := RotateLeft(head, gparent, s, up, Bin(u, g, true, q.(red := false)));
    d, v := InRight(up, Bin(u, g, true, q.l), p, false), q.r;
    TurnedLeftOrder(up, q.r, p, q.l, g, u);
  }

  // ------------------------------------------------------------------------
  // RB_INSERT_COLOR
  // ------------------------------------------------------------------------

  /** What the loop reads about the parent, the grandparent and the uncle. */
  lemma {:induction false} ReadsAbove(head: Head, s: set<Node>, c: Context, t: Tree, h: int)
    requires Holds(head, s, Plug(c, t)) && t.Bin? && t.red && BalancedAround(c, h) && IsRedAbove(c)
    ensures var p := c.node; p in s && (p.left == t.node <==> c.InLeft?) && (p.right == t.node <==> c.InRight?)
    ensures !c.up.Top? && c.node.parent == c.up.node
    ensures var p, g, u := c.node, c.up.node, if c.up.InLeft? then c.up.r else c.up.l;
            && g in s && (g.left == p <==> c.up.InLeft?) && (c.up.InLeft? ==> g.right == Root(u))
                && (c.up.InRight? ==> g.left == Root(u))
            && (Root(u) != null ==> Root(u) in s && Root(u).red == u.red)
  {
    hide Holds;
    var v := if c.InLeft? then Bin(t, c.node, c.red, c.r) else Bin(c.l, c.node, c.red, t);
    var g, p := Grandparent(c, t), c.node;
    assert Plug(c, t) == Plug(c.up, v) && !c.up.Top?;
    assert Plug(c.up, v) == Plug(c.up.up, g);
    Reads(head, s, c, t);
    Reads(head, s, c.up, v);
    Reads(head, s, c.up.up, g);
    assert p.left == Root(v.l) && p.right == Root(v.r) by { assert v.node == p; }
    if c.up.InLeft? && c.up.r.Bin? {
      Reads(head, s, InRight(c.up.up, g.l, g.node, g.red), g.r);
    }
    if c.up.InRight? && c.up.l.Bin? {
      Reads(head, s, InLeft(c.up.up, g.node, g.red, g.r), g.l);
    }
  }

  lemma {:induction false} ReadsParent(head: Head, s: set<Node>, c: Context, t: Tree)
    requires Holds(head, s, Plug(c, t)) && t.Bin?
    ensures !c.Top? ==> c.node in s && c.node.red == c.red
  {
    hide Holds;
    if !c.Top? {
      var v := if c.InLeft? then Bin(t, c.node, c.red, c.r) else Bin(c.l, c.node, c.red, t);
      assert Plug(c, t) == Plug(c.up, v);
      Reads(head, s, c.up, v);
    }
  }

  lemma {:induction false} PlugBin(c: Context, t: Tree)
    requires t.Bin?
    ensures Plug(c, t).Bin?
    decreases c
  {
    match c {
      case Top =>
      case InLeft(up, x, red, r) => PlugBin(up, Bin(t, x, red, r));
      case InRight(up, l, x, red) => PlugBin(up, Bin(l, x, red, t));
    }
  }

  /** With no red parent above, painting the root of all black is enough. */
  lemma {:induction false} BlackRoot(c: Context, t: Tree, h: int)
    requires Balanced(t, h) && BalancedAround(c, h) && t.Bin? && t.red && !IsRedAbove(c)
    ensures var v := Plug(c, t); v.Bin? && RedBlack(v.(red := false)) && Order(v.(red := false)) == Order(v)
  {
    PlugBin(c, t);
    if c.Top? {
      assert Balanced(t.(red := false), h + 1);
    } else {
      BalancedPlug(c, t, h);
    }
  }

  /** RB_INSERT_COLOR: restores the balance, which only the new red node disturbs. */
  method InsertColor(head: Head, elm0: Node, ghost s: set<Node>, ghost c0: Context, ghost t0: Tree, ghost h0: int)
      returns (ghost u: Tree)
    requires Holds(head, s, Plug(c0, t0)) && Fixing(c0, t0, h0, Order(Plug(c0, t0))) && t0.node == elm0
    modifies head, s
    ensures Holds(head, s, u) && RedBlack(u) && Order(u) == Order(Plug(c0, t0))
  {
    hide Holds, Order;
    var elm := elm0;
    ghost var o, c, t, h := Order(Plug(c0, t0)), c0, t0, h0;
    Reads(head, s, c, t);
    ReadsParent(head, s, c, t);
    while elm.parent != null && elm.parent.red
      invariant Holds(head, s, Plug(c, t)) && Fixing(c, t, h, o) && t.node == elm && elm in s && elm.parent == Parent(c)
      invariant !c.Top? ==> c.node in s && c.node.red == c.red
      decreases Depth(c)
    {
      var parent := elm.parent;
      ReadsAbove(head, s, c, t, h);
      var gparent := parent.parent;
      var tmp := if parent == gparent.left then gparent.right else gparent.left;
      if tmp != null && tmp.red {
        PlugTwice(c, t);
        RecoloredIsFixing(c, t, h, o);
        Recolor(head, tmp, parent, gparent, s, c.up.up, Grandparent(c, t));
        assert Depth(c) == 2 + Depth(c.up.up);
        c, t, h, elm := c.up.up, Recolored(Grandparent(c, t)), h + 1, gparent;
      } else if parent == gparent.left {
        elm, c, t := TurnRight(head, elm, parent, gparent, s, c, t, h, o);
      } else {
        elm, c, t := TurnLeft(head, elm, parent, gparent, s, c, t, h, o);
      }
      Reads(head, s, c, t);
      ReadsParent(head, s, c, t);
    }
    BlackRoot(c, t, h);
    ghost var v := Plug(c, t);
    u := v.(red := false);
    Reads(head, s, Top, v);
    Paint(head, head.root, false, s, Top, v);
  }

  // ------------------------------------------------------------------------
  // RB_INSERT
  // ------------------------------------------------------------------------

  /** The place `c` is where `key` belongs. */
  ghost predicate Leads(c: Context, key: int) {
    (forall x <- Before(c) :: x.key < key) && (forall x <- After(c) :: key < x.key)
  }

  lemma {:induction false} OrderNodes(t: Tree, x: Node)
    ensures x in Order(t) <==> x in Nodes(t)
  {
    if t.Leaf? {
    } else {
      OrderNodes(t.l, x);
      OrderNodes(t.r, x);
    }
  }

  lemma {:induction false} SortedMiddle(a: seq<Node>, b: seq<Node>, x: Node, d: seq<Node>, e: seq<Node>)
    requires Sorted(a + (b + [x] + d) + e)
    ensures (forall y <- b :: y.key < x.key) && (forall y <- d :: x.key < y.key)
  {
    var s, i := a + (b + [x] + d) + e, |a| + |b|;
    assert s[i] == x;
    forall y <- b ensures y.key < x.key {
      var j :| 0 <= j < |b| && b[j] == y;
      assert s[|a| + j] == y;
    }
    forall y <- d ensures x.key < y.key {
      var j :| 0 <= j < |d| && d[j] == y;
      assert s[i + 1 + j] == y;
    }
  }

  /** What is left of the root of a sorted subtree, and what is right of it. */
  lemma {:induction false} LeadsOn(c: Context, t: Tree, key: int)
    requires Sorted(Order(Plug(c, t))) && Leads(c, key) && t.Bin?
    ensures key < t.node.key ==> Leads(InLeft(c, t.node, t.red, t.r), key)
    ensures key > t.node.key ==> Leads(InRight(c, t.l, t.node, t.red), key)
  {
    hide Plug, Sorted;
    OrderPlug(c, t);
    SortedMiddle(Before(c), Order(t.l), t.node, Order(t.r), After(c));
  }

  lemma {:induction false} SortedAround(a: seq<Node>, x: Node, b: seq<Node>)
    requires Sorted(a + b) && (forall y <- a :: y.key < x.key) && (forall y <- b :: x.key < y.key)
    ensures Sorted(a + [x] + b)
  {
    var s := a + [x] + b;
    forall i, j | 0 <= i < j < |s| ensures s[i].key < s[j].key {
      var p, q := if i < |a| then i else i - 1, if j < |a| then j else j - 1;
      assert i != |a| ==> s[i] == (a + b)[p];
      assert j != |a| ==> s[j] == (a + b)[q];
    }
  }

  lemma {:induction false} InsertedOrder(c: Context, elm: Node)
    requires Sorted(Order(Plug(c, Leaf))) && Leads(c, elm.key)
    ensures var o, u := Order(Plug(c, Leaf)), Order(Plug(c, Bin(Leaf, elm, true, Leaf)));
            Sorted(u) && |Before(c)| <= |o| && u == o[..|Before(c)|] + [elm] + o[|Before(c)|..]
    ensures forall x <- Nodes(Plug(c, Leaf)) :: x.key != elm.key
  {
    hide Plug, Sorted;
    var t, o := Bin(Leaf, elm, true, Leaf), Order(Plug(c, Leaf));
    OrderPlug(c, Leaf);
    OrderPlug(c, t);
    assert Order(t) == [elm];
    assert o == Before(c) + After(c);
    SortedAround(Before(c), elm, After(c));
    forall x <- Nodes(Plug(c, Leaf)) ensures x.key != elm.key {
      OrderNodes(Plug(c, Leaf), x);
      assert x in Before(c) + After(c);
    }
  }

  /** A new red leaf keeps the balance, but for its own color. */
  lemma {:induction false} InsertedBalance(c: Context, elm: Node) returns (h: int)
    requires RedBlack(Plug(c, Leaf))
    ensures Balanced(Bin(Leaf, elm, true, Leaf), h) && BalancedAround(c, h)
  {
    h := BalancedUnplug(c, Leaf);
    assert Balanced(Bin(Leaf, elm, true, Leaf), h);
  }

  /** A sorted tree has one node of a key. */
  lemma {:induction false} OneNode(head: Head, s: set<Node>, t: Tree, x: Node, y: Node)
    requires Holds(head, s, t) && Sorted(Order(t)) && x.key == y.key
    ensures x in s && y in s ==> x == y
  {
    OrderNodes(t, x);
    OrderNodes(t, y);
  }

  /** RB_INSERT: puts `elm` in its place, unless a node with its key, or `elm` itself, is there. */
  method Insert(head: Head, elm: Node, ghost s: set<Node>, ghost t: Tree)
      returns (found: Node?, ghost u: Tree, ghost i: nat)
    requires Holds(head, s, t) && RedBlack(t) && Sorted(Order(t))
    modifies head, s, elm
    ensures found != null ==> found in s && found.key == elm.key && u == t && Holds(head, s, t)
    ensures elm in s ==> found == elm
    ensures found == null ==>
              && (forall x <- s :: x.key != elm.key)
              && Holds(head, s + {elm}, u) && RedBlack(u) && Sorted(Order(u))
              && i <= |Order(t)| && Order(u) == Order(t)[..i] + [elm] + Order(t)[i..]
  {
    hide Order, RedBlack, Sorted, Balanced, BalancedAround;
    var parent: Node? := null;
    var comp := 0;
    var tmp := head.root;
    ghost var c, v := Top, t;
    ReadsHole(head, s, c, v);
    while tmp != null
      invariant Holds(head, s, t) && t == Plug(c, v) && tmp == Root(v) && parent == Parent(c) && Leads(c, elm.key)
      invariant parent != null ==> (comp < 0 <==> c.InLeft?)
      invariant head.root == old(head.root)
      decreases v
    {
      parent := tmp;
      comp := elm.key - parent.key;
      LeadsOn(c, v, elm.key);
      Reads(head, s, c, v);
      if comp < 0 {
        tmp := tmp.left;
        c, v := InLeft(c, v.node, v.red, v.r), v.l;
      } else if comp > 0 {
        tmp := tmp.right;
        c, v := InRight(c, v.l, v.node, v.red), v.r;
      } else {
        OneNode(head, s, t, elm, tmp);
        return tmp, t, 0;
      }
    }
    InsertedOrder(c, elm);
    Graft(head, elm, parent, comp < 0, s, c);
    ghost var n := Bin(Leaf, elm, true, Leaf);
    ghost var h := InsertedBalance(c, elm);
    u := InsertColor(head, elm, s + {elm}, c, n, h);
    found, i := null, |Before(c)|;
  }

}
