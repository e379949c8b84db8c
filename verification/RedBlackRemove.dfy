/** Removal from a red-black tree.
    Models RB_REMOVE_COLOR and RB_REMOVE of ext/noderb_extension/libuv/include/uv-private/tree.h. */
module RedBlackRemove {
  import opened RedBlackTree
  import opened RedBlackLinks
  import opened RedBlackInsert

  /** One black node is missing on every path through the hole, unless the red root of `t` is painted black. */
  ghost predicate Lacking(c: Context, t: Tree, h: int, o: seq<Node>) {
    && BalancedAround(c, h + 1) && Order(Plug(c, t)) == o
    && if IsRed(t) then Balanced(t.(red := false), h + 1) else Balanced(t, h)
  }

  /** The sibling of a black node that lacks a black node is not empty. */
  lemma {:induction false} SiblingThere(c: Context, t: Tree, h: int, o: seq<Node>)
    requires Lacking(c, t, h, o) && !c.Top? && !IsRed(t)
    ensures h >= 0
    ensures c.InLeft? ==> c.r.Bin? && Balanced(c.r, h + 1)
    ensures c.InRight? ==> c.l.Bin? && Balanced(c.l, h + 1)
  {
    BlackHeightBounds(t, h);
  }

  // ------------------------------------------------------------------------
  // On the left
  // ------------------------------------------------------------------------

  function RedSiblingLeft(c: Context): Context
    requires c.InLeft? && c.r.Bin?
  {
    InLeft(InLeft(c.up, c.r.node, false, c.r.r), c.node, true, c.r.l)
  }

  lemma {:induction false} RedSiblingLeftIsLacking(c: Context, t: Tree, h: int, o: seq<Node>)
    requires Lacking(c, t, h, o) && !IsRed(t) && c.InLeft? && IsRed(c.r)
    ensures Lacking(RedSiblingLeft(c), t, h, o) && !IsRed(c.r.l) && c.r.l.Bin? && !c.red && Balanced(c.r.l, h + 1)
            && h >= 0
  {
    var w := c.r;
    SiblingThere(c, t, h, o);
    BlackHeightBounds(w.l, h + 1);
    assert w == Bin(w.l, w.node, w.red, w.r) && Order(w) == Order(w.(red := false));
    SameOrder(c.up, Bin(t, c.node, false, w), Bin(Bin(t, c.node, true, w.l), w.node, false, w.r));
    var d := RedSiblingLeft(c);
    assert !c.red && BalancedAround(c.up, h + 2);
    assert BalancedAround(d.up, h + 1);
    assert BalancedAround(d, h + 1);
    assert Order(Plug(d, t)) == o;
  }

  method RotateRedSiblingLeft(head: Head, parent: Node, sibling: Node, ghost s: set<Node>, ghost c: Context,
      ghost t: Tree, ghost h: int, ghost o: seq<Node>)
    returns (tmp: Node)
    requires Holds(head, s, Plug(c, t)) && Lacking(c, t, h, o) && !IsRed(t) && c.InLeft? && c.node == parent
             && IsRed(c.r) && c.r.node == sibling
    modifies head, s
    ensures var d := RedSiblingLeft(c);
            && Holds(head, s, Plug(d, t)) && Lacking(d, t, h, o) && d.r.Bin? && !IsRed(d.r) && d.r.node == tmp && h >= 0
  {
    hide Holds, Order;
    RedSiblingLeftIsLacking(c, t, h, o);
    ghost var w := c.r;
    Paint(head, sibling, false, s, InRight(c.up, t, c.node, c.red), w);
    Paint(head, parent, true, s, c.up, Bin(t, c.node, c.red, w.(red := false)));
    var top := RotateLeft(head, parent, s, c.up, Bin(t, c.node, true, w.(red := false)));
    Reads(head, s, RedSiblingLeft(c).up, Bin(t, c.node, true, w.l));
    tmp := parent.right;
  }

  /** A black sibling with a red right child: its left child, if that is the red one, takes its place. */
  function OuterRedLeft(w: Tree): Tree
    requires w.Bin? && (IsRed(w.r) || IsRed(w.l))
  {
    if IsRed(w.r) then w else Bin(w.l.l, w.l.node, false, Bin(w.l.r, w.node, true, w.r))
  }

  function TurnedOverLeft(c: Context, t: Tree): Tree
    requires c.InLeft? && c.r.Bin? && (IsRed(c.r.r) || IsRed(c.r.l))
  {
    var w := OuterRedLeft(c.r);
    Bin(Bin(t, c.node, false, w.l), w.node, c.red, w.r.(red := false))
  }

  lemma {:induction false} OuterRedLeftIsBalanced(w: Tree, h: int)
    requires w.Bin? && !w.red && Balanced(w, h + 1) && (IsRed(w.r) || IsRed(w.l))
    ensures var v := OuterRedLeft(w); Balanced(v, h + 1) && !v.red && IsRed(v.r) && Order(v) == Order(w)
  {
    if !IsRed(w.r) {
      assert Balanced(w.l, h) && Balanced(w.r, h) && Balanced(w.l.l, h) && Balanced(w.l.r, h);
      assert Balanced(Bin(w.l.r, w.node, true, w.r), h);
    }
  }

  lemma {:induction false} TurnedOverLeftIsBalanced(c: Context, t: Tree, h: int, o: seq<Node>)
    requires Lacking(c, t, h, o) && !IsRed(t) && c.InLeft? && c.r.Bin? && !c.r.red && (IsRed(c.r.r) || IsRed(c.r.l))
    ensures var u := Plug(c.up, TurnedOverLeft(c, t)); RedBlack(u) && Order(u) == o
  {
    hide Plug, Order;
    var v, u := OuterRedLeft(c.r), TurnedOverLeft(c, t);
    OuterRedLeftIsBalanced(c.r, h);
    assert Balanced(v.l, h) && Balanced(v.r, h) && Balanced(v.r.(red := false), h + 1);
    assert Balanced(Bin(t, c.node, false, v.l), h + 1);
    BalancedPlug(c.up, u, if c.red then h + 1 else h + 2);
    TurnedOverLeftOrder(c, t);
  }

  lemma {:induction false} TurnedOverLeftOrder(c: Context, t: Tree)
    requires c.InLeft? && c.r.Bin? && (IsRed(c.r.r) || IsRed(c.r.l))
    requires Order(OuterRedLeft(c.r)) == Order(c.r) && IsRed(OuterRedLeft(c.r).r)
    ensures Order(Plug(c.up, TurnedOverLeft(c, t))) == Order(Plug(c, t))
  {
    var v, x := OuterRedLeft(c.r), c.node;
    assert v == Bin(v.l, v.node, v.red, v.r);
    SameOrder(c.up, Bin(t, x, c.red, c.r), TurnedOverLeft(c, t));
  }

  /** Turns a black sibling over when its right child is black and its left child red. */
  method RotateInnerRedLeft(head: Head, parent: Node, sibling: Node, ghost s: set<Node>, ghost c: Context,
      ghost t: Tree) returns (tmp: Node)
    requires Holds(head, s, Plug(c, t)) && c.InLeft? && c.node == parent && c.r.Bin? && c.r.node == sibling
    requires !c.r.red && !IsRed(c.r.r) && IsRed(c.r.l)
    modifies head, s
    ensures Holds(head, s, Plug(c.(r := OuterRedLeft(c.r)), t)) && tmp == OuterRedLeft(c.r).node
  {
    hide Holds;
    ghost var w, d := c.r, InRight(c.up, t, c.node, c.red);
    Reads(head, s, d, w);
    var inner := sibling.left;
    if inner != null {
      Paint(head, inner, false, s, InLeft(d, w.node, w.red, w.r), w.l);
    }
    ghost var b := w.l.(red := false);
    Paint(head, sibling, true, s, d, Bin(b, w.node, w.red, w.r));
    inner := RotateRight(head, sibling, s, d, Bin(b, w.node, true, w.r));
    ghost var v := OuterRedLeft(w);
    assert Plug(d, v) == Plug(c.up, Bin(t, c.node, c.red, v));
    Reads(head, s, c.up, Bin(t, c.node, c.red, v));
    tmp := parent.right;
  }

  /** A black sibling with a red child: one or two rotations give the missing black node. */
  method RotateBlackSiblingLeft(head: Head, parent: Node, sibling: Node, ghost s: set<Node>, ghost c: Context,
      ghost t: Tree, ghost h: int, ghost o: seq<Node>)
    requires Holds(head, s, Plug(c, t)) && Lacking(c, t, h, o) && !IsRed(t) && c.InLeft? && c.node == parent
    requires c.r.Bin? && !c.r.red && (IsRed(c.r.r) || IsRed(c.r.l)) && c.r.node == sibling
    requires sibling.right != null ==> sibling.right in s
    requires (sibling.right == null || !sibling.right.red) <==> !IsRed(c.r.r)
    modifies head, s
    ensures var u := Plug(c.up, TurnedOverLeft(c, t)); Holds(head, s, u) && RedBlack(u) && Order(u) == o
  {
    hide Holds, Order, Lacking;
    var tmp := sibling;
    if tmp.right == null || !tmp.right.red {
      tmp := RotateInnerRedLeft(head, parent, tmp, s, c, t);
    }
    ghost var v := OuterRedLeft(c.r);
    TurnedOverLeftIsBalanced(c, t, h, o);
    ghost var d := InRight(c.up, t, c.node, c.red);
    Reads(head, s, c.up, Bin(t, c.node, c.red, v));
    Paint(head, tmp, parent.red, s, d, v);
    Paint(head, parent, false, s, c.up, Bin(t, c.node, c.red, v.(red := c.red)));
    d := InRight(c.up, t, c.node, false);
    Reads(head, s, d, v.(red := c.red));
    if tmp.right != null {
      Paint(head, tmp.right, false, s, InRight(d, v.l, v.node, c.red), v.r);
    }
    tmp := RotateLeft(head, parent, s, c.up, Bin(t, c.node, false, Bin(v.l, v.node, c.red, v.r.(red := false))));
  }

  // ------------------------------------------------------------------------
  // On the right
  // ------------------------------------------------------------------------

  function RedSiblingRight(c: Context): Context
    requires c.InRight? && c.l.Bin?
  {
    InRight(InRight(c.up, c.l.l, c.l.node, false), c.l.r, c.node, true)
  }

  lemma {:induction false} RedSiblingRightIsLacking(c: Context, t: Tree, h: int, o: seq<Node>)
    requires Lacking(c, t, h, o) && !IsRed(t) && c.InRight? && IsRed(c.l)
    ensures Lacking(RedSiblingRight(c), t, h, o) && !IsRed(c.l.r) && c.l.r.Bin? && !c.red && Balanced(c.l.r, h + 1)
            && h >= 0
  {
    var w := c.l;
    SiblingThere(c, t, h, o);
    BlackHeightBounds(w.r, h + 1);
    assert w == Bin(w.l, w.node, w.red, w.r) && Order(w) == Order(w.(red := false));
    SameOrder(c.up, Bin(w, c.node, false, t), Bin(w.l, w.node, false, Bin(w.r, c.node, true, t)));
    var d := RedSiblingRight(c);
    assert !c.red && BalancedAround(c.up, h + 2);
    assert BalancedAround(d.up, h + 1);
    assert BalancedAround(d, h + 1);
    assert Order(Plug(d, t)) == o;
  }

  method RotateRedSiblingRight(head: Head, parent: Node, sibling: Node, ghost s: set<Node>, ghost c: Context,
      ghost t: Tree, ghost h: int, ghost o: seq<Node>)
    returns (tmp: Node)
    requires Holds(head, s, Plug(c, t)) && Lacking(c, t, h, o) && !IsRed(t) && c.InRight? && c.node == parent
             && IsRed(c.l) && c.l.node == sibling
    modifies head, s
    ensures var d := RedSiblingRight(c);
            && Holds(head, s, Plug(d, t)) && Lacking(d, t, h, o) && d.l.Bin? && !IsRed(d.l) && d.l.node == tmp && h >= 0
  {
    hide Holds, Order;
    RedSiblingRightIsLacking(c, t, h, o);
    ghost var w := c.l;
    Paint(head, sibling, false, s, InLeft(c.up, c.node, c.red, t), w);
    Paint(head, parent, true, s, c.up, Bin(w.(red := false), c.node, c.red, t));
    var top := RotateRight(head, parent, s, c.up, Bin(w.(red := false), c.node, true, t));
    Reads(head, s, RedSiblingRight(c).up, Bin(w.r, c.node, true, t));
    tmp := parent.left;
  }

  function OuterRedRight(w: Tree): Tree
    requires w.Bin? && (IsRed(w.l) || IsRed(w.r))
  {
    if IsRed(w.l) then w else Bin(Bin(w.l, w.node, true, w.r.l), w.r.node, false, w.r.r)
  }

  function TurnedOverRight(c: Context, t: Tree): Tree
    requires c.InRight? && c.l.Bin? && (IsRed(c.l.l) || IsRed(c.l.r))
  {
    var w := OuterRedRight(c.l);
    Bin(w.l.(red := false), w.node, c.red, Bin(w.r, c.node, false, t))
  }

  lemma {:induction false} OuterRedRightIsBalanced(w: Tree, h: int)
    requires w.Bin? && !w.red && Balanced(w, h + 1) && (IsRed(w.l) || IsRed(w.r))
    ensures var v := OuterRedRight(w); Balanced(v, h + 1) && !v.red && IsRed(v.l) && Order(v) == Order(w)
  {
    if !IsRed(w.l) {
      assert Balanced(w.r, h) && Balanced(w.l, h) && Balanced(w.r.l, h) && Balanced(w.r.r, h);
      assert Balanced(Bin(w.l, w.node, true, w.r.l), h);
    }
  }

  lemma {:induction false} TurnedOverRightIsBalanced(c: Context, t: Tree, h: int, o: seq<Node>)
    requires Lacking(c, t, h, o) && !IsRed(t) && c.InRight? && c.l.Bin? && !c.l.red && (IsRed(c.l.l) || IsRed(c.l.r))
    ensures var u := Plug(c.up, TurnedOverRight(c, t)); RedBlack(u) && Order(u) == o
  {
    hide Plug, Order;
    var v, u := OuterRedRight(c.l), TurnedOverRight(c, t);
    OuterRedRightIsBalanced(c.l, h);
    assert Balanced(v.r, h) && Balanced(v.l, h) && Balanced(v.l.(red := false), h + 1);
    assert Balanced(Bin(v.r, c.node, false, t), h + 1);
    BalancedPlug(c.up, u, if c.red then h + 1 else h + 2);
    TurnedOverRightOrder(c, t);
  }

  lemma {:induction false} TurnedOverRightOrder(c: Context, t: Tree)
    requires c.InRight? && c.l.Bin? && (IsRed(c.l.l) || IsRed(c.l.r))
    requires Order(OuterRedRight(c.l)) == Order(c.l) && IsRed(OuterRedRight(c.l).l)
    ensures Order(Plug(c.up, TurnedOverRight(c, t))) == Order(Plug(c, t))
  {
    var v, x := OuterRedRight(c.l), c.node;
    assert v == Bin(v.l, v.node, v.red, v.r);
    SameOrder(c.up, Bin(c.l, x, c.red, t), TurnedOverRight(c, t));
  }

  method RotateInnerRedRight(head: Head, parent: Node, sibling: Node, ghost s: set<Node>, ghost c: Context,
      ghost t: Tree) returns (tmp: Node)
    requires Holds(head, s, Plug(c, t)) && c.InRight? && c.node == parent && c.l.Bin? && c.l.node == sibling
    requires !c.l.red && !IsRed(c.l.l) && IsRed(c.l.r)
    modifies head, s
    ensures Holds(head, s, Plug(c.(l := OuterRedRight(c.l)), t)) && tmp == OuterRedRight(c.l).node
  {
    hide Holds;
    ghost var w, d := c.l, InLeft(c.up, c.node, c.red, t);
    Reads(head, s, d, w);
    var inner := sibling.right;
    if inner != null {
      Paint(head, inner, false, s, InRight(d, w.l, w.node, w.red), w.r);
    }
    ghost var b := w.r.(red := false);
    Paint(head, sibling, true, s, d, Bin(w.l, w.node, w.red, b));
    inner := RotateLeft(head, sibling, s, d, Bin(w.l, w.node, true, b));
    ghost var v := OuterRedRight(w);
    assert Plug(d, v) == Plug(c.up, Bin(v, c.node, c.red, t));
    Reads(head, s, c.up, Bin(v, c.node, c.red, t));
    tmp := parent.left;
  }

  method RotateBlackSiblingRight(head: Head, parent: Node, sibling: Node, ghost s: set<Node>, ghost c: Context,
      ghost t: Tree, ghost h: int, ghost o: seq<Node>)
    requires Holds(head, s, Plug(c, t)) && Lacking(c, t, h, o) && !IsRed(t) && c.InRight? && c.node == parent
    requires c.l.Bin? && !c.l.red && (IsRed(c.l.l) || IsRed(c.l.r)) && c.l.node == sibling
    requires sibling.left != null ==> sibling.left in s
    requires (sibling.left == null || !sibling.left.red) <==> !IsRed(c.l.l)
    modifies head, s
    ensures var u := Plug(c.up, TurnedOverRight(c, t)); Holds(head, s, u) && RedBlack(u) && Order(u) == o
  {
    hide Holds, Order, Lacking;
    var tmp := sibling;
    if tmp.left == null || !tmp.left.red {
      tmp := RotateInnerRedRight(head, parent, tmp, s, c, t);
    }
    ghost var v := OuterRedRight(c.l);
    TurnedOverRightIsBalanced(c, t, h, o);
    ghost var d := InLeft(c.up, c.node, c.red, t);
    Reads(head, s, c.up, Bin(v, c.node, c.red, t));
    Paint(head, tmp, parent.red, s, d, v);
    Paint(head, parent, false, s, c.up, Bin(v.(red := c.red), c.node, c.red, t));
    d := InLeft(c.up, c.node, false, t);
    Reads(head, s, d, v.(red := c.red));
    if tmp.left != null {
      Paint(head, tmp.left, false, s, InLeft(d, v.node, c.red, v.r), v.l);
    }
    tmp := RotateRight(head, parent, s, c.up, Bin(Bin(v.l.(red := false), v.node, c.red, v.r), c.node, false, t));
  }

  // ------------------------------------------------------------------------
  // RB_REMOVE_COLOR
  // ------------------------------------------------------------------------

  function Sibling(c: Context): Tree
    requires !c.Top?
  {
    if c.InLeft? then c.r else c.l
  }

  /** The sibling painted red: the whole subtree of the parent now lacks a black node. */
  function Shortened(c: Context, t: Tree): Tree
    requires !c.Top? && Sibling(c).Bin?
  {
    if c.InLeft? then Bin(t, c.node, c.red, c.r.(red := true)) else Bin(c.l.(red := true), c.node, c.red, t)
  }

  lemma {:induction false} ShortenedIsLacking(c: Context, t: Tree, h: int, o: seq<Node>)
    requires Lacking(c, t, h, o) && !IsRed(t) && !c.Top? && Sibling(c).Bin?
    requires var w := Sibling(c); !w.red && !IsRed(w.l) && !IsRed(w.r)
    ensures Lacking(c.up, Shortened(c, t), if c.red then h else h + 1, o)
  {
    var w, x := Sibling(c), c.node;
    assert Balanced(w, h + 1) && Balanced(w.(red := true), h);
    if c.InLeft? {
      SameOrder(c.up, Bin(t, x, c.red, w), Shortened(c, t));
    } else {
      SameOrder(c.up, Bin(w, x, c.red, t), Shortened(c, t));
    }
    assert Balanced(Shortened(c, t).(red := false), h + 1);
  }

  /** What the loop reads at the sibling. */
  lemma {:induction false} ReadsSibling(head: Head, s: set<Node>, c: Context, t: Tree)
    requires Holds(head, s, Plug(c, t)) && !c.Top? && Sibling(c).Bin?
    ensures var p, w := c.node, Sibling(c).node;
            && p in s && w in s && w.red == Sibling(c).red && p.parent == Parent(c.up) && p.red == c.red
                && (p.parent != null ==> p.parent in s)
            && (c.InLeft? ==> p.left == Root(t) && p.right == w)
                && (c.InRight? ==> p.left == w && p.left != Root(t) && p.right == Root(t))
            && (w.left != null ==> w.left in s) && (w.right != null ==> w.right in s)
            && ((w.left == null || !w.left.red) <==> !IsRed(Sibling(c).l))
                && ((w.right == null || !w.right.red) <==> !IsRed(Sibling(c).r))
  {
    hide Holds;
    var w := Sibling(c);
    var v := if c.InLeft? then Bin(t, c.node, c.red, w) else Bin(w, c.node, c.red, t);
    var d := if c.InLeft? then InRight(c.up, t, c.node, c.red) else InLeft(c.up, c.node, c.red, t);
    assert Plug(c, t) == Plug(c.up, v) == Plug(d, w);
    Reads(head, s, c.up, v);
    Reads(head, s, d, w);
    if w.l.Bin? {
      Reads(head, s, InLeft(d, w.node, w.red, w.r), w.l);
    }
    if w.r.Bin? {
      Reads(head, s, InRight(d, w.l, w.node, w.red), w.r);
    }
  }

  lemma ReadsShortened(head: Head, s: set<Node>, c: Context, t: Tree)
    requires !c.Top? && Sibling(c).Bin? && Holds(head, s, Plug(c.up, Shortened(c, t)))
    ensures c.node.parent == Parent(c.up)
  {
    Reads(head, s, c.up, Shortened(c, t));
  }

  lemma RedBlackIsLacking(t: Tree, o: seq<Node>) returns (h: int)
    requires RedBlack(t) && Order(t) == o
    ensures Lacking(Top, t, h, o)
  {
    h :| Balanced(t, h);
  }

  /** One round of the loop on the left: the sibling is the right child. */
  method ClimbLeft(head: Head, parent0: Node, elm0: Node?, ghost s: set<Node>, ghost c0: Context, ghost t0: Tree,
      ghost h0: int, ghost o: seq<Node>)
    returns (parent: Node?, elm: Node?, done: bool, ghost c: Context, ghost t: Tree, ghost h: int)
    requires Holds(head, s, Plug(c0, t0)) && Lacking(c0, t0, h0, o) && c0.InLeft? && elm0 == Root(t0)
             && parent0 == c0.node && !IsRed(t0)
    modifies head, s
    ensures Holds(head, s, Plug(c, t)) && Lacking(c, t, h, o) && elm == Root(t) && parent == Parent(c)
            && (done ==> c.Top?)
    ensures !done ==> Depth(c) < Depth(c0) || (Depth(c) == Depth(c0) && IsRed(t))
  {
    hide Holds, Order, Lacking;
    c, t, h := c0, t0, h0;
    SiblingThere(c, t, h, o);
    ReadsSibling(head, s, c, t);
    var tmp := parent0.right;
    if tmp.red {
      tmp := RotateRedSiblingLeft(head, parent0, tmp, s, c, t, h, o);
      c := RedSiblingLeft(c);
      ReadsSibling(head, s, c, t);
    }
    ghost var w := c.r;
    if (tmp.left == null || !tmp.left.red) && (tmp.right == null || !tmp.right.red) {
      Paint(head, tmp, true, s, InRight(c.up, t, c.node, c.red), w);
      ShortenedIsLacking(c, t, h, o);
      ReadsShortened(head, s, c, t);
      elm := parent0;
      parent := elm.parent;
      c, t, h, done := c.up, Shortened(c, t), if c.red then h else h + 1, false;
    } else {
      RotateBlackSiblingLeft(head, parent0, tmp, s, c, t, h, o);
      t := Plug(c.up, TurnedOverLeft(c, t));
      c := Top;
      h := RedBlackIsLacking(t, o);
      ReadsHole(head, s, c, t);
      elm, parent, done := head.root, null, true;
    }
  }

  /** One round of the loop on the right: the sibling is the left child. */
  method ClimbRight(head: Head, parent0: Node, elm0: Node?, ghost s: set<Node>, ghost c0: Context, ghost t0: Tree,
      ghost h0: int, ghost o: seq<Node>)
    returns (parent: Node?, elm: Node?, done: bool, ghost c: Context, ghost t: Tree, ghost h: int)
    requires Holds(head, s, Plug(c0, t0)) && Lacking(c0, t0, h0, o) && c0.InRight? && elm0 == Root(t0)
             && parent0 == c0.node && !IsRed(t0)
    modifies head, s
    ensures Holds(head, s, Plug(c, t)) && Lacking(c, t, h, o) && elm == Root(t) && parent == Parent(c)
            && (done ==> c.Top?)
    ensures !done ==> Depth(c) < Depth(c0) || (Depth(c) == Depth(c0) && IsRed(t))
  {
    hide Holds, Order, Lacking;
    c, t, h := c0, t0, h0;
    SiblingThere(c, t, h, o);
    ReadsSibling(head, s, c, t);
    var tmp := parent0.left;
    if tmp.red {
      tmp := RotateRedSiblingRight(head, parent0, tmp, s, c, t, h, o);
      c := RedSiblingRight(c);
      ReadsSibling(head, s, c, t);
    }
    ghost var w := c.l;
    if (tmp.left == null || !tmp.left.red) && (tmp.right == null || !tmp.right.red) {
      Paint(head, tmp, true, s, InLeft(c.up, c.node, c.red, t), w);
      ShortenedIsLacking(c, t, h, o);
      ReadsShortened(head, s, c, t);
      elm := parent0;
      parent := elm.parent;
      c, t, h, done := c.up, Shortened(c, t), if c.red then h else h + 1, false;
    } else {
      RotateBlackSiblingRight(head, parent0, tmp, s, c, t, h, o);
      t := Plug(c.up, TurnedOverRight(c, t));
      c := Top;
      h := RedBlackIsLacking(t, o);
      ReadsHole(head, s, c, t);
      elm, parent, done := head.root, null, true;
    }
  }

  lemma {:induction false} RootTop(head: Head, s: set<Node>, c: Context, t: Tree)
    requires Holds(head, s, Plug(c, t))
    ensures head.root == Root(t) <==> c.Top?
    ensures t.Bin? ==> t.node in s && t.node.red == t.red
    ensures Parent(c) != null ==> Parent(c) in s
  {
    if t.Bin? {
      Reads(head, s, c, t);
    } else {
      ReadsHole(head, s, c, t);
      ZoomIn(Memory(s), head.root, c, t);
      if !c.Top? {
        TopAround(Memory(s), c, head.root);
      }
    }
    LookingAbove(Memory(s), head.root, s, c, t);
  }

  lemma {:induction false} Finished(c: Context, t: Tree, h: int, o: seq<Node>)
    requires Lacking(c, t, h, o) && (c.Top? || IsRed(t))
    ensures t.Leaf? ==> RedBlack(Plug(c, t)) && Order(Plug(c, t)) == o
    ensures t.Bin? ==> var u := Plug(c, t.(red := false)); RedBlack(u) && Order(u) == o
  {
    hide Plug;
    if t.Bin? {
      var v := t.(red := false);
      SameOrder(c, t, v);
      BalancedPlug(c, v, if t.red then h + 1 else h);
    } else {
      BalancedPlug(c, t, h);
    }
  }

  /** RB_REMOVE_COLOR: restores the balance when every path through the hole lacks a black node. */
  method RemoveColor(head: Head, parent0: Node?, elm0: Node?, ghost s: set<Node>, ghost c0: Context, ghost t0: Tree,
      ghost h0: int)
    returns (ghost u: Tree)
    requires Holds(head, s, Plug(c0, t0)) && Lacking(c0, t0, h0, Order(Plug(c0, t0))) && elm0 == Root(t0)
             && parent0 == Parent(c0)
    modifies head, s
    ensures Holds(head, s, u) && RedBlack(u) && Order(u) == Order(Plug(c0, t0))
  {
    hide Holds, Order, Lacking, Plug;
    var parent, elm := parent0, elm0;
    ghost var c, t, h, o := c0, t0, h0, Order(Plug(c0, t0));
    RootTop(head, s, c, t);
    while (elm == null || !elm.red) && elm != head.root
      invariant Holds(head, s, Plug(c, t)) && Lacking(c, t, h, o) && elm == Root(t) && parent == Parent(c)
      invariant elm == head.root <==> c.Top?
      invariant elm != null ==> elm in s && elm.red == t.red
      decreases Depth(c), if IsRed(t) then 0 else 1
    {
      var done;
      SiblingThere(c, t, h, o);
      ReadsSibling(head, s, c, t);
      if parent.left == elm {
        parent, elm, done, c, t, h := ClimbLeft(head, parent, elm, s, c, t, h, o);
      } else {
        parent, elm, done, c, t, h := ClimbRight(head, parent, elm, s, c, t, h, o);
      }
      RootTop(head, s, c, t);
      if done {
        break;
      }
    }
    Finished(c, t, h, o);
    u := Plug(c, if t.Bin? then t.(red := false) else t);
    if elm != null {
      Paint(head, elm, false, s, c, t);
    }
  }

  // ------------------------------------------------------------------------
  // RB_REMOVE
  // ------------------------------------------------------------------------

  /** The balance at a place whose node, of color `red`, has gone and left `x` there. */
  ghost predicate Spliced(c: Context, x: Tree, h: int, red: bool) {
    if red then RedBlack(Plug(c, x))
    else BalancedAround(c, h + 1) && (if IsRed(x) then Balanced(x.(red := false), h + 1) else Balanced(x, h))
  }

  lemma {:induction false} SplicedBalance(c: Context, t: Tree, x: Tree) returns (h: int)
    requires RedBlack(Plug(c, t)) && t.Bin? && ((t.l.Leaf? && x == t.r) || (t.r.Leaf? && x == t.l))
    ensures Spliced(c, x, h, t.red)
  {
    h := BalancedUnplug(c, t);
    if t.red {
      BalancedPlug(c, x, h);
    } else {
      h := h - 1;
    }
  }

  lemma {:induction false} SplicedOrder(c: Context, t: Tree, x: Tree)
    requires t.Bin? && ((t.l.Leaf? && x == t.r) || (t.r.Leaf? && x == t.l))
    ensures WithoutOne(Order(Plug(c, t)), t.node, Order(Plug(c, x)))
  {
    hide Plug, WithoutOne, Order, Before, After;
    OrderPlug(c, t);
    OrderPlug(c, x);
    OneChild(t, x);
    if t.l.Leaf? {
      WithoutMiddle(Before(c), t.node, Order(x) + After(c), Order(Plug(c, t)), Order(Plug(c, x)));
    } else {
      WithoutMiddle(Before(c) + Order(x), t.node, After(c), Order(Plug(c, t)), Order(Plug(c, x)));
    }
  }

  lemma OneChild(t: Tree, x: Tree)
    requires t.Bin? && ((t.l.Leaf? && x == t.r) || (t.r.Leaf? && x == t.l))
    ensures Order(t) == if t.l.Leaf? then [t.node] + Order(x) else Order(x) + [t.node]
  {
  }

  /** `u` is `o` without its element `x`. */
  ghost predicate WithoutOne(o: seq<Node>, x: Node, u: seq<Node>) {
    exists i :: 0 <= i < |o| && o[i] == x && u == o[..i] + o[i + 1..]
  }

  lemma {:induction false} WithoutMiddle(a: seq<Node>, x: Node, b: seq<Node>, o: seq<Node>, u: seq<Node>)
    requires o == a + [x] + b && u == a + b
    ensures WithoutOne(o, x, u)
  {
    assert o[|a|] == x && o[..|a|] == a && o[|a| + 1..] == b;
  }

  lemma {:induction false} WithoutInner(a: seq<Node>, l: seq<Node>, x: Node, y: Node, r: seq<Node>, b: seq<Node>,
      d: seq<Node>, o: seq<Node>, u: seq<Node>)
    requires o == a + (l + [x] + ([] + ([] + [y] + r) + b)) + d && u == a + (l + [y] + ([] + r + b)) + d
    ensures WithoutOne(o, x, u)
  {
    var e := [y] + r + b;
    assert [] + ([] + [y] + r) + b == e && [] + r + b == r + b;
    assert l + [y] + (r + b) == l + e;
    assert a + (l + [x] + e) + d == (a + l) + [x] + (e + d);
    assert a + (l + e) + d == (a + l) + (e + d);
    WithoutMiddle(a + l, x, e + d, o, u);
  }

  // The way down to the next node: right once, then left.

  function Append(p: Context, base: Context): Context {
    match p
    case Top => base
    case InLeft(up, x, red, r) => InLeft(Append(up, base), x, red, r)
    case InRight(up, l, x, red) => InRight(Append(up, base), l, x, red)
  }

  predicate AllLeft(p: Context) {
    p.Top? || (p.InLeft? && AllLeft(p.up))
  }

  lemma {:induction false} PlugAppend(p: Context, base: Context, t: Tree)
    ensures Plug(Append(p, base), t) == Plug(base, Plug(p, t))
    ensures Parent(Append(p, base)) == if p.Top? then Parent(base) else p.node
    decreases p
  {
    match p {
      case Top =>
      case InLeft(up, x, red, r) => PlugAppend(up, base, Bin(t, x, red, r));
      case InRight(up, l, x, red) => PlugAppend(up, base, Bin(l, x, red, t));
    }
  }

  lemma {:induction false} OrderAppend(p: Context, base: Context)
    requires AllLeft(p)
    ensures Before(Append(p, base)) == Before(base) && After(Append(p, base)) == After(p) + After(base)
  {
    if p.InLeft? {
      OrderAppend(p.up, base);
    }
  }

  /** Putting another node in the place of one above changes no balance. */
  lemma {:induction false} BalanceAppend(p: Context, c: Context, l: Tree, x: Node, y: Node, red: bool, h: int)
    requires BalancedAround(Append(p, InRight(c, l, x, red)), h)
    ensures BalancedAround(Append(p, InRight(c, l, y, red)), h)
    ensures IsRedAbove(Append(p, InRight(c, l, x, red))) == IsRedAbove(Append(p, InRight(c, l, y, red)))
    decreases p
  {
    if !p.Top? {
      BalanceAppend(p.up, c, l, x, y, red, if p.red then h else h + 1);
    }
  }

  lemma {:induction false} SplicedAppend(p: Context, c: Context, l: Tree, x: Node, y: Node, red: bool, v: Tree,
      t: Tree) returns (h: int)
    requires var d := Append(p, InRight(c, l, x, red)); RedBlack(Plug(d, t)) && t.Bin? && t.l.Leaf? && v == t.r
    ensures Spliced(Append(p, InRight(c, l, y, red)), v, h, t.red)
  {
    hide Plug;
    var d, e := Append(p, InRight(c, l, x, red)), Append(p, InRight(c, l, y, red));
    h := BalancedUnplug(d, t);
    BalanceAppend(p, c, l, x, y, red, h);
    if t.red {
      BalancedPlug(e, v, h);
    } else {
      h := h - 1;
    }
  }

  lemma {:induction false} SucceededOrder(p: Context, c: Context, t: Tree, y: Tree)
    requires t.Bin? && AllLeft(p) && t.r == Plug(p, y) && y.Bin? && y.l.Leaf?
    ensures WithoutOne(Order(Plug(c, t)), t.node, Order(Plug(c, Bin(t.l, y.node, t.red, Plug(p, y.r)))))
  {
    hide Plug;
    var v := Bin(t.l, y.node, t.red, Plug(p, y.r));
    OrderPlug(c, t);
    OrderPlug(c, v);
    OrderPlug(p, y);
    OrderPlug(p, y.r);
    OrderAppend(p, Top);
    AllLeftBefore(p);
    WithoutInner(Before(c), Order(t.l), t.node, y.node, Order(y.r), After(p), After(c), Order(Plug(c, t)),
        Order(Plug(c, v)));
  }

  lemma {:induction false} AllLeftBefore(p: Context)
    requires AllLeft(p)
    ensures Before(p) == []
  {
    if p.InLeft? {
      AllLeftBefore(p.up);
    }
  }

  /** The first node in order of the right subtree. */
  method Successor(head: Head, prior: Node, ghost s: set<Node>, ghost c: Context, ghost t: Tree)
      returns (elm: Node, ghost p: Context, ghost y: Tree)
    requires Holds(head, s, Plug(c, t)) && t.Bin? && t.r.Bin? && t.node == prior
    ensures AllLeft(p) && Plug(p, y) == t.r && y.Bin? && y.node == elm && elm in s && y.l.Leaf?
  {
    hide Holds;
    ghost var base := InRight(c, t.l, prior, t.red);
    p, y := Top, t.r;
    Reads(head, s, c, t);
    PlugAppend(p, base, y);
    elm := prior.right;
    Reads(head, s, Append(p, base), y);
    while elm.left != null
      invariant AllLeft(p) && Plug(p, y) == t.r && y.Bin? && y.node == elm && elm in s && elm.left == Root(y.l)
      decreases y
    {
      p, y := InLeft(p, y.node, y.red, y.r), y.l;
      elm := elm.left;
      PlugAppend(p, base, y);
      Reads(head, s, Append(p, base), y);
    }
  }

  /** Takes out a node with two children: the next node, which has no left child, moves into its place. */
  method RemoveInner(head: Head, prior: Node, ghost s: set<Node>, ghost c: Context, ghost t: Tree)
    returns (child: Node?, parent: Node?, red: bool, ghost d: Context, ghost x: Tree, ghost h: int)
    requires Holds(head, s, Plug(c, t)) && RedBlack(Plug(c, t)) && t.Bin? && t.l.Bin? && t.r.Bin? && t.node == prior
    modifies head, s
    ensures Holds(head, s - {prior}, Plug(d, x)) && child == Root(x) && parent == Parent(d) && Spliced(d, x, h, red)
    ensures WithoutOne(Order(Plug(c, t)), prior, Order(Plug(d, x)))
  {
    hide Holds, Order, RedBlack, Spliced;
    ghost var base := InRight(c, t.l, prior, t.red);
    var elm;
    ghost var p, y;
    elm, p, y := Successor(head, prior, s, c, t);
    PlugAppend(p, base, y);
    Reads(head, s, Append(p, base), y);
    child, parent, red, x := elm.right, elm.parent, elm.red, y.r;
    h := SplicedAppend(p, c, t.l, prior, elm, t.red, x, y);
    SucceededOrder(p, c, t, y);
    ApartInner(head, s, p, c, t, y);
    Splice(head, elm, child, parent, s, Append(p, base), y, x);
    PlugAppend(p, base, x);
    ghost var v := Bin(t.l, prior, t.red, Plug(p, x));
    if elm.parent == prior {
      parent := elm;
    }
    TakePlace(head, prior, elm, s - {elm}, c, v);
    d := Append(p, InRight(c, t.l, elm, t.red));
    PlugAppend(p, InRight(c, t.l, elm, t.red), x);
    assert s - {elm} - {prior} + {elm} == s - {prior};
  }

  lemma {:induction false} ApartInner(head: Head, s: set<Node>, p: Context, c: Context, t: Tree, y: Tree)
    requires Holds(head, s, Plug(c, t)) && t.Bin? && t.r == Plug(p, y) && y.Bin?
    ensures t.node != y.node && (!p.Top? ==> p.node != t.node)
  {
    hide Plug;
    ZoomIn(Memory(s), head.root, c, t);
    NodesPlug(p, y);
  }

  /** RB_REMOVE: takes `elm` out of the tree and returns it. */
  method Remove(head: Head, elm: Node, ghost s: set<Node>, ghost t: Tree) returns (gone: Node, ghost u: Tree)
    requires Holds(head, s, t) && RedBlack(t) && elm in s
    modifies head, s
    ensures gone == elm && Holds(head, s - {elm}, u) && RedBlack(u) && WithoutOne(Order(t), elm, Order(u))
  {
    hide Order, RedBlack, WithoutOne;
    ghost var c, v := Place(t, elm);
    Reads(head, s, c, v);
    var child, parent, red;
    ghost var d, x, h;
    if elm.left != null && elm.right != null {
      child, parent, red, d, x, h := RemoveInner(head, elm, s, c, v);
    } else {
      child := if elm.left == null then elm.right else elm.left;
      parent, red := elm.parent, elm.red;
      d, x := c, if v.l.Leaf? then v.r else v.l;
      h := SplicedBalance(c, v, x);
      SplicedOrder(c, v, x);
      Splice(head, elm, child, parent, s, c, v, x);
    }
    u := Plug(d, x);
    if !red {
      u := RemoveColor(head, parent, child, s - {elm}, d, x, h);
    }
    gone := elm;
  }

  /** What is left after a removal is in order still, and is all but the removed node. */
  lemma {:induction false} RemovedOrder(o: seq<Node>, x: Node, u: seq<Node>)
    requires Sorted(o) && WithoutOne(o, x, u)
    ensures Sorted(u) && multiset(o) == multiset(u) + multiset{x}
  {
    hide Sorted;
    var i :| 0 <= i < |o| && o[i] == x && u == o[..i] + o[i + 1..];
    SortedWithout(o, i);
    assert o == o[..i] + [x] + o[i + 1..];
  }

  lemma {:induction false} SortedWithout(o: seq<Node>, i: int)
    requires Sorted(o) && 0 <= i < |o|
    ensures Sorted(o[..i] + o[i + 1..])
  {
    var u := o[..i] + o[i + 1..];
    forall j, k | 0 <= j < k < |u| ensures u[j].key < u[k].key {
      assert u[j] == o[if j < i then j else j + 1] && u[k] == o[if k < i then k else k + 1];
    }
  }
}
