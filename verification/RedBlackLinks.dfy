/** What the red-black macros do to the links: rotation, painting, splicing out a node and
    putting one node in the place of another. Each is given field by field and then as a change of the tree.
    Models RB_ROTATE_LEFT and RB_ROTATE_RIGHT, and the relinking of RB_REMOVE, of
    ext/noderb_extension/libuv/include/uv-private/tree.h. */
module RedBlackLinks {
  import opened RedBlackTree

  function Root(t: Tree): Node? {
    if t.Bin? then t.node else null
  }

  function RotatedLeft(t: Tree): Tree
    requires t.Bin? && t.r.Bin?
  {
    Bin(Bin(t.l, t.node, t.red, t.r.l), t.r.node, t.r.red, t.r.r)
  }

  function RotatedRight(t: Tree): Tree
    requires t.Bin? && t.l.Bin?
  {
    Bin(t.l.l, t.l.node, t.l.red, Bin(t.l.r, t.node, t.red, t.r))
  }

  /** The parts of a rotation do not overlap. */
  lemma {:induction false} Parts(a: Tree, x: Node, b: Tree, y: Node, d: Tree, cx: bool, cy: bool)
    ensures Distinct(Bin(a, x, cx, Bin(b, y, cy, d))) <==>
              && x != y && x !in Nodes(a) + Nodes(b) + Nodes(d) && y !in Nodes(a) + Nodes(b) + Nodes(d)
              && Nodes(a) !! Nodes(b) && Nodes(a) !! Nodes(d) && Nodes(b) !! Nodes(d)
              && Distinct(a) && Distinct(b) && Distinct(d)
    ensures Distinct(Bin(Bin(a, x, cx, b), y, cy, d)) <==> Distinct(Bin(a, x, cx, Bin(b, y, cy, d)))
    ensures Nodes(Bin(a, x, cx, Bin(b, y, cy, d))) == Nodes(a) + Nodes(b) + Nodes(d) + {x, y}
    ensures Nodes(Bin(Bin(a, x, cx, b), y, cy, d)) == Nodes(a) + Nodes(b) + Nodes(d) + {x, y}
  {
  }

  lemma BelowBin(m: Store, l: Tree, x: Node, red: bool, r: Tree, n: Node?, p: Node?)
    ensures Below(m, Bin(l, x, red, r), n, p) <==>
              && n == x && x in m && m[x].parent == p && m[x].red == red
              && Below(m, l, m[x].left, x) && Below(m, r, m[x].right, x)
  {
  }

  lemma RootBelow(m: Store, t: Tree, n: Node?, p: Node?)
    requires Below(m, t, n, p)
    ensures n == Root(t) && (n != null ==> n in m && n in Nodes(t))
  {
  }

  lemma {:induction false} RotateLeftKeeps(m: Store, k: Store, s: set<Node>, c: Context, t: Tree, was: Node?,
      root: Node?)
    requires t.Bin? && t.r.Bin? && Below(m, Plug(c, t), was, null) && Distinct(Plug(c, t)) && s == Nodes(Plug(c, t))
    requires Same(m, k, s - {t.node, t.r.node, Root(t.r.l), Parent(c)})
    requires Adopted(m, k, Root(t.r.l), t.node) && Replaced(m, k, c, t.r.node, was, root)
    requires var x, y := t.node, t.r.node;
             && x in m && y in m && x in k && y in k
             && k[x] == m[x].(right := m[y].left, parent := y) && k[y] == m[y].(left := x, parent := m[x].parent)
    ensures var u := Plug(c, RotatedLeft(t)); Below(k, u, root, null) && Distinct(u) && s == Nodes(u)
  {
    hide Plug, Nodes, Distinct, DistinctAround, Around, Below, Hole;
    ZoomIn(m, was, c, t);
    NodesPlug(c, t);
    NodesPlug(c, RotatedLeft(t));
    var a, b, d, x, y, q := t.l, t.r.l, t.r.r, t.node, t.r.node, s - {t.node, t.r.node, Root(t.r.l), Parent(c)};
    Parts(a, x, b, y, d, t.red, t.r.red);
    assert t == Bin(a, x, t.red, t.r) && t.r == Bin(b, y, t.r.red, d);
    BelowBin(m, a, x, t.red, t.r, Hole(m, c, was), Parent(c));
    BelowBin(m, b, y, t.r.red, d, m[x].right, x);
    RootBelow(m, b, m[y].left, y);
    Kept(m, k, q, a, k[x].left, x);
    KeptBelow(m, k, b, k[x].right, y, x);
    Kept(m, k, q, d, k[y].right, y);
    KeptOutside(m, k, c, y, was, root);
    BelowBin(k, a, x, t.red, b, x, y);
    BelowBin(k, Bin(a, x, t.red, b), y, t.r.red, d, y, Parent(c));
    ZoomOut(k, root, c, RotatedLeft(t));
  }

  lemma {:induction false} RotateRightKeeps(m: Store, k: Store, s: set<Node>, c: Context, t: Tree, was: Node?,
      root: Node?)
    requires t.Bin? && t.l.Bin? && Below(m, Plug(c, t), was, null) && Distinct(Plug(c, t)) && s == Nodes(Plug(c, t))
    requires Same(m, k, s - {t.node, t.l.node, Root(t.l.r), Parent(c)})
    requires Adopted(m, k, Root(t.l.r), t.node) && Replaced(m, k, c, t.l.node, was, root)
    requires var x, y := t.node, t.l.node;
             && x in m && y in m && x in k && y in k
             && k[x] == m[x].(left := m[y].right, parent := y) && k[y] == m[y].(right := x, parent := m[x].parent)
    ensures var u := Plug(c, RotatedRight(t)); Below(k, u, root, null) && Distinct(u) && s == Nodes(u)
  {
    hide Plug, Nodes, Distinct, DistinctAround, Around, Below, Hole;
    ZoomIn(m, was, c, t);
    NodesPlug(c, t);
    NodesPlug(c, RotatedRight(t));
    var a, b, d, x, y, q := t.l.l, t.l.r, t.r, t.node, t.l.node, s - {t.node, t.l.node, Root(t.l.r), Parent(c)};
    Parts(a, y, b, x, d, t.l.red, t.red);
    assert t == Bin(t.l, x, t.red, d) && t.l == Bin(a, y, t.l.red, b);
    BelowBin(m, t.l, x, t.red, d, Hole(m, c, was), Parent(c));
    BelowBin(m, a, y, t.l.red, b, m[x].left, x);
    RootBelow(m, b, m[y].right, y);
    Kept(m, k, q, a, k[y].left, y);
    KeptBelow(m, k, b, k[x].left, y, x);
    Kept(m, k, q, d, k[x].right, x);
    KeptOutside(m, k, c, y, was, root);
    BelowBin(k, b, x, t.red, d, x, y);
    BelowBin(k, a, y, t.l.red, Bin(b, x, t.red, d), y, Parent(c));
    ZoomOut(k, root, c, RotatedRight(t));
  }

  /** What a node in its place reads. */
  lemma {:induction false} Looking(m: Store, root: Node?, s: set<Node>, c: Context, t: Tree)
    requires Below(m, Plug(c, t), root, null) && Distinct(Plug(c, t)) && s == Nodes(Plug(c, t)) && t.Bin?
    ensures t.node in s && t.node in m && t.node in Nodes(t)
    ensures m[t.node] == Cell(Root(t.l), Root(t.r), Parent(c), t.red)
    ensures t.l.Bin? ==> t.l.node in s && t.l.node != t.node && t.l.node in Nodes(t)
    ensures t.r.Bin? ==> t.r.node in s && t.r.node != t.node && t.r.node in Nodes(t)
    ensures Parent(c) != null ==> Parent(c) in s && Parent(c) !in Nodes(t)
    ensures c.InLeft? ==> c.node in m && m[c.node].left == t.node
    ensures c.InRight? ==> c.node in m && m[c.node].left != t.node
  {
    ZoomIn(m, root, c, t);
    NodesPlug(c, t);
    RootBelow(m, t.l, m[t.node].left, t.node);
    RootBelow(m, t.r, m[t.node].right, t.node);
    if c.InRight? {
      RootBelow(m, c.l, m[c.node].left, c.node);
    }
  }

  lemma {:induction false} LookingRight(m: Store, root: Node?, s: set<Node>, c: Context, t: Tree)
    requires Below(m, Plug(c, t), root, null) && Distinct(Plug(c, t)) && s == Nodes(Plug(c, t)) && t.Bin? && t.r.Bin?
    ensures t.r.node in s && t.r.node in m && m[t.r.node] == Cell(Root(t.r.l), Root(t.r.r), t.node, t.r.red)
    ensures t.r.node != t.node && t.r.node in Nodes(t)
    ensures t.r.l.Bin? ==> t.r.l.node in s && t.r.l.node in Nodes(t) && t.r.l.node != t.r.node && t.r.l.node != t.node
  {
    Looking(m, root, s, InRight(c, t.l, t.node, t.red), t.r);
  }

  lemma {:induction false} LookingLeft(m: Store, root: Node?, s: set<Node>, c: Context, t: Tree)
    requires Below(m, Plug(c, t), root, null) && Distinct(Plug(c, t)) && s == Nodes(Plug(c, t)) && t.Bin? && t.l.Bin?
    ensures t.l.node in s && t.l.node in m && m[t.l.node] == Cell(Root(t.l.l), Root(t.l.r), t.node, t.l.red)
    ensures t.l.node != t.node && t.l.node in Nodes(t)
    ensures t.l.r.Bin? ==> t.l.r.node in s && t.l.r.node in Nodes(t) && t.l.r.node != t.l.node && t.l.r.node != t.node
  {
    Looking(m, root, s, InLeft(c, t.node, t.red, t.r), t.l);
  }

  /** Makes the pointer that led to `elm`, a child of `parent` or the root, lead to `tmp`. */
  method Replace(head: Head, parent: Node?, elm: Node, tmp: Node?)
    modifies if parent == null then {head as object} else {parent}
    ensures parent == null ==> head.root == tmp
    ensures parent != null ==>
              head.root == old(head.root) && parent.parent == old(parent.parent) && parent.red == old(parent.red)
    ensures parent != null && old(parent.left) == elm ==> parent.left == tmp && parent.right == old(parent.right)
    ensures parent != null && old(parent.left) != elm ==> parent.right == tmp && parent.left == old(parent.left)
  {
    if parent != null {
      if parent.left == elm {
        parent.left := tmp;
      } else {
        parent.right := tmp;
      }
    } else {
      head.root := tmp;
    }
  }

  /** RB_ROTATE_LEFT, field by field */
  method SwingLeft(head: Head, elm: Node) returns (tmp: Node)
    requires elm.right != null && elm.right != elm && elm.right.left != elm && elm.right.left != elm.right
    requires elm.parent != null ==> elm.parent !in {elm, elm.right, elm.right.left}
    modifies head, {elm, elm.right, elm.right.left, elm.parent} - {null}
    ensures tmp == old(elm.right)
    ensures elm.left == old(elm.left) && elm.right == old(elm.right.left) && elm.parent == tmp
            && elm.red == old(elm.red)
    ensures tmp.left == elm && tmp.right == old(elm.right.right) && tmp.parent == old(elm.parent)
            && tmp.red == old(elm.right.red)
    ensures var n := elm.right; n != null ==>
              n.left == old(n.left) && n.right == old(n.right) && n.parent == elm && n.red == old(n.red)
    ensures var p := tmp.parent;
            && (p == null ==> head.root == tmp)
            && (p != null ==> head.root == old(head.root) && p.parent == old(p.parent) && p.red == old(p.red))
            && (p != null && old(p.left) == elm ==> p.left == tmp && p.right == old(p.right))
            && (p != null && old(p.left) != elm ==> p.right == tmp && p.left == old(p.left))
  {
    tmp := elm.right;
    elm.right := tmp.left;
    if tmp.left != null {
      tmp.left.parent := elm;
    }
    tmp.parent := elm.parent;
    Replace(head, elm.parent, elm, tmp);
    tmp.left := elm;
    elm.parent := tmp;
  }

  /** RB_ROTATE_LEFT, as a change of the tree */
  method RotateLeft(head: Head, elm: Node, ghost s: set<Node>, ghost c: Context, ghost t: Tree) returns (tmp: Node)
    requires Holds(head, s, Plug(c, t)) && t.Bin? && t.r.Bin? && t.node == elm
    modifies head, s
    ensures tmp == t.r.node && Holds(head, s, Plug(c, RotatedLeft(t)))
  {
    hide Plug, Nodes, NodesAround, Distinct, DistinctAround, Below, Focus, Hole, Around;
    ghost var m, was := Memory(s), head.root;
    Looking(m, was, s, c, t);
    LookingRight(m, was, s, c, t);
    tmp := SwingLeft(head, elm);
    RotateLeftKeeps(m, Memory(s), s, c, t, was, head.root);
  }

  /** RB_ROTATE_RIGHT, field by field */
  method SwingRight(head: Head, elm: Node) returns (tmp: Node)
    requires elm.left != null && elm.left != elm && elm.left.right != elm && elm.left.right != elm.left
    requires elm.parent != null ==> elm.parent !in {elm, elm.left, elm.left.right}
    modifies head, {elm, elm.left, elm.left.right, elm.parent} - {null}
    ensures tmp == old(elm.left)
    ensures elm.right == old(elm.right) && elm.left == old(elm.left.right) && elm.parent == tmp
            && elm.red == old(elm.red)
    ensures tmp.right == elm && tmp.left == old(elm.left.left) && tmp.parent == old(elm.parent)
            && tmp.red == old(elm.left.red)
    ensures var n := elm.left; n != null ==>
              n.right == old(n.right) && n.left == old(n.left) && n.parent == elm && n.red == old(n.red)
    ensures var p := tmp.parent;
            && (p == null ==> head.root == tmp)
            && (p != null ==> head.root == old(head.root) && p.parent == old(p.parent) && p.red == old(p.red))
            && (p != null && old(p.left) == elm ==> p.left == tmp && p.right == old(p.right))
            && (p != null && old(p.left) != elm ==> p.right == tmp && p.left == old(p.left))
  {
    tmp := elm.left;
    elm.left := tmp.right;
    if tmp.right != null {
      tmp.right.parent := elm;
    }
    tmp.parent := elm.parent;
    Replace(head, elm.parent, elm, tmp);
    tmp.right := elm;
    elm.parent := tmp;
  }

  /** RB_ROTATE_RIGHT, as a change of the tree */
  method RotateRight(head: Head, elm: Node, ghost s: set<Node>, ghost c: Context, ghost t: Tree) returns (tmp: Node)
    requires Holds(head, s, Plug(c, t)) && t.Bin? && t.l.Bin? && t.node == elm
    modifies head, s
    ensures tmp == t.l.node && Holds(head, s, Plug(c, RotatedRight(t)))
  {
    hide Plug, Nodes, NodesAround, Distinct, DistinctAround, Below, Focus, Hole, Around;
    ghost var m, was := Memory(s), head.root;
    Looking(m, was, s, c, t);
    LookingLeft(m, was, s, c, t);
    tmp := SwingRight(head, elm);
    RotateRightKeeps(m, Memory(s), s, c, t, was, head.root);
  }

  lemma {:induction false} PaintKeeps(m: Store, k: Store, s: set<Node>, c: Context, t: Tree, root: Node?, red: bool)
    requires t.Bin? && Below(m, Plug(c, t), root, null) && Distinct(Plug(c, t)) && s == Nodes(Plug(c, t))
    requires Same(m, k, s - {t.node}) && t.node in m && t.node in k && k[t.node] == m[t.node].(red := red)
    ensures var u := Plug(c, t.(red := red)); Below(k, u, root, null) && Distinct(u) && s == Nodes(u)
  {
    hide Plug, DistinctAround, Around, Hole;
    var u := t.(red := red);
    ZoomIn(m, root, c, t);
    NodesPlug(c, t);
    NodesPlug(c, u);
    BelowBin(m, t.l, t.node, t.red, t.r, Hole(m, c, root), Parent(c));
    Kept(m, k, s - {t.node}, t.l, m[t.node].left, t.node);
    Kept(m, k, s - {t.node}, t.r, m[t.node].right, t.node);
    KeptAround(m, k, s - {t.node}, c, root);
    BelowBin(k, t.l, t.node, red, t.r, Hole(m, c, root), Parent(c));
    ZoomOut(k, root, c, u);
  }

  /** Sets the color of a node. */
  method Paint(head: Head, n: Node, red: bool, ghost s: set<Node>, ghost c: Context, ghost t: Tree)
    requires Holds(head, s, Plug(c, t)) && t.Bin? && t.node == n
    modifies s
    ensures Holds(head, s, Plug(c, t.(red := red)))
  {
    hide Plug, Nodes, Distinct, Below;
    ghost var m := Memory(s);
    Looking(m, head.root, s, c, t);
    n.red := red;
    PaintKeeps(m, Memory(s), s, c, t, head.root, red);
  }

  /** What the code finds at a node in its place. */
  lemma {:induction false} Reads(head: Head, s: set<Node>, c: Context, t: Tree)
    requires Holds(head, s, Plug(c, t)) && t.Bin?
    ensures var x := t.node;
            && x in s && x.left == Root(t.l) && x.right == Root(t.r) && x.parent == Parent(c) && x.red == t.red
            && x.left != x && x.right != x && x.parent != x && (x.left != null ==> x.left in s && x.left != x.right)
            && (x.right != null ==> x.right in s) && (x.parent != null ==> x.parent in s)
    ensures c.Top? <==> head.root == t.node
  {
    hide Plug, Distinct, Below;
    Looking(Memory(s), head.root, s, c, t);
    RootApart(Memory(s), head.root, s, c, t);
  }

  lemma {:induction false} RootApart(m: Store, root: Node?, s: set<Node>, c: Context, t: Tree)
    requires Below(m, Plug(c, t), root, null) && Distinct(Plug(c, t)) && s == Nodes(Plug(c, t)) && t.Bin?
    ensures c.Top? <==> root == t.node
    ensures t.l.Bin? && t.r.Bin? ==> t.l.node != t.r.node
    ensures Parent(c) != t.node
  {
    ZoomIn(m, root, c, t);
    if !c.Top? {
      TopAround(m, c, root);
    }
  }

  /** The place of a node. */
  lemma {:induction false} PlaceBelow(c: Context, t: Tree, elm: Node) returns (d: Context, v: Tree)
    requires elm in Nodes(t)
    ensures Plug(d, v) == Plug(c, t) && v.Bin? && v.node == elm
    decreases t
  {
    if t.node == elm {
      d, v := c, t;
    } else if elm in Nodes(t.l) {
      d, v := PlaceBelow(InLeft(c, t.node, t.red, t.r), t.l, elm);
    } else {
      d, v := PlaceBelow(InRight(c, t.l, t.node, t.red), t.r, elm);
    }
  }

  lemma Place(t: Tree, elm: Node) returns (c: Context, v: Tree)
    requires elm in Nodes(t)
    ensures Plug(c, v) == t && v.Bin? && v.node == elm
  {
    c, v := PlaceBelow(Top, t, elm);
  }

  lemma {:induction false} TopAround(m: Store, c: Context, root: Node?)
    requires !c.Top? && Around(m, c, root)
    ensures root in NodesAround(c)
    decreases c
  {
    if !c.up.Top? {
      TopAround(m, c.up, root);
    }
  }

  lemma {:induction false} GraftKeeps(m: Store, k: Store, s: set<Node>, c: Context, elm: Node, was: Node?, root: Node?)
    requires Below(m, Plug(c, Leaf), was, null) && Distinct(Plug(c, Leaf)) && s == Nodes(Plug(c, Leaf)) && elm !in s
    requires elm in k && k[elm] == Cell(null, null, Parent(c), true) && Same(m, k, s - {Parent(c)})
             && Replaced(m, k, c, elm, was, root)
    ensures var u := Plug(c, Bin(Leaf, elm, true, Leaf));
              Below(k, u, root, null) && Distinct(u) && Nodes(u) == s + {elm}
  {
    hide Plug, DistinctAround, Around, Hole, NodesAround;
    var t := Bin(Leaf, elm, true, Leaf);
    ZoomIn(m, was, c, Leaf);
    NodesPlug(c, Leaf);
    NodesPlug(c, t);
    KeptOutside(m, k, c, elm, was, root);
    ZoomOut(k, root, c, t);
  }

  /** Hangs a new red node on an empty place. */
  method Graft(head: Head, elm: Node, parent: Node?, left: bool, ghost s: set<Node>, ghost c: Context)
    requires Holds(head, s, Plug(c, Leaf)) && elm !in s && parent == Parent(c)
             && (parent != null ==> (left <==> c.InLeft?))
    modifies head, s, elm
    ensures Holds(head, s + {elm}, Plug(c, Bin(Leaf, elm, true, Leaf)))
  {
    hide Plug, Nodes, Distinct, Below;
    ghost var m, was := Memory(s), head.root;
    LookingAbove(m, was, s, c, Leaf);
    elm.parent := parent;
    elm.left := null;
    elm.right := null;
    elm.red := true;
    if parent != null {
      if left {
        parent.left := elm;
      } else {
        parent.right := elm;
      }
    } else {
      head.root := elm;
    }
    GraftKeeps(m, Memory(s + {elm}), s, c, elm, was, head.root);
  }

  lemma {:induction false} LookingAbove(m: Store, root: Node?, s: set<Node>, c: Context, t: Tree)
    requires Below(m, Plug(c, t), root, null) && s == Nodes(Plug(c, t)) && Distinct(Plug(c, t))
    ensures Parent(c) != null ==> Parent(c) in s && Parent(c) !in Nodes(t)
    ensures c.Top? ==> root == Root(t)
    ensures c.InLeft? ==> c.node in m && m[c.node].left == Root(t)
    ensures c.InRight? ==> c.node in m && m[c.node].right == Root(t)
  {
    ZoomIn(m, root, c, t);
    NodesPlug(c, t);
    RootBelow(m, t, Hole(m, c, root), Parent(c));
  }

  /** The pointer that leads to a subtree. */
  lemma {:induction false} ReadsHole(head: Head, s: set<Node>, c: Context, t: Tree)
    requires Holds(head, s, Plug(c, t))
    ensures c.Top? ==> head.root == Root(t)
    ensures !c.Top? ==> c.node in s && (if c.InLeft? then c.node.left else c.node.right) == Root(t)
  {
    hide Plug, Distinct, Below;
    LookingAbove(Memory(s), head.root, s, c, t);
  }

  // ------------------------------------------------------------------------
  // Taking out a node
  // ------------------------------------------------------------------------

  lemma {:induction false} SpliceKeeps(m: Store, k: Store, s: set<Node>, c: Context, t: Tree, v: Tree, was: Node?,
      root: Node?)
    requires t.Bin? && ((t.l.Leaf? && v == t.r) || (t.r.Leaf? && v == t.l))
    requires Below(m, Plug(c, t), was, null) && Distinct(Plug(c, t)) && s == Nodes(Plug(c, t))
    requires Same(m, k, s - {t.node, Root(v), Parent(c)})
    requires Adopted(m, k, Root(v), Parent(c)) && Replaced(m, k, c, Root(v), was, root)
    ensures var u := Plug(c, v); Below(k, u, root, null) && Distinct(u) && Nodes(u) == s - {t.node}
  {
    hide Plug, DistinctAround, Around, Hole, Below;
    ZoomIn(m, was, c, t);
    NodesPlug(c, t);
    NodesPlug(c, v);
    BelowBin(m, t.l, t.node, t.red, t.r, Hole(m, c, was), Parent(c));
    var n := if v == t.r then m[t.node].right else m[t.node].left;
    RootBelow(m, v, n, t.node);
    KeptBelow(m, k, v, n, t.node, Parent(c));
    KeptOutside(m, k, c, Root(v), was, root);
    ZoomOut(k, root, c, v);
  }

  /** Puts the only child of `elm`, if any, in the place of `elm`. */
  method Splice(head: Head, elm: Node, child: Node?, parent: Node?, ghost s: set<Node>, ghost c: Context,
      ghost t: Tree, ghost v: Tree)
    requires Holds(head, s, Plug(c, t)) && t.Bin? && t.node == elm
             && ((t.l.Leaf? && v == t.r) || (t.r.Leaf? && v == t.l))
    requires child == Root(v) && parent == Parent(c)
    modifies head, s - {elm}
    ensures Holds(head, s - {elm}, Plug(c, v))
  {
    hide Plug, Nodes, Distinct, Below;
    ghost var m, was := Memory(s), head.root;
    Looking(m, was, s, c, t);
    if child != null {
      child.parent := parent;
    }
    Replace(head, parent, elm, child);
    ghost var k := Memory(s);
    SpliceKeeps(m, k, s, c, t, v, was, head.root);
    Restrict(s, s - {elm}, Plug(c, v), head.root);
  }

  lemma Restrict(s: set<Node>, q: set<Node>, t: Tree, root: Node?)
    requires Below(Memory(s), t, root, null) && Nodes(t) == q <= s
    ensures Below(Memory(q), t, root, null)
  {
    Kept(Memory(s), Memory(q), q, t, root, null);
  }

  lemma {:induction false} TakeKeeps(m: Store, k: Store, s: set<Node>, c: Context, t: Tree, elm: Node, was: Node?,
      root: Node?)
    requires t.Bin? && Below(m, Plug(c, t), was, null) && Distinct(Plug(c, t)) && s == Nodes(Plug(c, t)) && elm !in s
    requires elm in k && k[elm] == Cell(Root(t.l), Root(t.r), Parent(c), t.red)
    requires Same(m, k, s - {t.node, Root(t.l), Root(t.r), Parent(c)})
    requires Adopted(m, k, Root(t.l), elm) && Adopted(m, k, Root(t.r), elm) && Replaced(m, k, c, elm, was, root)
    ensures var u := Plug(c, t.(node := elm));
              Below(k, u, root, null) && Distinct(u) && Nodes(u) == s - {t.node} + {elm}
  {
    hide Plug, DistinctAround, Around, Hole, Below;
    var u := t.(node := elm);
    ZoomIn(m, was, c, t);
    NodesPlug(c, t);
    NodesPlug(c, u);
    BelowBin(m, t.l, t.node, t.red, t.r, Hole(m, c, was), Parent(c));
    RootBelow(m, t.l, m[t.node].left, t.node);
    RootBelow(m, t.r, m[t.node].right, t.node);
    KeptBelow(m, k, t.l, Root(t.l), t.node, elm);
    KeptBelow(m, k, t.r, Root(t.r), t.node, elm);
    KeptOutside(m, k, c, elm, was, root);
    BelowBin(k, t.l, elm, t.red, t.r, elm, Parent(c));
    ZoomOut(k, root, c, u);
  }

  /** The same field by field. */
  method CopyOver(head: Head, prior: Node, elm: Node)
    requires prior.left != null && prior.left != prior && prior.right != prior && prior.left != prior.right
             && prior.parent != prior
    requires elm !in {prior, prior.left, prior.right, prior.parent}
    requires prior.parent != null ==> prior.parent != prior.left && prior.parent != prior.right
    modifies head, elm, {prior.left, prior.right, prior.parent} - {null}
    ensures elm.left == old(prior.left) && elm.right == old(prior.right) && elm.parent == old(prior.parent)
            && elm.red == old(prior.red)
    ensures var n := elm.left;
              n.left == old(n.left) && n.right == old(n.right) && n.parent == elm && n.red == old(n.red)
    ensures var n := elm.right; n != null ==>
              n.left == old(n.left) && n.right == old(n.right) && n.parent == elm && n.red == old(n.red)
    ensures var p := elm.parent;
            && (p == null ==> head.root == elm)
            && (p != null ==> head.root == old(head.root) && p.parent == old(p.parent) && p.red == old(p.red))
            && (p != null && old(p.left) == prior ==> p.left == elm && p.right == old(p.right))
            && (p != null && old(p.left) != prior ==> p.right == elm && p.left == old(p.left))
  {
    elm.left, elm.right, elm.parent, elm.red := prior.left, prior.right, prior.parent, prior.red;
    Replace(head, prior.parent, prior, elm);
    prior.left.parent := elm;
    if prior.right != null {
      prior.right.parent := elm;
    }
  }

  /** Gives `elm`, a node outside the tree, the fields and the place of the node `prior`, which has a left child. */
  method TakePlace(head: Head, prior: Node, elm: Node, ghost s: set<Node>, ghost c: Context, ghost t: Tree)
    requires Holds(head, s, Plug(c, t)) && t.Bin? && t.l.Bin? && t.node == prior && elm !in s
    modifies head, s, elm
    ensures Holds(head, s - {prior} + {elm}, Plug(c, t.(node := elm)))
  {
    hide Plug, Nodes, Distinct, Below;
    ghost var m, was := Memory(s), head.root;
    Looking(m, was, s, c, t);
    RootApart(m, was, s, c, t);
    CopyOver(head, prior, elm);
    ghost var k := Memory(s + {elm});
    TakeKeeps(m, k, s, c, t, elm, was, head.root);
    Restrict(s + {elm}, s - {prior} + {elm}, Plug(c, t.(node := elm)), head.root);
  }
}
