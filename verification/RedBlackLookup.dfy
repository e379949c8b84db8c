/** Lookups in a red-black tree.
    Models RB_FIND, RB_NFIND and RB_NEXT of ext/noderb_extension/libuv/include/uv-private/tree.h. */
module RedBlackLookup {
  import opened RedBlackTree
  import opened RedBlackLinks
  import opened RedBlackInsert

  /** The first element of `o` whose key is not below `key` is at `i`. */
  ghost predicate LowerBound(o: seq<Node>, key: int, i: int) {
    && 0 <= i <= |o| && (forall j :: 0 <= j < i ==> o[j].key < key) && (forall j :: i <= j < |o| ==> key <= o[j].key)
  }

  function FirstOf(o: seq<Node>): Node? {
    if o == [] then null else o[0]
  }

  /** The order of the whole tree, cut at the root of a subtree. */
  lemma {:induction false} CutAt(c: Context, t: Tree)
    requires t.Bin?
    ensures Order(Plug(c, t)) == (Before(c) + Order(t.l)) + ([t.node] + (Order(t.r) + After(c)))
  {
    hide Plug;
    OrderPlug(c, t);
  }

  lemma CutAtLeaf(c: Context)
    ensures Order(Plug(c, Leaf)) == Before(c) + After(c)
  {
    OrderPlug(c, Leaf);
  }

  lemma {:induction false} FoundAt(c: Context, t: Tree, key: int)
    requires Sorted(Order(Plug(c, t))) && Leads(c, key) && t.Bin? && t.node.key == key
    ensures var i, o := |Before(c)| + |Order(t.l)|, Order(Plug(c, t));
              LowerBound(o, key, i) && i < |o| && o[i] == t.node
  {
    hide Plug, Order;
    CutAt(c, t);
    var o, i := Order(Plug(c, t)), |Before(c)| + |Order(t.l)|;
    assert o[i] == t.node;
    forall j | 0 <= j < |o| ensures (j < i ==> o[j].key < key) && (i <= j ==> key <= o[j].key) {
    }
  }

  /** RB_NFIND: the first node whose key is not below `key`. */
  method FindFrom(head: Head, key: int, ghost s: set<Node>, ghost t: Tree) returns (res: Node?, ghost i: int)
    requires Holds(head, s, t) && Sorted(Order(t))
    ensures LowerBound(Order(t), key, i) && res == if i < |Order(t)| then Order(t)[i] else null
  {
    hide Holds, Order;
    var tmp := head.root;
    res := null;
    ghost var c, v := Top, t;
    ReadsHole(head, s, c, v);
    while tmp != null
      invariant t == Plug(c, v) && tmp == Root(v) && Leads(c, key) && res == FirstOf(After(c))
      decreases v
    {
      LeadsOn(c, v, key);
      Reads(head, s, c, v);
      if key < tmp.key {
        res := tmp;
        tmp := tmp.left;
        c, v := InLeft(c, v.node, v.red, v.r), v.l;
      } else if key > tmp.key {
        tmp := tmp.right;
        c, v := InRight(c, v.l, v.node, v.red), v.r;
      } else {
        FoundAt(c, v, key);
        return tmp, |Before(c)| + |Order(v.l)|;
      }
    }
    CutAtLeaf(c);
    i := |Before(c)|;
  }

  /** RB_FIND: the node with the key, if there is one. */
  method Find(head: Head, key: int, ghost s: set<Node>, ghost t: Tree) returns (tmp: Node?)
    requires Holds(head, s, t) && Sorted(Order(t))
    ensures tmp != null ==> tmp in s && tmp.key == key
    ensures tmp == null ==> forall x <- s :: x.key != key
  {
    hide Order, Sorted;
    tmp := head.root;
    ghost var c, v := Top, t;
    ReadsHole(head, s, c, v);
    while tmp != null
      invariant t == Plug(c, v) && tmp == Root(v) && Leads(c, key)
      decreases v
    {
      LeadsOn(c, v, key);
      Reads(head, s, c, v);
      if key < tmp.key {
        tmp := tmp.left;
        c, v := InLeft(c, v.node, v.red, v.r), v.l;
      } else if key > tmp.key {
        tmp := tmp.right;
        c, v := InRight(c, v.l, v.node, v.red), v.r;
      } else {
        return;
      }
    }
    NotThere(c, key);
  }

  lemma {:induction false} NotThere(c: Context, key: int)
    requires Leads(c, key)
    ensures forall x <- Nodes(Plug(c, Leaf)) :: x.key != key
  {
    forall x <- Nodes(Plug(c, Leaf)) ensures x.key != key {
      OrderNodes(Plug(c, Leaf), x);
      CutAtLeaf(c);
      assert x in Before(c) + After(c);
    }
  }

  // ------------------------------------------------------------------------
  // RB_NEXT
  // ------------------------------------------------------------------------

  /** `y` comes right after `x` in `o`, or is null when `x` is the last. */
  ghost predicate Successor(o: seq<Node>, x: Node, y: Node?) {
    exists i :: 0 <= i < |o| && o[i] == x && y == FirstOf(o[i + 1..])
  }

  lemma {:induction false} SuccessorAt(a: seq<Node>, x: Node, b: seq<Node>, o: seq<Node>)
    requires o == a + [x] + b
    ensures Successor(o, x, FirstOf(b))
  {
    assert o[|a|] == x && o[|a| + 1..] == b;
  }

  lemma {:induction false} NextBelow(c: Context, t: Tree, d: Context, v: Tree)
    requires t.Bin? && v.Bin? && v.l.Leaf? && Plug(c, t) == Plug(d, v)
             && Before(d) == Before(InRight(c, t.l, t.node, t.red))
    ensures Successor(Order(Plug(c, t)), t.node, v.node)
  {
    hide Plug;
    CutAt(d, v);
    var b := [v.node] + (Order(v.r) + After(d));
    SuccessorAt(Before(c) + Order(t.l), t.node, b, Order(Plug(c, t)));
  }

  lemma {:induction false} NextAbove(c: Context, t: Tree)
    requires t.Bin? && t.r.Leaf?
    ensures Successor(Order(Plug(c, t)), t.node, FirstOf(After(c)))
  {
    hide Plug;
    CutAt(c, t);
    SuccessorAt(Before(c) + Order(t.l), t.node, After(c), Order(Plug(c, t)));
  }

  /** What the climb reads: whether a node is a left or a right child. */
  lemma {:induction false} ReadsSide(head: Head, s: set<Node>, c: Context, t: Tree)
    requires Holds(head, s, Plug(c, t)) && t.Bin?
    ensures t.node in s && t.node.parent == Parent(c)
    ensures !c.Top? ==>
              c.node in s && (c.node.left == t.node <==> c.InLeft?) && (c.node.right == t.node <==> c.InRight?)
  {
    hide Holds;
    Reads(head, s, c, t);
    if !c.Top? {
      var v := if c.InLeft? then Bin(t, c.node, c.red, c.r) else Bin(c.l, c.node, c.red, t);
      assert Plug(c, t) == Plug(c.up, v);
      Reads(head, s, c.up, v);
    }
  }

  /** RB_NEXT: the node after `elm0`. */
  method Next(head: Head, elm0: Node, ghost s: set<Node>, ghost t: Tree) returns (elm: Node?)
    requires Holds(head, s, t) && elm0 in s
    ensures Successor(Order(t), elm0, elm)
  {
    hide Order, Successor;
    ghost var c, v := Place(t, elm0);
    Reads(head, s, c, v);
    if elm0.right != null {
      var x := elm0.right;
      ghost var d, w := InRight(c, v.l, v.node, v.red), v.r;
      Reads(head, s, d, w);
      while x.left != null
        invariant Plug(d, w) == t && w.Bin? && w.node == x && Before(d) == Before(InRight(c, v.l, v.node, v.red))
        invariant x.left == Root(w.l)
        decreases w
      {
        x := x.left;
        d, w := InLeft(d, w.node, w.red, w.r), w.l;
        Reads(head, s, d, w);
      }
      NextBelow(c, v, d, w);
      elm := x;
    } else {
      NextAbove(c, v);
      ReadsSide(head, s, c, v);
      if elm0.parent != null && elm0 == elm0.parent.left {
        elm := elm0.parent;
      } else {
        var x := elm0;
        ghost var d, w := c, v;
        while x.parent != null && x == x.parent.right
          invariant Plug(d, w) == t && w.Bin? && w.node == x && After(d) == After(c)
          invariant x.parent == Parent(d)
          invariant !d.Top? ==> (d.node.left == x <==> d.InLeft?) && (d.node.right == x <==> d.InRight?)
          decreases d
        {
          x := x.parent;
          d, w := d.up, Bin(d.l, d.node, d.red, w);
          ReadsSide(head, s, d, w);
        }
        elm := x.parent;
      }
    }
  }

}
