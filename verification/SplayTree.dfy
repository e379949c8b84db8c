/** Splay trees as values and in memory, and the three parts that a top-down splay keeps.
    The trees are those that the SPLAY macros of tree.h build. */
module SplayTree {

  class Node {
    const key: int
    var left: Node?
    var right: Node?

    constructor (key: int)
      ensures this.key == key && left == null && right == null
    {
      this.key := key;
      left, right := null, null;
    }
  }

  class Head {
    var root: Node?

    constructor ()
      ensures root == null
    {
      root := null;
    }
  }

  datatype Tree = Leaf | Bin(l: Tree, node: Node, r: Tree)

  function Order(t: Tree): seq<Node> {
    match t
    case Leaf => []
    case Bin(l, x, r) => Order(l) + [x] + Order(r)
  }

  function Nodes(t: Tree): set<Node> {
    match t
    case Leaf => {}
    case Bin(l, x, r) => Nodes(l) + {x} + Nodes(r)
  }

  function Size(t: Tree): nat {
    match t
    case Leaf => 0
    case Bin(l, _, r) => Size(l) + 1 + Size(r)
  }

  ghost predicate Distinct(t: Tree) {
    match t
    case Leaf => true
    case Bin(l, x, r) => x !in Nodes(l) && x !in Nodes(r) && Nodes(l) !! Nodes(r) && Distinct(l) && Distinct(r)
  }

  ghost predicate Sorted(s: seq<Node>) {
    forall i, j :: 0 <= i < j < |s| ==> s[i].key < s[j].key
  }

  ghost predicate AllBelow(s: seq<Node>, key: int) { forall x <- s :: x.key < key }

  ghost predicate AllAbove(s: seq<Node>, key: int) { forall x <- s :: key < x.key }

  // ------------------------------------------------------------------------
  // Memory
  // ------------------------------------------------------------------------

  datatype Cell = Cell(left: Node?, right: Node?)

  type Store = map<Node, Cell>

  ghost function Memory(s: set<Node>): Store
    reads s
  {
    map x | x in s :: Cell(x.left, x.right)
  }

  /** The links below `n` are those of `t`. */
  ghost predicate Below(m: Store, t: Tree, n: Node?) {
    match t
    case Leaf => n == null
    case Bin(l, x, r) => n == x && x in m && Below(m, l, m[x].left) && Below(m, r, m[x].right)
  }

  /** The tree at `head` is `t`, and its nodes are `s`. */
  ghost predicate Holds(head: Head, s: set<Node>, t: Tree)
    reads head, s
  {
    s == Nodes(t) && Distinct(t) && Below(Memory(s), t, head.root)
  }

  ghost predicate Same(m: Store, k: Store, s: set<Node>) {
    forall x <- s :: x in m && x in k && m[x] == k[x]
  }

  lemma {:induction false} Kept(m: Store, k: Store, s: set<Node>, t: Tree, n: Node?)
    requires Below(m, t, n) && Nodes(t) <= s && Same(m, k, s)
    ensures Below(k, t, n)
    decreases t
  {
    if t.Leaf? {
    } else {
      Kept(m, k, s, t.l, m[n].left);
      Kept(m, k, s, t.r, m[n].right);
    }
  }

  // ------------------------------------------------------------------------
  // The trees of smaller and of greater nodes
  // ------------------------------------------------------------------------

  /** One of the two trees that a splay takes apart, seen from the place where it grows: the node there, its other
      subtree, and what is above. */
  datatype Spine = Base | On(up: Spine, node: Node, side: Tree)

  /** The smaller nodes with `u` put where they grow, on the right. */
  function PlugLeft(z: Spine, u: Tree): Tree
    decreases z
  {
    if z.Base? then u else PlugLeft(z.up, Bin(z.side, z.node, u))
  }

  /** The greater nodes with `u` put where they grow, on the left. */
  function PlugRight(z: Spine, u: Tree): Tree
    decreases z
  {
    if z.Base? then u else PlugRight(z.up, Bin(u, z.node, z.side))
  }

  function LeftOrder(z: Spine): seq<Node> {
    if z.Base? then [] else LeftOrder(z.up) + Order(z.side) + [z.node]
  }

  function RightOrder(z: Spine): seq<Node> {
    if z.Base? then [] else [z.node] + Order(z.side) + RightOrder(z.up)
  }

  lemma RegroupParts(a: seq<Node>, b: seq<Node>, d: seq<Node>, e: seq<Node>)
    ensures a + (b + d + e) == (a + b + d) + e
    ensures (a + b + d) + e == a + (b + d + e)
  {
  }

  lemma {:induction false} PlugOrder(z: Spine, u: Tree)
    ensures Order(PlugLeft(z, u)) == LeftOrder(z) + Order(u)
    ensures Order(PlugRight(z, u)) == Order(u) + RightOrder(z)
    decreases z
  {
    if z.On? {
      PlugOrder(z.up, Bin(z.side, z.node, u));
      PlugOrder(z.up, Bin(u, z.node, z.side));
      RegroupParts(LeftOrder(z.up), Order(z.side), [z.node], Order(u));
      RegroupParts(Order(u), [z.node], Order(z.side), RightOrder(z.up));
    }
  }

  function SpineNodes(z: Spine): set<Node> {
    if z.Base? then {} else SpineNodes(z.up) + {z.node} + Nodes(z.side)
  }

  ghost predicate SpineDistinct(z: Spine) {
    z.On? ==>
      && z.node !in SpineNodes(z.up) && z.node !in Nodes(z.side) && SpineNodes(z.up) !! Nodes(z.side)
      && SpineDistinct(z.up) && Distinct(z.side)
  }

  /** The node whose link is to be filled; `s` stands above both spines. */
  function Tip(z: Spine, s: Node): Node {
    if z.Base? then s else z.node
  }

  ghost predicate LeftLinked(m: Store, z: Spine, s: Node) {
    if z.Base? then s in m
    else
      && z.node in m && Below(m, z.side, m[z.node].left) && LeftLinked(m, z.up, s)
      && Tip(z.up, s) in m && m[Tip(z.up, s)].right == z.node
  }

  ghost predicate RightLinked(m: Store, z: Spine, s: Node) {
    if z.Base? then s in m
    else
      && z.node in m && Below(m, z.side, m[z.node].right) && RightLinked(m, z.up, s)
      && Tip(z.up, s) in m && m[Tip(z.up, s)].left == z.node
  }

  lemma {:induction false} KeptLeft(m: Store, k: Store, z: Spine, s: Node)
    requires LeftLinked(m, z, s) && SpineDistinct(z) && s !in SpineNodes(z) && s in k
    requires forall x <- SpineNodes(z) ::
               x in m && x in k && k[x].left == m[x].left && (x != Tip(z, s) ==> k[x].right == m[x].right)
    requires s in m && (z.On? ==> k[s].right == m[s].right)
    ensures LeftLinked(k, z, s)
    decreases z
  {
    if z.On? {
      KeptLeft(m, k, z.up, s);
      Kept(m, k, Nodes(z.side), z.side, m[z.node].left);
      assert z.up.On? ==> z.up.node in SpineNodes(z.up);
    }
  }

  lemma {:induction false} KeptRight(m: Store, k: Store, z: Spine, s: Node)
    requires RightLinked(m, z, s) && SpineDistinct(z) && s !in SpineNodes(z) && s in k
    requires forall x <- SpineNodes(z) ::
               x in m && x in k && k[x].right == m[x].right && (x != Tip(z, s) ==> k[x].left == m[x].left)
    requires s in m && (z.On? ==> k[s].left == m[s].left)
    ensures RightLinked(k, z, s)
    decreases z
  {
    if z.On? {
      KeptRight(m, k, z.up, s);
      Kept(m, k, Nodes(z.side), z.side, m[z.node].right);
      assert z.up.On? ==> z.up.node in SpineNodes(z.up);
    }
  }

  /** The three parts are in memory and share no node, and `s` is in none of them. */
  ghost predicate Parts(m: Store, root: Node?, s: Node, a: Spine, t: Tree, b: Spine) {
    && LeftLinked(m, a, s) && RightLinked(m, b, s) && Below(m, t, root)
    && Distinct(t) && SpineDistinct(a) && SpineDistinct(b)
    && SpineNodes(a) !! Nodes(t) && SpineNodes(b) !! Nodes(t) && SpineNodes(a) !! SpineNodes(b)
    && s !in SpineNodes(a) && s !in SpineNodes(b) && s !in Nodes(t)
    && m.Keys == SpineNodes(a) + Nodes(t) + SpineNodes(b) + {s}
  }

  lemma BelowBin(m: Store, l: Tree, x: Node, r: Tree, n: Node?)
    ensures Below(m, Bin(l, x, r), n) <==> n == x && x in m && Below(m, l, m[x].left) && Below(m, r, m[x].right)
  {
  }

  lemma Parted(l: Tree, x: Node, r: Tree)
    ensures Distinct(Bin(l, x, r)) <==>
              x !in Nodes(l) && x !in Nodes(r) && Nodes(l) !! Nodes(r) && Distinct(l) && Distinct(r)
    ensures Nodes(Bin(l, x, r)) == Nodes(l) + Nodes(r) + {x}
  {
  }

  lemma SpineParted(up: Spine, x: Node, t: Tree)
    ensures SpineDistinct(On(up, x, t)) <==>
              x !in SpineNodes(up) && x !in Nodes(t) && SpineNodes(up) !! Nodes(t) && SpineDistinct(up) && Distinct(t)
    ensures SpineNodes(On(up, x, t)) == SpineNodes(up) + Nodes(t) + {x}
  {
  }

  /** The root and its right subtree go to the greater nodes. */
  lemma {:induction false} LinkLeftKeeps(m: Store, k: Store, s: Node, a: Spine, t: Tree, b: Spine)
    requires t.Bin? && Parts(m, t.node, s, a, t, b)
    requires var h := Tip(b, s); h in m && k == m[h := m[h].(left := t.node)]
    ensures t.node in m && Parts(k, m[t.node].left, s, a, t.l, On(b, t.node, t.r))
  {
    hide Below, Distinct, Nodes, SpineDistinct;
    Parted(t.l, t.node, t.r);
    SpineParted(b, t.node, t.r);
    BelowBin(m, t.l, t.node, t.r, t.node);
    Kept(m, k, Nodes(t), t.l, m[t.node].left);
    Kept(m, k, Nodes(t), t.r, m[t.node].right);
    KeptLeft(m, k, a, s);
    KeptRight(m, k, b, s);
  }

  lemma {:induction false} LinkRightKeeps(m: Store, k: Store, s: Node, a: Spine, t: Tree, b: Spine)
    requires t.Bin? && Parts(m, t.node, s, a, t, b)
    requires var h := Tip(a, s); h in m && k == m[h := m[h].(right := t.node)]
    ensures t.node in m && Parts(k, m[t.node].right, s, On(a, t.node, t.l), t.r, b)
  {
    hide Below, Distinct, Nodes, SpineDistinct;
    Parted(t.l, t.node, t.r);
    SpineParted(a, t.node, t.l);
    BelowBin(m, t.l, t.node, t.r, t.node);
    Kept(m, k, Nodes(t), t.l, m[t.node].left);
    Kept(m, k, Nodes(t), t.r, m[t.node].right);
    KeptLeft(m, k, a, s);
    KeptRight(m, k, b, s);
  }

  function RotatedRight(t: Tree): Tree
    requires t.Bin? && t.l.Bin?
  {
    Bin(t.l.l, t.l.node, Bin(t.l.r, t.node, t.r))
  }

  function RotatedLeft(t: Tree): Tree
    requires t.Bin? && t.r.Bin?
  {
    Bin(Bin(t.l, t.node, t.r.l), t.r.node, t.r.r)
  }

  lemma {:induction false} RotateRightKeeps(m: Store, k: Store, s: Node, a: Spine, t: Tree, b: Spine)
    requires t.Bin? && t.l.Bin? && Parts(m, t.node, s, a, t, b)
    requires var x, y := t.node, t.l.node;
               x in m && y in m && k == m[x := m[x].(left := m[y].right)][y := m[y].(right := x)]
    ensures Parts(k, t.l.node, s, a, RotatedRight(t), b)
  {
    hide Below, Distinct, Nodes, SpineDistinct, LeftLinked, RightLinked;
    var x, y, q := t.node, t.l.node, Nodes(t) - {t.node, t.l.node};
    Parted(t.l, x, t.r);
    Parted(t.l.l, y, t.l.r);
    Parted(t.l.r, x, t.r);
    Parted(t.l.l, y, Bin(t.l.r, x, t.r));
    assert t.l == Bin(t.l.l, y, t.l.r) && t == Bin(t.l, x, t.r);
    BelowBin(m, t.l, x, t.r, x);
    BelowBin(m, t.l.l, y, t.l.r, m[x].left);
    Kept(m, k, q, t.l.l, m[y].left);
    Kept(m, k, q, t.l.r, m[y].right);
    Kept(m, k, q, t.r, m[x].right);
    BelowBin(k, t.l.r, x, t.r, x);
    BelowBin(k, t.l.l, y, Bin(t.l.r, x, t.r), y);
    KeptLeft(m, k, a, s);
    KeptRight(m, k, b, s);
  }

  lemma {:induction false} RotateLeftKeeps(m: Store, k: Store, s: Node, a: Spine, t: Tree, b: Spine)
    requires t.Bin? && t.r.Bin? && Parts(m, t.node, s, a, t, b)
    requires var x, y := t.node, t.r.node;
               x in m && y in m && k == m[x := m[x].(right := m[y].left)][y := m[y].(left := x)]
    ensures Parts(k, t.r.node, s, a, RotatedLeft(t), b)
  {
    hide Below, Distinct, Nodes, SpineDistinct, LeftLinked, RightLinked;
    var x, y, q := t.node, t.r.node, Nodes(t) - {t.node, t.r.node};
    Parted(t.l, x, t.r);
    Parted(t.r.l, y, t.r.r);
    Parted(t.l, x, t.r.l);
    Parted(Bin(t.l, x, t.r.l), y, t.r.r);
    assert t.r == Bin(t.r.l, y, t.r.r) && t == Bin(t.l, x, t.r);
    BelowBin(m, t.l, x, t.r, x);
    BelowBin(m, t.r.l, y, t.r.r, m[x].right);
    Kept(m, k, q, t.l, m[x].left);
    Kept(m, k, q, t.r.l, m[y].left);
    Kept(m, k, q, t.r.r, m[y].right);
    BelowBin(k, t.l, x, t.r.l, x);
    BelowBin(k, Bin(t.l, x, t.r.l), y, t.r.r, y);
    KeptLeft(m, k, a, s);
    KeptRight(m, k, b, s);
  }

  // ------------------------------------------------------------------------
  // Assembling the parts
  // ------------------------------------------------------------------------

  lemma {:induction false} PlugNodes(z: Spine, u: Tree)
    ensures Nodes(PlugLeft(z, u)) == SpineNodes(z) + Nodes(u) == Nodes(PlugRight(z, u))
    ensures SpineDistinct(z) && Distinct(u) && SpineNodes(z) !! Nodes(u) ==>
              Distinct(PlugLeft(z, u)) && Distinct(PlugRight(z, u))
    decreases z
  {
    if z.On? {
      PlugNodes(z.up, Bin(z.side, z.node, u));
      PlugNodes(z.up, Bin(u, z.node, z.side));
    }
  }

  lemma {:induction false} LeftBelow(m: Store, z: Spine, s: Node, u: Tree)
    requires LeftLinked(m, z, s) && Tip(z, s) in m && s in m && Below(m, u, m[Tip(z, s)].right)
    ensures Below(m, PlugLeft(z, u), m[s].right)
    decreases z
  {
    if z.On? {
      LeftBelow(m, z.up, s, Bin(z.side, z.node, u));
    }
  }

  lemma {:induction false} RightBelow(m: Store, z: Spine, s: Node, u: Tree)
    requires RightLinked(m, z, s) && Tip(z, s) in m && s in m && Below(m, u, m[Tip(z, s)].left)
    ensures Below(m, PlugRight(z, u), m[s].left)
    decreases z
  {
    if z.On? {
      RightBelow(m, z.up, s, Bin(u, z.node, z.side));
    }
  }

  function Assembled(a: Spine, t: Tree, b: Spine): Tree
    requires t.Bin?
  {
    Bin(PlugLeft(a, t.l), t.node, PlugRight(b, t.r))
  }

  /** The first two links: the subtrees of the root go to the two trees. */
  lemma {:induction false} HungUp(m: Store, k: Store, s: Node, a: Spine, t: Tree, b: Spine)
    requires t.Bin? && Parts(m, t.node, s, a, t, b)
    requires var g, h := Tip(a, s), Tip(b, s);
             && t.node in m && g in m && h in m
             && k == (var i := m[g := m[g].(right := m[t.node].left)]; i[h := i[h].(left := m[t.node].right)])
    ensures s in k && Below(k, PlugLeft(a, t.l), k[s].right) && Below(k, PlugRight(b, t.r), k[s].left)
    ensures k.Keys == m.Keys
  {
    hide Below, Distinct, Nodes, SpineDistinct, PlugLeft, PlugRight;
    Parted(t.l, t.node, t.r);
    BelowBin(m, t.l, t.node, t.r, t.node);
    Kept(m, k, Nodes(t), t.l, m[t.node].left);
    Kept(m, k, Nodes(t), t.r, m[t.node].right);
    KeptLeft(m, k, a, s);
    KeptRight(m, k, b, s);
    LeftBelow(k, a, s, t.l);
    RightBelow(k, b, s, t.r);
  }

  lemma {:induction false} AssembleKeeps(m: Store, k: Store, s: Node, a: Spine, t: Tree, b: Spine)
    requires t.Bin? && Parts(m, t.node, s, a, t, b)
    requires var x, g, h := t.node, Tip(a, s), Tip(b, s);
             && x in m && g in m && h in m && s in m
             && k == (var i := m[g := m[g].(right := m[x].left)];
                      var j := i[h := i[h].(left := m[x].right)];
                      j[x := Cell(j[s].right, j[s].left)])
    ensures var u := Assembled(a, t, b); Below(k, u, t.node) && Distinct(u) && Nodes(u) == m.Keys - {s}
  {
    hide Below, Distinct, Nodes, SpineNodes, SpineDistinct, PlugLeft, PlugRight, LeftLinked, RightLinked;
    var x, g, h := t.node, Tip(a, s), Tip(b, s);
    var i := m[g := m[g].(right := m[x].left)];
    var j := i[h := i[h].(left := m[x].right)];
    HungUp(m, j, s, a, t, b);
    Parted(t.l, x, t.r);
    PlugNodes(a, t.l);
    PlugNodes(b, t.r);
    Parted(PlugLeft(a, t.l), x, PlugRight(b, t.r));
    Kept(j, k, Nodes(PlugLeft(a, t.l)), PlugLeft(a, t.l), j[s].right);
    Kept(j, k, Nodes(PlugRight(b, t.r)), PlugRight(b, t.r), j[s].left);
    BelowBin(k, PlugLeft(a, t.l), x, PlugRight(b, t.r), x);
  }
}
