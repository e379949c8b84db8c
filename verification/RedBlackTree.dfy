/** Red-black trees as values: shape, order and balance, and what changes them.
    The trees are those that the RB macros of tree.h build in memory. */
module RedBlackTree {
  import opened Powers

  class Node {
    const key: int
    var left: Node?
    var right: Node?
    var parent: Node?
    var red: bool

    constructor (key: int)
      ensures this.key == key
    {
      this.key := key;
      left, right, parent, red := null, null, null, false;
    }
  }

  datatype Tree = Leaf | Bin(l: Tree, node: Node, red: bool, r: Tree)

  /** A tree with one subtree cut out: the way from the hole up to the root. */
  datatype Context =
    | Top
    | InLeft(up: Context, node: Node, red: bool, r: Tree)
    | InRight(up: Context, l: Tree, node: Node, red: bool)

  function Plug(c: Context, t: Tree): Tree
    decreases c
  {
    match c
    case Top => t
    case InLeft(up, x, red, r) => Plug(up, Bin(t, x, red, r))
    case InRight(up, l, x, red) => Plug(up, Bin(l, x, red, t))
  }

  // ------------------------------------------------------------------------
  // Order
  // ------------------------------------------------------------------------

  /** The nodes from left to right. */
  function Order(t: Tree): seq<Node> {
    match t
    case Leaf => []
    case Bin(l, x, _, r) => Order(l) + [x] + Order(r)
  }

  function Before(c: Context): seq<Node> {
    match c
    case Top => []
    case InLeft(up, _, _, _) => Before(up)
    case InRight(up, l, x, _) => Before(up) + Order(l) + [x]
  }

  function After(c: Context): seq<Node> {
    match c
    case Top => []
    case InLeft(up, x, _, r) => [x] + Order(r) + After(up)
    case InRight(up, _, _, _) => After(up)
  }

  lemma {:induction false} RegroupParts(a: seq<Node>, b: seq<Node>, d: seq<Node>, e: seq<Node>, f: seq<Node>)
    ensures a + (b + d + e) + f == a + b + (d + e + f)
    ensures a + (b + d + e) + f == (a + b + d) + e + f
  {
  }

  lemma {:induction false} OrderPlug(c: Context, t: Tree)
    ensures Order(Plug(c, t)) == Before(c) + Order(t) + After(c)
    decreases c
  {
    match c {
      case Top =>
      case InLeft(up, x, red, r) =>
        OrderPlug(up, Bin(t, x, red, r));
        RegroupParts(Before(up), Order(t), [x], Order(r), After(up));
      case InRight(up, l, x, red) =>
        OrderPlug(up, Bin(l, x, red, t));
        RegroupParts(Before(up), Order(l), [x], Order(t), After(up));
    }
  }

  ghost predicate Sorted(s: seq<Node>) {
    forall i, j :: 0 <= i < j < |s| ==> s[i].key < s[j].key
  }

  // ------------------------------------------------------------------------
  // Balance
  // ------------------------------------------------------------------------

  predicate IsRed(t: Tree) { t.Bin? && t.red }

  predicate IsRedAbove(c: Context) { !c.Top? && c.red }

  /** Every path down from here to a leaf meets h black nodes, and no red node has a red child. */
  predicate Balanced(t: Tree, h: int) {
    match t
    case Leaf => h == 0
    case Bin(l, _, red, r) =>
      var k := if red then h else h - 1;
      Balanced(l, k) && Balanced(r, k) && (red ==> !IsRed(l) && !IsRed(r))
  }

  /** The same for the rest of the tree when the hole is filled with h black nodes on every path;
      nothing is asked about the colors on both sides of the hole. The root is black. */
  predicate BalancedAround(c: Context, h: int) {
    match c
    case Top => true
    case InLeft(up, _, red, r) =>
      Balanced(r, h) && (red ==> !IsRed(r) && !IsRedAbove(up) && !up.Top?)
          && BalancedAround(up, if red then h else h + 1)
    case InRight(up, l, _, red) =>
      Balanced(l, h) && (red ==> !IsRed(l) && !IsRedAbove(up) && !up.Top?)
          && BalancedAround(up, if red then h else h + 1)
  }

  /** A red-black tree. */
  ghost predicate RedBlack(t: Tree) {
    !IsRed(t) && exists h :: Balanced(t, h)
  }

  lemma {:induction false} BalancedPlug(c: Context, t: Tree, h: int)
    requires BalancedAround(c, h) && Balanced(t, h) && !(IsRed(t) && (c.Top? || IsRedAbove(c)))
    ensures RedBlack(Plug(c, t))
    decreases c
  {
    match c {
      case Top =>
      case InLeft(up, x, red, r) =>
        BalancedPlug(up, Bin(t, x, red, r), if red then h else h + 1);
      case InRight(up, l, x, red) =>
        BalancedPlug(up, Bin(l, x, red, t), if red then h else h + 1);
    }
  }

  /** The other way: in a red-black tree every subtree and what is around it are balanced. */
  lemma {:induction false} BalancedUnplug(c: Context, t: Tree) returns (h: int)
    requires RedBlack(Plug(c, t))
    ensures BalancedAround(c, h) && Balanced(t, h) && !(IsRed(t) && (c.Top? || IsRedAbove(c)))
    decreases c
  {
    match c {
      case Top =>
        h :| Balanced(t, h);
      case InLeft(up, x, red, r) =>
        h := BalancedUnplug(up, Bin(t, x, red, r));
        h := if red then h else h - 1;
      case InRight(up, l, x, red) =>
        h := BalancedUnplug(up, Bin(l, x, red, t));
        h := if red then h else h - 1;
    }
  }

  function Height(t: Tree): nat {
    match t
    case Leaf => 0
    case Bin(l, _, _, r) => 1 + if Height(l) > Height(r) then Height(l) else Height(r)
  }

  lemma {:induction false} BlackHeightBounds(t: Tree, h: int)
    requires Balanced(t, h)
    ensures h >= 0 && |Order(t)| + 1 >= Pow2(h)
    ensures Height(t) <= 2 * h + if IsRed(t) then 1 else 0
  {
    if t.Leaf? {
    } else {
      var k := if t.red then h else h - 1;
      BlackHeightBounds(t.l, k);
      BlackHeightBounds(t.r, k);
    }
  }

  /** The height of a tree with n nodes is at most 2 lg(n + 1): 2^(height/2), rounded up, is at most n + 1. */
  lemma {:induction false} HeightBound(t: Tree)
    requires RedBlack(t)
    ensures Pow2((Height(t) + 1) / 2) <= |Order(t)| + 1
  {
    var h :| Balanced(t, h);
    BlackHeightBounds(t, h);
    PowGrows((Height(t) + 1) / 2, h);
  }

  // ------------------------------------------------------------------------
  // Trees in memory
  // ------------------------------------------------------------------------

  function Nodes(t: Tree): set<Node> {
    match t
    case Leaf => {}
    case Bin(l, x, _, r) => Nodes(l) + {x} + Nodes(r)
  }

  function NodesAround(c: Context): set<Node> {
    match c
    case Top => {}
    case InLeft(up, x, _, r) => NodesAround(up) + {x} + Nodes(r)
    case InRight(up, l, x, _) => NodesAround(up) + {x} + Nodes(l)
  }

  /** No node occurs twice. */
  ghost predicate Distinct(t: Tree) {
    match t
    case Leaf => true
    case Bin(l, x, _, r) => x !in Nodes(l) && x !in Nodes(r) && Nodes(l) !! Nodes(r) && Distinct(l) && Distinct(r)
  }

  ghost predicate DistinctAround(c: Context) {
    match c
    case Top => true
    case InLeft(up, x, _, r) =>
      x !in NodesAround(up) && x !in Nodes(r) && NodesAround(up) !! Nodes(r) && DistinctAround(up) && Distinct(r)
    case InRight(up, l, x, _) =>
      x !in NodesAround(up) && x !in Nodes(l) && NodesAround(up) !! Nodes(l) && DistinctAround(up) && Distinct(l)
  }

  /** The four fields that a node keeps for the tree. */
  datatype Cell = Cell(left: Node?, right: Node?, parent: Node?, red: bool)

  type Store = map<Node, Cell>

  /** What is in memory at the nodes `s`. */
  ghost function Memory(s: set<Node>): Store
    reads s
  {
    map x | x in s :: Cell(x.left, x.right, x.parent, x.red)
  }

  /** The links and colors below `n`, whose parent is `p`, are those of `t`. */
  ghost predicate Below(m: Store, t: Tree, n: Node?, p: Node?) {
    match t
    case Leaf => n == null
    case Bin(l, x, red, r) =>
      && n == x && x in m && m[x].parent == p && m[x].red == red
      && Below(m, l, m[x].left, x) && Below(m, r, m[x].right, x)
  }

  function Parent(c: Context): Node? {
    if c.Top? then null else c.node
  }

  /** The pointer that leads into the hole; `root` is the head's. */
  ghost function Hole(m: Store, c: Context, root: Node?): Node? {
    match c
    case Top => root
    case InLeft(_, x, _, _) => if x in m then m[x].left else null
    case InRight(_, _, x, _) => if x in m then m[x].right else null
  }

  /** The links and colors around the hole are those of `c`. */
  ghost predicate Around(m: Store, c: Context, root: Node?) {
    match c
    case Top => true
    case InLeft(up, x, red, r) =>
      && x in m && m[x].parent == Parent(up) && m[x].red == red && Below(m, r, m[x].right, x)
      && Hole(m, up, root) == x && Around(m, up, root)
    case InRight(up, l, x, red) =>
      && x in m && m[x].parent == Parent(up) && m[x].red == red && Below(m, l, m[x].left, x)
      && Hole(m, up, root) == x && Around(m, up, root)
  }

  class Head {
    var root: Node?

    constructor ()
      ensures root == null
    {
      root := null;
    }
  }

  /** The tree at `head` is `t`, and its nodes are `s`. */
  ghost predicate Holds(head: Head, s: set<Node>, t: Tree)
    reads head, s
  {
    s == Nodes(t) && Distinct(t) && Below(Memory(s), t, head.root, null)
  }

  /** In memory `m` the tree is `t` in the context `c`. */
  ghost predicate Focus(m: Store, root: Node?, c: Context, t: Tree) {
    && Around(m, c, root) && Below(m, t, Hole(m, c, root), Parent(c))
    && Distinct(t) && DistinctAround(c) && Nodes(t) !! NodesAround(c)
  }

  lemma {:induction false} NodesPlug(c: Context, t: Tree)
    ensures Nodes(Plug(c, t)) == NodesAround(c) + Nodes(t)
    decreases c
  {
    match c {
      case Top =>
      case InLeft(up, x, red, r) =>
        NodesPlug(up, Bin(t, x, red, r));
      case InRight(up, l, x, red) =>
        NodesPlug(up, Bin(l, x, red, t));
    }
  }

  /** Looking at a subtree in its place. */
  lemma {:induction false} ZoomIn(m: Store, root: Node?, c: Context, t: Tree)
    requires Below(m, Plug(c, t), root, null) && Distinct(Plug(c, t))
    ensures Focus(m, root, c, t)
    decreases c
  {
    match c {
      case Top =>
      case InLeft(up, x, red, r) =>
        ZoomIn(m, root, up, Bin(t, x, red, r));
      case InRight(up, l, x, red) =>
        ZoomIn(m, root, up, Bin(l, x, red, t));
    }
  }

  lemma {:induction false} ZoomOut(m: Store, root: Node?, c: Context, t: Tree)
    requires Focus(m, root, c, t)
    ensures Below(m, Plug(c, t), root, null) && Distinct(Plug(c, t))
    decreases c
  {
    match c {
      case Top =>
      case InLeft(up, x, red, r) =>
        ZoomOut(m, root, up, Bin(t, x, red, r));
      case InRight(up, l, x, red) =>
        ZoomOut(m, root, up, Bin(l, x, red, t));
    }
  }

  // ------------------------------------------------------------------------
  // Two memories that agree on a part
  // ------------------------------------------------------------------------

  ghost predicate Same(m: Store, k: Store, s: set<Node>) {
    forall x <- s :: x in m && x in k && m[x] == k[x]
  }

  lemma {:induction false} Kept(m: Store, k: Store, s: set<Node>, t: Tree, n: Node?, p: Node?)
    requires Below(m, t, n, p) && Nodes(t) <= s && Same(m, k, s)
    ensures Below(k, t, n, p)
    decreases t
  {
    if t.Leaf? {
    } else {
      Kept(m, k, s, t.l, m[n].left, n);
      Kept(m, k, s, t.r, m[n].right, n);
    }
  }

  lemma {:induction false} KeptAround(m: Store, k: Store, s: set<Node>, c: Context, root: Node?)
    requires Around(m, c, root) && NodesAround(c) <= s && Same(m, k, s)
    ensures Around(k, c, root) && Hole(k, c, root) == Hole(m, c, root)
    decreases c
  {
    match c {
      case Top =>
      case InLeft(up, x, _, r) =>
        KeptAround(m, k, s, up, root);
        Kept(m, k, s, r, m[x].right, x);
      case InRight(up, l, x, _) =>
        KeptAround(m, k, s, up, root);
        Kept(m, k, s, l, m[x].left, x);
    }
  }

  /** `k` is `m` with the root of the subtree at `n` moved under `p`. */
  ghost predicate Adopted(m: Store, k: Store, n: Node?, p: Node?) {
    n != null ==> n in m && n in k && k[n] == m[n].(parent := p)
  }

  lemma {:induction false} KeptBelow(m: Store, k: Store, t: Tree, n: Node?, was: Node?, p: Node?)
    requires Below(m, t, n, was) && Distinct(t) && Same(m, k, Nodes(t) - {n}) && Adopted(m, k, n, p)
    ensures Below(k, t, n, p)
  {
    if t.Bin? {
      Kept(m, k, Nodes(t) - {n}, t.l, m[n].left, n);
      Kept(m, k, Nodes(t) - {n}, t.r, m[n].right, n);
    }
  }

  /** `k` is `m` with the pointer into the hole changed to `n`; the head's root is then `root`. */
  ghost predicate Replaced(m: Store, k: Store, c: Context, n: Node?, was: Node?, root: Node?) {
    && (if c.Top? then root == n else root == was && c.node in m && c.node in k)
    && (c.InLeft? ==> k[c.node] == m[c.node].(left := n))
    && (c.InRight? ==> k[c.node] == m[c.node].(right := n))
  }

  lemma {:induction false} KeptOutside(m: Store, k: Store, c: Context, n: Node?, was: Node?, root: Node?)
    requires Around(m, c, was) && DistinctAround(c) && Same(m, k, NodesAround(c) - {Parent(c)})
    requires Replaced(m, k, c, n, was, root)
    ensures Around(k, c, root) && Hole(k, c, root) == n
  {
    var s := NodesAround(c) - {Parent(c)};
    match c {
      case Top =>
      case InLeft(up, x, _, r) =>
        KeptAround(m, k, s, up, root);
        Kept(m, k, s, r, m[x].right, x);
      case InRight(up, l, x, _) =>
        KeptAround(m, k, s, up, root);
        Kept(m, k, s, l, m[x].left, x);
    }
  }
}
