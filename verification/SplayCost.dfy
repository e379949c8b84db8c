/** What splaying costs. The splay as a function of trees, its amortized cost, and the balance theorem that
    ext/noderb_extension/libuv/include/uv-private/tree.h promises. */
module SplayCost {
  import opened Powers
  import opened SplayTree

  // ------------------------------------------------------------------------
  // The splay as a function, the same to both sides
  // ------------------------------------------------------------------------

  function Side(t: Tree, left: bool): Tree
    requires t.Bin?
  {
    if left then t.l else t.r
  }

  /** A tree with `a` on the given side and `b` on the other. */
  function Joined(left: bool, a: Tree, x: Node, b: Tree): Tree {
    if left then Bin(a, x, b) else Bin(b, x, a)
  }

  /** Two levels to the same side: the two nodes change places before they hang under the result for what is below. One
      level, and then not to the same side: the node hangs under the result for its subtree. */
  function Splayed(t: Tree, key: int): (u: Tree)
    requires t.Bin?
    ensures u.Bin?
  {
    var left := key < t.node.key;
    var y := Side(t, left);
    if key == t.node.key || y.Leaf? then t
    else if key != y.node.key && (key < y.node.key <==> left) then
      var z := Side(y, left);
      var low := Joined(left, Side(y, !left), t.node, Side(t, !left));
      if z.Leaf? then Joined(left, z, y.node, low)
      else
        var u := Splayed(z, key);
        Joined(left, Side(u, left), u.node, Joined(left, Side(u, !left), y.node, low))
    else
      var u := Splayed(y, key);
      Joined(left, Side(u, left), u.node, Joined(left, Side(u, !left), t.node, Side(t, !left)))
  }

  /** The nodes on the way to the key, or to where it would be. */
  function Levels(t: Tree, key: int): nat
    requires t.Bin?
  {
    var y := Side(t, key < t.node.key);
    if key == t.node.key || y.Leaf? then 1 else 1 + Levels(y, key)
  }

  // ------------------------------------------------------------------------
  // Ranks
  // ------------------------------------------------------------------------

  /** The whole part of the logarithm to base 2. */
  function Rank(n: nat): nat {
    if n < 2 then 0 else 1 + Rank(n / 2)
  }

  lemma {:induction false} RankGrows(m: nat, n: nat)
    requires m <= n
    ensures Rank(m) <= Rank(n)
  {
    if m >= 2 {
      RankGrows(m / 2, n / 2);
    }
  }

  /** Two parts of the same rank make a whole of a higher one. */
  lemma {:induction false} RankSplit(a: nat, b: nat, n: nat)
    requires 1 <= a && 1 <= b && a + b <= n && Rank(a) == Rank(b)
    ensures Rank(n) > Rank(a)
  {
    if a >= 2 && b >= 2 {
      RankSplit(a / 2, b / 2, n / 2);
    }
  }

  /** The sum over all nodes of the rank of the tree below. */
  function Potential(t: Tree): nat {
    match t
    case Leaf => 0
    case Bin(l, _, r) => Potential(l) + Rank(Size(t)) + Potential(r)
  }

  lemma JoinedSize(left: bool, a: Tree, x: Node, b: Tree)
    ensures Size(Joined(left, a, x, b)) == Size(a) + 1 + Size(b)
    ensures Potential(Joined(left, a, x, b)) == Potential(a) + Rank(Size(a) + 1 + Size(b)) + Potential(b)
  {
  }

  lemma SidesSize(t: Tree, left: bool)
    requires t.Bin?
    ensures Size(t) == Size(Side(t, left)) + 1 + Size(Side(t, !left))
    ensures Potential(t) == Potential(Side(t, left)) + Rank(Size(t)) + Potential(Side(t, !left))
  {
  }

  /** A tree is its two sides joined. */
  lemma Rejoined(t: Tree, left: bool)
    requires t.Bin?
    ensures t == Joined(left, Side(t, left), t.node, Side(t, !left))
  {
  }

  lemma {:induction false} SplayedSize(t: Tree, key: int)
    requires t.Bin?
    ensures Size(Splayed(t, key)) == Size(t)
    decreases Size(t)
  {
    hide Size, Side, Joined;
    var left := key < t.node.key;
    var y, d := Side(t, left), Side(t, !left);
    SidesSize(t, left);
    if key != t.node.key && y.Bin? {
      var z, c := Side(y, left), Side(y, !left);
      SidesSize(y, left);
      if key != y.node.key && (key < y.node.key <==> left) {
        var low := Joined(left, c, t.node, d);
        JoinedSize(left, c, t.node, d);
        JoinedSize(left, z, y.node, low);
        if z.Bin? {
          SplayedSize(z, key);
          var u := Splayed(z, key);
          SidesSize(u, left);
          JoinedSize(left, Side(u, !left), y.node, low);
          JoinedSize(left, Side(u, left), u.node, Joined(left, Side(u, !left), y.node, low));
        }
      } else {
        SplayedSize(y, key);
        var u := Splayed(y, key);
        SidesSize(u, left);
        JoinedSize(left, Side(u, !left), t.node, d);
        JoinedSize(left, Side(u, left), u.node, Joined(left, Side(u, !left), t.node, d));
      }
    }
  }

  // ------------------------------------------------------------------------
  // The amortized cost of one splay
  // ------------------------------------------------------------------------

  /** Two levels to the same side, from a tree of size `s` over `y` to `z`, leaving `y1` and in it `t1`. */
  lemma {:induction false} CostStraight(s: nat, y: nat, z: nat, y1: nat, t1: nat)
    requires 1 <= z < y < s && t1 < y1 < s && 1 <= t1 && t1 + z < s
    ensures 3 * (Rank(y1) + Rank(t1) - Rank(y) - Rank(z)) + 2 <= 12 * (Rank(s) - Rank(z))
  {
    hide Rank;
    RankGrows(z, y);
    RankGrows(y1, s);
    RankGrows(t1, s);
    RankGrows(z, s);
    if Rank(z) == Rank(s) == Rank(t1) {
      RankSplit(z, t1, s);
    }
  }

  /** One level to one side and one to the other, from a tree of size `s` over `y` to `z`, leaving `y1` and `t1`. */
  lemma {:induction false} CostBent(s: nat, y: nat, z: nat, y1: nat, t1: nat)
    requires 1 <= z < y < s && 1 <= y1 && 1 <= t1 && y1 + t1 < s
    ensures 3 * (Rank(y1) + Rank(t1) - Rank(y) - Rank(z)) + 2 <= 12 * (Rank(s) - Rank(z))
  {
    hide Rank;
    RankGrows(z, y);
    RankGrows(y1, s);
    RankGrows(t1, s);
    RankGrows(z, s);
    if Rank(z) == Rank(s) && Rank(t1) == Rank(y1) == Rank(s) {
      RankSplit(y1, t1, s);
    }
  }

  /** One level to one side and two to the other. */
  lemma {:induction false} CostLong(s: nat, y: nat, w: nat, z: nat, w1: nat, y1: nat, t1: nat)
    requires 1 <= z < w < y < s && y1 < w1 < y && 1 <= y1 && y1 + z < y && t1 < s
    ensures 3 * (Rank(t1) + Rank(w1) + Rank(y1) - Rank(y) - Rank(w) - Rank(z)) + 3 <= 12 * (Rank(s) - Rank(z))
  {
    hide Rank;
    RankGrows(z, w);
    RankGrows(w, y);
    RankGrows(y, s);
    RankGrows(w1, y);
    RankGrows(y1, y);
    RankGrows(t1, s);
    if Rank(z) == Rank(y) == Rank(y1) {
      RankSplit(z, y1, y);
    }
  }

  /** `t` turns into `v`, with `u` in the place of `z`: this costs `levels`, at most, but for what is below. */
  ghost predicate Pays(t: Tree, z: Tree, u: Tree, v: Tree, levels: nat) {
    3 * (Potential(v) - Potential(t)) + levels
    <= 3 * (Potential(u) - Potential(z)) + 12 * (Rank(Size(t)) - Rank(Size(z)))
  }

  lemma {:induction false} StraightPays(left: bool, z: Tree, y: Node, c: Tree, x: Node, d: Tree, u: Tree)
    requires z.Bin? && u.Bin? && Size(u) == Size(z)
    ensures Pays(Joined(left, Joined(left, z, y, c), x, d), z, u,
                 Joined(left, Side(u, left), u.node, Joined(left, Side(u, !left), y, Joined(left, c, x, d))), 2)
  {
    hide Size, Potential, Rank, Side, Joined;
    var low := Joined(left, c, x, d);
    var mid := Joined(left, Side(u, !left), y, low);
    var t1 := Joined(left, z, y, c);
    JoinedSize(left, z, y, c);
    JoinedSize(left, t1, x, d);
    JoinedSize(left, c, x, d);
    JoinedSize(left, Side(u, !left), y, low);
    JoinedSize(left, Side(u, left), u.node, mid);
    SidesSize(u, left);
    SidesSize(z, left);
    CostStraight(Size(Joined(left, t1, x, d)), Size(t1), Size(z), Size(mid), Size(low));
  }

  lemma {:induction false} BentPays(left: bool, z: Tree, y: Node, c: Tree, x: Node, d: Tree, u: Tree)
    requires z.Bin? && u.Bin? && Size(u) == Size(z)
    ensures Pays(Joined(left, Joined(!left, z, y, c), x, d), z, u,
                 Joined(left, Joined(!left, Side(u, left), y, c), u.node, Joined(left, Side(u, !left), x, d)), 2)
  {
    hide Size, Potential, Rank, Side, Joined;
    var t1 := Joined(!left, z, y, c);
    var a, b := Joined(!left, Side(u, left), y, c), Joined(left, Side(u, !left), x, d);
    JoinedSize(!left, z, y, c);
    JoinedSize(left, t1, x, d);
    JoinedSize(!left, Side(u, left), y, c);
    JoinedSize(left, Side(u, !left), x, d);
    JoinedSize(left, a, u.node, b);
    SidesSize(u, left);
    SidesSize(z, left);
    CostBent(Size(Joined(left, t1, x, d)), Size(t1), Size(z), Size(a), Size(b));
  }

  lemma {:induction false} LongPays(left: bool, z: Tree, w: Node, e: Tree, y: Node, c: Tree, x: Node, d: Tree, u: Tree)
    requires z.Bin? && u.Bin? && Size(u) == Size(z)
    ensures Pays(Joined(left, Joined(!left, Joined(!left, z, w, e), y, c), x, d), z, u,
                 Joined(left, Joined(!left, Side(u, left), w, Joined(!left, e, y, c)), u.node,
                        Joined(left, Side(u, !left), x, d)), 3)
  {
    hide Size, Potential, Rank, Side, Joined;
    var t2 := Joined(!left, z, w, e);
    var t1 := Joined(!left, t2, y, c);
    var low := Joined(!left, e, y, c);
    var a, b := Joined(!left, Side(u, left), w, low), Joined(left, Side(u, !left), x, d);
    JoinedSize(!left, z, w, e);
    JoinedSize(!left, t2, y, c);
    JoinedSize(left, t1, x, d);
    JoinedSize(!left, e, y, c);
    JoinedSize(!left, Side(u, left), w, low);
    JoinedSize(left, Side(u, !left), x, d);
    JoinedSize(left, a, u.node, b);
    SidesSize(u, left);
    SidesSize(z, left);
    CostLong(Size(Joined(left, t1, x, d)), Size(t1), Size(t2), Size(z), Size(a), Size(low), Size(b));
  }

  /** The last level is a single rotation. */
  lemma {:induction false} EndPays(left: bool, e: Tree, y: Node, c: Tree, x: Node, d: Tree)
    ensures var t := Joined(left, Joined(left, e, y, c), x, d);
            3 * Potential(Joined(left, e, y, Joined(left, c, x, d))) <= 3 * Potential(t) + 3 * Rank(Size(t))
  {
    hide Size, Potential, Rank, Joined;
    var t1, low := Joined(left, e, y, c), Joined(left, c, x, d);
    JoinedSize(left, e, y, c);
    JoinedSize(left, t1, x, d);
    JoinedSize(left, c, x, d);
    JoinedSize(left, e, y, low);
    RankGrows(Size(low), Size(Joined(left, t1, x, d)));
  }

  lemma {:induction false} LongEndPays(left: bool, w: Node, e: Tree, y: Node, c: Tree, x: Node, d: Tree)
    ensures var t := Joined(left, Joined(!left, Joined(!left, Leaf, w, e), y, c), x, d);
            3 * Potential(Joined(left, Joined(!left, e, y, c), w, Joined(left, Leaf, x, d)))
            <= 3 * Potential(t) + 6 * Rank(Size(t))
  {
    hide Size, Potential, Rank, Joined;
    var t2 := Joined(!left, Leaf, w, e);
    var t1 := Joined(!left, t2, y, c);
    var a, b := Joined(!left, e, y, c), Joined(left, Leaf, x, d);
    JoinedSize(!left, Leaf, w, e);
    JoinedSize(!left, t2, y, c);
    JoinedSize(left, t1, x, d);
    JoinedSize(!left, e, y, c);
    JoinedSize(left, Leaf, x, d);
    JoinedSize(left, a, w, b);
    RankGrows(Size(a), Size(Joined(left, t1, x, d)));
    RankGrows(Size(b), Size(Joined(left, t1, x, d)));
  }

  /** With three times the potential as savings, a splay costs no more than twelve times the rank of the tree, and 3. */
  lemma {:induction false} Access(t: Tree, key: int)
    requires t.Bin?
    ensures 3 * Potential(Splayed(t, key)) + Levels(t, key) <= 3 * Potential(t) + 12 * Rank(Size(t)) + 3
    decreases Size(t), 1
  {
    hide Size, Potential, Rank, Joined;
    var left := key < t.node.key;
    var y, d := Side(t, left), Side(t, !left);
    Rejoined(t, left);
    SidesSize(t, left);
    if key != t.node.key && y.Bin? {
      var z, c := Side(y, left), Side(y, !left);
      Rejoined(y, left);
      SidesSize(y, left);
      if key != y.node.key && (key < y.node.key <==> left) {
        if z.Leaf? {
          EndPays(left, z, y.node, c, t.node, d);
        } else {
          Access(z, key);
          SplayedSize(z, key);
          StraightPays(left, z, y.node, c, t.node, d, Splayed(z, key));
        }
      } else if key == y.node.key || c.Leaf? {
        EndPays(left, z, y.node, c, t.node, d);
      } else {
        AccessBent(t, key);
      }
    }
  }

  lemma {:induction false} AccessBent(t: Tree, key: int)
    requires t.Bin? && key != t.node.key
    requires var left := key < t.node.key; var y := Side(t, left);
             y.Bin? && key != y.node.key && (key < y.node.key <==> !left) && Side(y, !left).Bin?
    ensures 3 * Potential(Splayed(t, key)) + Levels(t, key) <= 3 * Potential(t) + 12 * Rank(Size(t)) + 3
    decreases Size(t), 0
  {
    hide Size, Potential, Rank, Joined;
    var left := key < t.node.key;
    var y, d := Side(t, left), Side(t, !left);
    var e, c := Side(y, left), Side(y, !left);
    Rejoined(t, left);
    SidesSize(t, left);
    Rejoined(y, !left);
    SidesSize(y, left);
    BentShape(t, key, left, y, e, c, d);
    if key != c.node.key && (key < c.node.key <==> !left) {
      var z, f := Side(c, !left), Side(c, left);
      Rejoined(c, !left);
      SidesSize(c, left);
      if z.Leaf? {
        LongEndPays(left, c.node, f, y.node, e, t.node, d);
      } else {
        Access(z, key);
        SplayedSize(z, key);
        LongPays(left, z, c.node, f, y.node, e, t.node, d, Splayed(z, key));
      }
    } else {
      Access(c, key);
      SplayedSize(c, key);
      BentPays(left, c, y.node, e, t.node, d, Splayed(c, key));
    }
  }

  lemma BentShape(t: Tree, key: int, left: bool, y: Tree, e: Tree, c: Tree, d: Tree)
    requires t.Bin? && y.Bin? && c.Bin? && key != t.node.key && key != y.node.key
    requires left == (key < t.node.key) && !left == (key < y.node.key)
    requires y == Side(t, left) && d == Side(t, !left) && e == Side(y, left) && c == Side(y, !left)
    ensures if key != c.node.key && (key < c.node.key <==> !left) then
              var z, f := Side(c, !left), Side(c, left);
              var low := Joined(!left, f, y.node, e);
              if z.Leaf? then
                && Levels(t, key) == 3
                && Splayed(t, key) == Joined(left, low, c.node, Joined(left, Leaf, t.node, d))
              else
                var u := Splayed(z, key);
                && Levels(t, key) == 3 + Levels(z, key)
                && Splayed(t, key) == Joined(left, Joined(!left, Side(u, left), c.node, low), u.node,
                                             Joined(left, Side(u, !left), t.node, d))
            else
              var u := Splayed(c, key);
              && Levels(t, key) == 2 + Levels(c, key)
              && Splayed(t, key) == Joined(left, Joined(!left, Side(u, left), y.node, e), u.node,
                                           Joined(left, Side(u, !left), t.node, d))
  {
    hide Size, Potential, Rank;
  }

  // ------------------------------------------------------------------------
  // The balance theorem
  // ------------------------------------------------------------------------

  /** SPLAY_FIND, SPLAY_INSERT and SPLAY_REMOVE. */
  datatype Op = Finding(key: int) | Inserting(elm: Node) | Removing(key: int)

  function Inserted(t: Tree, elm: Node): Tree {
    if t.Leaf? then Bin(Leaf, elm, Leaf)
    else
      var v := Splayed(t, elm.key);
      if elm.key < v.node.key then Bin(v.l, elm, Bin(Leaf, v.node, v.r))
      else if elm.key > v.node.key then Bin(Bin(v.l, v.node, Leaf), elm, v.r)
      else v
  }

  function Removed(t: Tree, key: int): Tree {
    if t.Leaf? then t
    else
      var v := Splayed(t, key);
      if v.node.key != key then v
      else if v.l.Leaf? then v.r
      else
        var w := Splayed(v.l, key);
        Bin(w.l, w.node, v.r)
  }

  function After(t: Tree, op: Op): Tree {
    match op
    case Finding(key) => if t.Leaf? then t else Splayed(t, key)
    case Inserting(elm) => Inserted(t, elm)
    case Removing(key) => Removed(t, key)
  }

  function LevelsOf(t: Tree, key: int): nat {
    if t.Leaf? then 0 else Levels(t, key)
  }

  /** The nodes on the ways of the splays. */
  function Cost(t: Tree, op: Op): nat {
    match op
    case Finding(key) => LevelsOf(t, key)
    case Inserting(elm) => LevelsOf(t, elm.key)
    case Removing(key) =>
      LevelsOf(t, key)
      + if t.Bin? && Splayed(t, key).node.key == key then LevelsOf(Splayed(t, key).l, key) else 0
  }

  function AfterAll(t: Tree, ops: seq<Op>): Tree
    decreases |ops|
  {
    if ops == [] then t else AfterAll(After(t, ops[0]), ops[1..])
  }

  function CostAll(t: Tree, ops: seq<Op>): nat
    decreases |ops|
  {
    if ops == [] then 0 else Cost(t, ops[0]) + CostAll(After(t, ops[0]), ops[1..])
  }

  function Inserts(ops: seq<Op>): nat {
    if ops == [] then 0 else (if ops[0].Inserting? then 1 else 0) + Inserts(ops[1..])
  }

  lemma BinSize(l: Tree, x: Node, r: Tree)
    ensures Size(Bin(l, x, r)) == Size(l) + 1 + Size(r)
    ensures Potential(Bin(l, x, r)) == Potential(l) + Rank(Size(l) + 1 + Size(r)) + Potential(r)
  {
  }

  lemma {:induction false} SplayPays(t: Tree, key: int, n: nat)
    requires t.Bin? && Size(t) <= n
    ensures var u := Splayed(t, key);
            && Size(u) == Size(t) == Size(u.l) + 1 + Size(u.r)
            && 3 * Potential(u) + Levels(t, key) <= 3 * Potential(t) + 12 * Rank(n) + 3
            && Potential(u) == Potential(u.l) + Rank(Size(t)) + Potential(u.r)
  {
    hide Rank, Splayed, Levels;
    Access(t, key);
    SplayedSize(t, key);
    RankGrows(Size(t), n);
  }

  lemma {:induction false} InsertPays(t: Tree, elm: Node, n: nat)
    requires Size(t) < n
    ensures Size(Inserted(t, elm)) <= Size(t) + 1
    ensures 3 * Potential(Inserted(t, elm)) + LevelsOf(t, elm.key) <= 3 * Potential(t) + 15 * Rank(n) + 3
  {
    hide Rank, Splayed, Levels, Size, Potential;
    LeafSize();
    if t.Leaf? {
      BinSize(Leaf, elm, Leaf);
      RankGrows(1, n);
    } else {
      SplayPays(t, elm.key, n);
      var v := Splayed(t, elm.key);
      BinSize(Leaf, v.node, v.r);
      BinSize(v.l, elm, Bin(Leaf, v.node, v.r));
      BinSize(v.l, v.node, Leaf);
      BinSize(Bin(v.l, v.node, Leaf), elm, v.r);
      RankGrows(Size(v.r) + 1, Size(t));
      RankGrows(Size(v.l) + 1, Size(t));
      RankGrows(Size(t) + 1, n);
    }
  }

  lemma LeafSize()
    ensures Size(Leaf) == 0 && Potential(Leaf) == 0
  {
  }

  lemma {:induction false} RemovePays(t: Tree, key: int, n: nat)
    requires Size(t) <= n
    ensures Size(Removed(t, key)) <= Size(t)
    ensures 3 * Potential(Removed(t, key)) + Cost(t, Removing(key)) <= 3 * Potential(t) + 27 * Rank(n) + 6
  {
    hide Rank, Splayed, Levels, Size, Potential;
    LeafSize();
    if t.Bin? {
      SplayPays(t, key, n);
      var v := Splayed(t, key);
      if v.node.key == key && v.l.Bin? {
        SplayPays(v.l, key, n);
        var w := Splayed(v.l, key);
        BinSize(w.l, w.node, v.r);
        RankGrows(Size(w.l) + 1 + Size(v.r), n);
      }
    }
  }

  lemma {:induction false} OpPays(t: Tree, op: Op, n: nat)
    requires Size(t) + (if op.Inserting? then 1 else 0) <= n
    ensures Size(After(t, op)) <= Size(t) + if op.Inserting? then 1 else 0
    ensures 3 * Potential(After(t, op)) + Cost(t, op) <= 3 * Potential(t) + 27 * Rank(n) + 6
  {
    hide Rank, Splayed, Levels, Size, Potential, Inserted, Removed;
    match op
    case Finding(key) =>
      if t.Bin? {
        SplayPays(t, key, n);
      }
    case Inserting(elm) => InsertPays(t, elm, n);
    case Removing(key) => RemovePays(t, key, n);
  }

  /** Any operations, one after another, with savings at the start and at the end. */
  lemma {:induction false} Amortized(t: Tree, ops: seq<Op>, n: nat)
    requires Size(t) + Inserts(ops) <= n
    ensures 3 * Potential(AfterAll(t, ops)) + CostAll(t, ops) <= 3 * Potential(t) + |ops| * (27 * Rank(n) + 6)
    decreases |ops|
  {
    hide Rank, Size, Potential, After, Cost;
    if ops == [] {
    } else {
      OpPays(t, ops[0], n);
      Amortized(After(t, ops[0]), ops[1..], n);
      OneMore(|ops|, 27 * Rank(n) + 6);
    }
  }

  lemma OneMore(k: int, c: int)
    ensures k * c == (k - 1) * c + c
  {
  }

  /** The balance theorem: any operations on a tree that is empty at first, with `n` inserts among them, visit no more
      nodes than their number times a multiple of the logarithm of `n`. */
  lemma {:induction false} Balance(ops: seq<Op>)
    ensures CostAll(Leaf, ops) <= |ops| * (27 * Rank(Inserts(ops)) + 6)
  {
    LeafSize();
    Amortized(Leaf, ops, Inserts(ops));
  }

  lemma {:induction false} PotentialBound(t: Tree, n: nat)
    requires Size(t) <= n
    ensures Potential(t) <= Size(t) * Rank(n)
  {
    hide Rank;
    if t.Bin? {
      PotentialBound(t.l, n);
      PotentialBound(t.r, n);
      RankGrows(Size(t), n);
      Spread(Size(t.l), Size(t.r), Rank(n));
    }
  }

  lemma Spread(a: int, b: int, r: int)
    ensures (a + 1 + b) * r == a * r + r + b * r
  {
  }

  /** On a tree of any shape, the first operations may take as much more as there are nodes times three logarithms. */
  lemma {:induction false} BalanceFrom(t: Tree, ops: seq<Op>, n: nat)
    requires n == Size(t) + Inserts(ops)
    ensures CostAll(t, ops) <= 3 * (Size(t) * Rank(n)) + |ops| * (27 * Rank(n) + 6)
  {
    Amortized(t, ops, n);
    PotentialBound(t, n);
  }

  /** The rank is the logarithm. */
  lemma {:induction false} RankIsLogarithm(n: nat)
    requires n >= 1
    ensures Pow2(Rank(n)) <= n < 2 * Pow2(Rank(n))
  {
    if n >= 2 {
      RankIsLogarithm(n / 2);
    }
  }
}
