/** A family of lists in memory, and what it is as sequences. Relates ext/noderb_extension/libuv/src/ares/ares_llist.c
    to the operations that the query engine is specified with. */
module AresRings {
  import opened AresList
  import I = AresIndex

  /** All heads and nodes are in `nodes`, and none stands in two places. */
  ghost predicate Apart(heads: seq<ListNode>, rings: seq<seq<ListNode>>, nodes: set<ListNode>) {
    && |rings| == |heads|
    && (forall b :: 0 <= b < |heads| ==> heads[b] in nodes)
    && (forall b, i :: 0 <= b < |rings| && 0 <= i < |rings[b]| ==> rings[b][i] in nodes)
    && (forall b, c :: 0 <= b < c < |heads| ==> heads[b] != heads[c])
    && (forall b, c, i :: 0 <= b < |heads| && 0 <= c < |rings| && 0 <= i < |rings[c]| ==> rings[c][i] != heads[b])
    && (forall b, c, i, j ::
          0 <= b < |rings| && 0 <= c < |rings| && 0 <= i < |rings[b]| && 0 <= j < |rings[c]| && b != c ==>
            rings[b][i] != rings[c][j])
  }

  /** The lists behind the heads hold the nodes `rings`, no node twice. */
  ghost predicate Family(heads: seq<ListNode>, rings: seq<seq<ListNode>>, nodes: set<ListNode>)
    reads nodes
  {
    Apart(heads, rings, nodes) && forall b :: 0 <= b < |heads| ==> Ring(heads[b], rings[b])
  }

  /** Two lists have nothing in common. */
  lemma ApartAt(heads: seq<ListNode>, rings: seq<seq<ListNode>>, nodes: set<ListNode>, b: nat, c: nat)
    requires Apart(heads, rings, nodes) && b < |heads| && c < |heads|
    ensures |rings| == |heads| && heads[b] in nodes
    ensures forall i :: 0 <= i < |rings[c]| ==> rings[c][i] in nodes && rings[c][i] != heads[b]
    ensures b != c ==> heads[b] != heads[c]
    ensures b != c ==> forall i, j :: 0 <= i < |rings[b]| && 0 <= j < |rings[c]| ==> rings[b][i] != rings[c][j]
  {
    if b < c {
      assert heads[b] != heads[c];
    } else if c < b {
      assert heads[c] != heads[b];
    }
  }

  function Datas(ring: seq<ListNode>): seq<nat> {
    seq(|ring|, i requires 0 <= i < |ring| => ring[i].data)
  }

  /** The lists as sequences of query numbers. */
  function Ids(rings: seq<seq<ListNode>>): I.Lists {
    seq(|rings|, b requires 0 <= b < |rings| => Datas(rings[b]))
  }

  lemma DatasAppend(ring: seq<ListNode>, node: ListNode)
    ensures Datas(ring + [node]) == Datas(ring) + [node.data]
  {
  }

  lemma {:induction false} DatasWithout(ring: seq<ListNode>, k: nat)
    requires k < |ring| && I.NoDup(Datas(ring))
    ensures Datas(ring[..k] + ring[k + 1..]) == I.Drop(Datas(ring), ring[k].data)
  {
    I.DropAt(Datas(ring), k);
  }

  /** The node goes to the end of list `b`, as `Link` says. */
  method LinkLast(node: ListNode, b: nat, heads: seq<ListNode>, ghost rings: seq<seq<ListNode>>,
      ghost nodes: set<ListNode>)
    requires Family(heads, rings, nodes) && b < |heads| && node in nodes && node.next == null
    requires node !in heads && forall c :: 0 <= c < |rings| ==> node !in rings[c]
    modifies nodes
    ensures Family(heads, rings[b := rings[b] + [node]], nodes)
    ensures Ids(rings[b := rings[b] + [node]]) == I.Link(Ids(rings), node.data, b)
  {
    hide I.Distinct;
    ghost var more := rings[b := rings[b] + [node]];
    Insert(node, heads[b], heads[b], rings[b], |rings[b]|);
    assert rings[b][..|rings[b]|] + [node] + rings[b][|rings[b]|..] == rings[b] + [node];
    forall c | 0 <= c < |heads| ensures Ring(heads[c], more[c]) {
      if c != b {
        assert Ring(heads[c], rings[c]);
      }
    }
    DatasAppend(rings[b], node);
  }

  lemma {:induction false} ApartWithout(heads: seq<ListNode>, rings: seq<seq<ListNode>>, nodes: set<ListNode>,
      b: nat, k: nat)
    requires Apart(heads, rings, nodes) && b < |heads| && k < |rings[b]|
    ensures Apart(heads, rings[b := rings[b][..k] + rings[b][k + 1..]], nodes)
  {
    var less := rings[b := rings[b][..k] + rings[b][k + 1..]];
    forall c, i | 0 <= c < |rings| && 0 <= i < |less[c]|
      ensures (if c == b && i >= k then i + 1 else i) < |rings[c]|
      ensures less[c][i] == rings[c][if c == b && i >= k then i + 1 else i]
    {
    }
  }

  /** The node leaves list `b`, as `Unlink` says. */
  method UnlinkNode(node: ListNode, ghost b: nat, ghost k: nat, ghost heads: seq<ListNode>,
      ghost rings: seq<seq<ListNode>>, ghost nodes: set<ListNode>)
    requires Family(heads, rings, nodes) && I.Distinct(Ids(rings))
    requires b < |heads| && k < |rings[b]| && rings[b][k] == node
    modifies nodes
    ensures Family(heads, rings[b := rings[b][..k] + rings[b][k + 1..]], nodes) && node.next == null
    ensures Ids(rings[b := rings[b][..k] + rings[b][k + 1..]]) == I.Unlink(Ids(rings), node.data)
  {
    hide I.Drop, I.Distinct, Apart;
    ApartAt(heads, rings, nodes, b, b);
    ghost var less := rings[b := rings[b][..k] + rings[b][k + 1..]];
    ApartWithout(heads, rings, nodes, b, k);
    assert Ring(heads[b], rings[b]);
    Linked(heads[b], rings[b], k);
    Remove(node, heads[b], rings[b], k);
    forall c | 0 <= c < |heads| ensures Ring(heads[c], less[c]) {
      if c != b {
        ApartAt(heads, rings, nodes, c, b);
        ApartAt(heads, rings, nodes, b, c);
        assert Ring(heads[c], rings[c]);
      }
    }
    IdsWithout(rings, b, k);
  }

  lemma Linked(head: ListNode, ring: seq<ListNode>, k: nat)
    requires Ring(head, ring) && k < |ring|
    ensures ring[k].next != null
  {
    if k + 1 < |ring| {
      assert ring[k].next == ring[k + 1];
    }
  }

  lemma {:induction false} IdsWithout(rings: seq<seq<ListNode>>, b: nat, k: nat)
    requires I.Distinct(Ids(rings)) && b < |rings| && k < |rings[b]|
    ensures Ids(rings[b := rings[b][..k] + rings[b][k + 1..]]) == I.Unlink(Ids(rings), rings[b][k].data)
  {
    var x, lists := rings[b][k].data, Ids(rings);
    I.DistinctIff(lists);
    hide I.Drop, I.Distinct;
    assert I.NoDup(lists[b]) && lists[b] == Datas(rings[b]);
    DatasWithout(rings[b], k);
    assert x == lists[b][k] && x in lists[b];
    forall c | 0 <= c < |rings| && c != b ensures I.Drop(Datas(rings[c]), x) == Datas(rings[c]) {
      assert lists[c] == Datas(rings[c]);
      I.DropAbsent(lists[c], x);
    }
  }

  lemma {:induction false} ApartSwap(heads: seq<ListNode>, rings: seq<seq<ListNode>>, nodes: set<ListNode>, a: nat,
      b: nat)
    requires Apart(heads, rings, nodes) && a < |heads| && b < |heads|
    ensures Apart(heads, rings[a := rings[b]][b := rings[a]], nodes)
  {
    var swapped := rings[a := rings[b]][b := rings[a]];
    forall c | 0 <= c < |rings| ensures swapped[c] == rings[if c == a then b else if c == b then a else c] {
    }
  }

  /** Two lists change places, as `Swap` says. */
  method SwapHeads(a: nat, b: nat, heads: seq<ListNode>, ghost rings: seq<seq<ListNode>>, ghost nodes: set<ListNode>)
    requires Family(heads, rings, nodes) && a < |heads| && b < |heads| && a != b
    modifies nodes
    ensures Family(heads, rings[a := rings[b]][b := rings[a]], nodes)
    ensures Ids(rings[a := rings[b]][b := rings[a]]) == I.Swap(Ids(rings), a, b)
  {
    hide Apart;
    ApartAt(heads, rings, nodes, a, b);
    ghost var swapped := rings[a := rings[b]][b := rings[a]];
    ApartAt(heads, rings, nodes, b, a);
    ApartSwap(heads, rings, nodes, a, b);
    Swap(heads[a], heads[b], rings[a], rings[b]);
    forall c | 0 <= c < |heads| ensures Ring(heads[c], swapped[c]) {
      if c != a && c != b {
        ApartAt(heads, rings, nodes, c, a);
        ApartAt(heads, rings, nodes, c, b);
        ApartAt(heads, rings, nodes, a, c);
        ApartAt(heads, rings, nodes, b, c);
        assert Ring(heads[c], rings[c]);
      }
    }
  }
}
