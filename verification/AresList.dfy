/** The circular doubly linked lists with a dummy head, in place.
    Models ext/noderb_extension/libuv/src/ares/ares_llist.c. */
module AresList {

  class ListNode {
    var prev: ListNode?
    var next: ListNode?
    const data: nat

    /** ares__init_list_node: a node in no list. The data stand for the query that the node belongs to. */
    constructor (data: nat)
      ensures prev == null && next == null && this.data == data
    {
      prev, next, this.data := null, null, data;
    }
  }

  /** The nodes of `s` follow each other. */
  ghost predicate Chain(s: seq<ListNode>)
    reads s
  {
    && (forall i, j :: 0 <= i < j < |s| ==> s[i] != s[j])
    && (forall i {:trigger s[i].next} :: 0 <= i < |s| - 1 ==> s[i].next == s[i + 1])
    && (forall i {:trigger s[i].prev} :: 0 < i < |s| ==> s[i].prev == s[i - 1])
  }

  /** The nodes behind `head`, in list order, are `s`. */
  ghost predicate Ring(head: ListNode, s: seq<ListNode>)
    reads head, s
  {
    && head !in s && Chain(s)
    && (if s == [] then head.next == head && head.prev == head
        else head.next == s[0] && s[0].prev == head && head.prev == s[|s| - 1] && s[|s| - 1].next == head)
  }

  method InitHead(head: ListNode)
    modifies head
    ensures Ring(head, [])
  {
    head.prev := head;
    head.next := head;
  }

  method IsEmpty(head: ListNode, ghost s: seq<ListNode>) returns (empty: bool)
    requires Ring(head, s)
    ensures empty <==> s == []
  {
    empty := head.next == head && head.prev == head;
  }

  /** Inserts `node` before `at`, the k-th node of the list or its head. */
  method Insert(node: ListNode, at: ListNode, ghost head: ListNode, ghost s: seq<ListNode>, ghost k: nat)
    requires Ring(head, s) && node != head && node !in s
    requires k <= |s| && at == (if k == |s| then head else s[k])
    modifies node, head, s
    ensures Ring(head, s[..k] + [node] + s[k..])
  {
    ghost var before := if k == 0 then head else s[k - 1];
    assert at.prev == before;
    node.next := at;
    node.prev := at.prev;
    at.prev.next := node;
    at.prev := node;
  }

  /** Removes the node from the list it is in, if any. */
  method Remove(node: ListNode, ghost head: ListNode, ghost s: seq<ListNode>, ghost k: nat)
    requires node.next != null ==> Ring(head, s) && k < |s| && s[k] == node
    modifies node, head, s
    ensures node.next == null
    ensures old(node.next) == null ==> unchanged(node, head, s)
    ensures old(node.next) != null ==> node.prev == null && Ring(head, s[..k] + s[k + 1..])
  {
    if node.next != null {
      assert node.prev == (if k == 0 then head else s[k - 1]);
      assert node.next == (if k == |s| - 1 then head else s[k + 1]);
      node.prev.next := node.next;
      node.next.prev := node.prev;
      node.prev := null;
      node.next := null;
    }
  }

  /** Makes `head` the head of the nodes between `next` and `prev`. */
  method Adopt(head: ListNode, prev: ListNode, next: ListNode, ghost s: seq<ListNode>)
    requires Chain(s) && head !in s && s != [] && next == s[0] && prev == s[|s| - 1]
    modifies head, prev, next
    ensures Ring(head, s)
  {
    head.prev, head.next := prev, next;
    next.prev := head;
    prev.next := head;
  }

  /** Swaps the contents of two lists. */
  method Swap(a: ListNode, b: ListNode, ghost sa: seq<ListNode>, ghost sb: seq<ListNode>)
    requires Ring(a, sa) && Ring(b, sb)
    requires a != b && a !in sb && b !in sa && forall x :: x in sa ==> x !in sb
    modifies a, b, sa, sb
    ensures Ring(a, sb) && Ring(b, sa)
  {
    var aEmpty := IsEmpty(a, sa);
    var bEmpty := IsEmpty(b, sb);
    var oldAprev, oldAnext, oldBprev, oldBnext := a.prev, a.next, b.prev, b.next;
    if aEmpty {
      InitHead(b);
    } else {
      Adopt(b, oldAprev, oldAnext, sa);
    }
    if bEmpty {
      InitHead(a);
    } else {
      Adopt(a, oldBprev, oldBnext, sb);
    }
  }
}
