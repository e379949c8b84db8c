/** Families of lists in which every element has one place: the intrusive lists of a channel
    as sequences. ares_llist.c gives the list operations, ares_private.h the four families. */
module AresIndex {
  import opened Options

  type Id = nat
  type Lists = seq<seq<Id>>

  /** No element occurs twice, in one list or in two. */
  ghost predicate Distinct(lists: Lists) {
    forall b, i, c, j {:trigger lists[b][i], lists[c][j]} ::
      0 <= b < |lists| && 0 <= i < |lists[b]| && 0 <= c < |lists| && 0 <= j < |lists[c]| && lists[b][i] == lists[c][j]
      ==> b == c && i == j
  }

  /** Every list element is a key, and every key is in the list `key` names - except that
      a loose element may stand in any one list, or in none. */
  ghost predicate Linked(lists: Lists, key: map<Id, nat>, loose: set<Id>) {
    && Distinct(lists)
    && (forall b, x {:trigger x in lists[b]} :: 0 <= b < |lists| && x in lists[b] ==>
         x in key && (x !in loose ==> key[x] == b))
    && (forall x :: x in key && x !in loose ==> key[x] < |lists| && x in lists[key[x]])
  }

  /** Takes a node out of a list. */
  function Drop(s: seq<Id>, x: Id): (r: seq<Id>)
    ensures forall y :: y in r <==> y in s && y != x
  {
    if s == [] then [] else (if s[0] == x then [] else [s[0]]) + Drop(s[1..], x)
  }

  /** ares__remove_from_list: the node leaves the list it is in, if any. */
  function Unlink(lists: Lists, x: Id): Lists {
    seq(|lists|, b requires 0 <= b < |lists| => Drop(lists[b], x))
  }

  lemma UnlinkSize(lists: Lists, x: Id)
    ensures |Unlink(lists, x)| == |lists|
  {
  }

  /** ares__insert_in_list before the list head: the node becomes the last one. */
  function Link(lists: Lists, x: Id, b: nat): Lists
    requires b < |lists|
  {
    lists[b := lists[b] + [x]]
  }

  ghost predicate NoDup(s: seq<Id>) {
    forall i, j :: 0 <= i < |s| && 0 <= j < |s| && s[i] == s[j] ==> i == j
  }

  /** Distinct in other words. */
  lemma {:induction false} DistinctIff(lists: Lists)
    ensures Distinct(lists) <==>
            && (forall b {:trigger NoDup(lists[b])} :: 0 <= b < |lists| ==> NoDup(lists[b]))
            && (forall b, c, x {:trigger x in lists[b], x in lists[c]} ::
                  0 <= b < |lists| && 0 <= c < |lists| && x in lists[b] && x in lists[c] ==> b == c)
  {
    if forall b {:trigger NoDup(lists[b])} :: 0 <= b < |lists| ==> NoDup(lists[b]) {
      forall b, i, c, j | 0 <= b < |lists| && 0 <= i < |lists[b]| && 0 <= c < |lists| && 0 <= j < |lists[c]|
          && lists[b][i] == lists[c][j]
        ensures lists[b][i] in lists[b] && lists[c][j] in lists[c] && (b == c ==> i == j)
      {
        assert NoDup(lists[b]);
      }
    }
  }

  lemma {:induction false} DropNoDup(s: seq<Id>, x: Id)
    requires NoDup(s)
    ensures NoDup(Drop(s, x))
  {
    if s == [] {
    } else {
      var t := s[1..];
      forall i, j | 0 <= i < |t| && 0 <= j < |t| && t[i] == t[j] ensures i == j {
        assert s[i + 1] == s[j + 1];
      }
      DropNoDup(t, x);
      assert s[0] !in Drop(t, x);
    }
  }

  lemma {:induction false} UnlinkDistinct(lists: Lists, x: Id)
    requires Distinct(lists)
    ensures Distinct(Unlink(lists, x))
  {
    DistinctIff(lists);
    DistinctIff(Unlink(lists, x));
    var r := Unlink(lists, x);
    hide Distinct, NoDup;
    forall b {:trigger NoDup(r[b])} | 0 <= b < |r| ensures NoDup(r[b]) {
      assert NoDup(lists[b]);
      DropNoDup(lists[b], x);
    }
    assert forall b, y {:trigger y in r[b]} :: 0 <= b < |r| && y in r[b] ==> y in lists[b];
  }

  lemma {:induction false} LinkDistinct(lists: Lists, x: Id, b: nat)
    requires Distinct(lists) && b < |lists|
    requires forall c :: 0 <= c < |lists| ==> x !in lists[c]
    ensures Distinct(Link(lists, x, b))
  {
    DistinctIff(lists);
    DistinctIff(Link(lists, x, b));
    var r := Link(lists, x, b);
    hide Distinct, NoDup;
    forall c {:trigger NoDup(r[c])} | 0 <= c < |r| ensures NoDup(r[c]) {
      assert NoDup(lists[c]);
    }
    assert forall c, y {:trigger y in r[c]} :: 0 <= c < |r| && y in r[c] ==> y in lists[c] || (y == x && c == b);
  }

  /** Freeing an element. */
  lemma {:induction false} UnlinkLinked(lists: Lists, key: map<Id, nat>, loose: set<Id>, x: Id)
    requires Linked(lists, key, loose)
    ensures Linked(Unlink(lists, x), key - {x}, loose - {x})
    ensures Linked(Unlink(lists, x), key, loose + {x})
    ensures forall c :: 0 <= c < |lists| ==> x !in Unlink(lists, x)[c]
  {
    UnlinkDistinct(lists, x);
    hide Distinct, Drop;
  }

  /** Putting an element that is in no list into its list. */
  lemma {:induction false} LinkLinked(lists: Lists, key: map<Id, nat>, loose: set<Id>, x: Id, b: nat)
    requires Linked(lists, key, loose) && b < |lists|
    requires forall c :: 0 <= c < |lists| ==> x !in lists[c]
    ensures Linked(Link(lists, x, b), key[x := b], loose - {x})
  {
    LinkDistinct(lists, x, b);
    hide Distinct;
    assert forall c, y {:trigger y in Link(lists, x, b)[c]} ::
      0 <= c < |lists| ==> (y in Link(lists, x, b)[c] <==> y in lists[c] || (y == x && c == b));
  }

  /** Moving a loose element to its list. */
  lemma {:induction false} RelinkLinked(lists: Lists, key: map<Id, nat>, loose: set<Id>, x: Id, b: nat)
    requires Linked(lists, key, loose) && b < |lists|
    ensures Linked(Link(Unlink(lists, x), x, b), key[x := b], loose - {x})
  {
    UnlinkLinked(lists, key, loose, x);
    LinkLinked(Unlink(lists, x), key, loose + {x}, x, b);
    assert loose + {x} - {x} == loose - {x};
    hide Linked;
  }

  /** ares__swap_lists. */
  function Swap(lists: Lists, a: nat, b: nat): Lists
    requires a < |lists| && b < |lists|
  {
    lists[a := lists[b]][b := lists[a]]
  }

  lemma {:induction false} SwapLinked(lists: Lists, key: map<Id, nat>, key': map<Id, nat>, a: nat, b: nat)
    requires Linked(lists, key, {}) && a < |lists| && b < |lists|
    requires key'.Keys == key.Keys
    requires forall x :: x in key ==> key'[x] == if key[x] == a then b else if key[x] == b then a else key[x]
    ensures Linked(Swap(lists, a, b), key', {})
  {
  }

  // ------------------------------------------------------------------------
  // Walking a list
  // ------------------------------------------------------------------------

  /** The node behind `x`; None is the list head again. */
  function Next(s: seq<Id>, x: Id): Option<Id> {
    if s == [] then None
    else if s[0] != x then Next(s[1..], x)
    else if |s| > 1 then Some(s[1])
    else None
  }

  function First(s: seq<Id>): Option<Id> {
    if s == [] then None else Some(s[0])
  }

  lemma {:induction false} NextAt(s: seq<Id>, p: nat)
    requires NoDup(s) && p < |s|
    ensures Next(s, s[p]) == if p + 1 < |s| then Some(s[p + 1]) else None
  {
    if p == 0 {
    } else {
      assert s[1..][p - 1] == s[p];
      NextAt(s[1..], p - 1);
    }
  }

  lemma {:induction false} DropAbsent(s: seq<Id>, x: Id)
    requires x !in s
    ensures Drop(s, x) == s
  {
    if s == [] {
    } else {
      DropAbsent(s[1..], x);
    }
  }

  lemma {:induction false} DropAt(s: seq<Id>, p: nat)
    requires NoDup(s) && p < |s|
    ensures Drop(s, s[p]) == s[..p] + s[p + 1..]
  {
    if p == 0 {
      DropAbsent(s[1..], s[0]);
    } else {
      assert s[1..][p - 1] == s[p];
      assert s[0] != s[p];
      DropAt(s[1..], p - 1);
    }
  }

  lemma {:induction false} LinkedNoDup(lists: Lists, key: map<Id, nat>, loose: set<Id>, b: nat)
    requires Linked(lists, key, loose) && b < |lists|
    ensures NoDup(lists[b])
    ensures forall x :: x in lists[b] ==> x in key && (x !in loose ==> key[x] == b)
  {
    DistinctIff(lists);
    assert NoDup(lists[b]);
  }
}
