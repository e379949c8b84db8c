/** Prepare, check and idle watchers on Windows: a doubly linked list that callbacks change while it is walked.
    Models ext/noderb_extension/libuv/src/win/loop-watcher.c. */
module Watcher {
  import opened Sequences

  class Handle {
    var next: Handle?
    var prev: Handle?
    var active: bool

    constructor ()
      ensures !active
    {
      next, prev, active := null, null, false;
    }
  }

  function At(s: seq<Handle>, i: int): Handle? {
    if 0 <= i < |s| then s[i] else null
  }

  ghost predicate Distinct(s: seq<Handle>) {
    forall i, j :: 0 <= i < j < |s| ==> s[i] != s[j]
  }

  datatype Cell = Cell(next: Handle?, prev: Handle?, active: bool)

  /** What is in memory at the handles `s`. */
  ghost function Memory(s: set<Handle>): map<Handle, Cell>
    reads s
  {
    map x | x in s :: Cell(x.next, x.prev, x.active)
  }

  /** In memory `m` the active handles are those of the list `s`, linked in both directions. */
  ghost predicate Linked(m: map<Handle, Cell>, s: seq<Handle>) {
    && Distinct(s) && (forall x <- m :: m[x].active <==> x in s)
    && forall i :: 0 <= i < |s| ==> s[i] in m && m[s[i]] == Cell(At(s, i + 1), At(s, i - 1), true)
  }

  lemma {:induction false} LinkedPush(m: map<Handle, Cell>, k: map<Handle, Cell>, s: seq<Handle>, h: Handle)
    requires Linked(m, s) && h in m && h !in s && k.Keys == m.Keys && k[h] == Cell(At(s, 0), null, true)
    requires s != [] ==> s[0] in m && k[s[0]] == m[s[0]].(prev := h)
    requires forall x <- m :: x != h && x != At(s, 0) ==> k[x] == m[x]
    ensures Linked(k, [h] + s)
  {
    var t := [h] + s;
    forall i | 0 <= i < |t| ensures t[i] in k && k[t[i]] == Cell(At(t, i + 1), At(t, i - 1), true) {
      if i > 0 {
        assert t[i] == s[i - 1];
      }
    }
  }

  lemma LinkedAt(m: map<Handle, Cell>, s: seq<Handle>, i: nat)
    requires Linked(m, s) && i < |s|
    ensures s[i] in m && m[s[i]] == Cell(At(s, i + 1), At(s, i - 1), true)
    ensures if i + 1 < |s| then s[i + 1] in m && s[i + 1] != s[i] && At(s, i + 1) == s[i + 1] else At(s, i + 1) == null
    ensures if i > 0 then s[i - 1] in m && s[i - 1] != s[i] && At(s, i - 1) == s[i - 1] else At(s, i - 1) == null
    ensures 0 < i && i + 1 < |s| ==> s[i - 1] != s[i + 1]
  {
  }

  lemma AtWithout(s: seq<Handle>, i: nat, j: int)
    requires i < |s|
    ensures |Without(s, i)| == |s| - 1 && At(Without(s, i), j) == if j < i then At(s, j) else At(s, j + 1)
  {
  }

  lemma DistinctAt(s: seq<Handle>, i: nat, j: nat)
    requires Distinct(s) && i < |s| && j < |s| && i != j
    ensures s[i] != s[j]
  {
    if i < j {
      assert s[i] != s[j];
    } else {
      assert s[j] != s[i];
    }
  }

  /** `k` is `m` with the neighbours of element `i` of `s` linked to each other, and `i` no more active. */
  ghost predicate Unlinked(m: map<Handle, Cell>, k: map<Handle, Cell>, s: seq<Handle>, i: nat)
    requires i < |s|
  {
    && k.Keys == m.Keys && s[i] in m && !k[s[i]].active
    && (i > 0 ==> s[i - 1] in m && k[s[i - 1]] == m[s[i - 1]].(next := At(s, i + 1)))
    && (i + 1 < |s| ==> s[i + 1] in m && k[s[i + 1]] == m[s[i + 1]].(prev := At(s, i - 1)))
    && forall x <- m :: x != s[i] && x != At(s, i - 1) && x != At(s, i + 1) ==> k[x] == m[x]
  }

  lemma TurnIs(s: seq<Handle>, i: nat, j: int)
    requires Distinct(s) && i < |s|
    ensures At(s, j) == s[i] <==> i == j
  {
    if 0 <= j < |s| && i != j {
      DistinctAt(s, i, j);
    }
  }

  /** What an unlinked element leaves behind: its neighbours point to each other, and no other cell changes. */
  lemma UnlinkedAt(m: map<Handle, Cell>, k: map<Handle, Cell>, s: seq<Handle>, i: nat, x: Handle)
    requires i < |s| && Unlinked(m, k, s, i) && x in m
    ensures x in k
    ensures i > 0 && x == s[i - 1] ==> k[x] == m[x].(next := At(s, i + 1))
    ensures i + 1 < |s| && x == s[i + 1] ==> k[x] == m[x].(prev := At(s, i - 1))
    ensures x != s[i] && x != At(s, i - 1) && x != At(s, i + 1) ==> k[x] == m[x]
  {
  }

  lemma {:induction false} UnlinkedCell(m: map<Handle, Cell>, k: map<Handle, Cell>, s: seq<Handle>, i: nat, g: nat)
    requires Linked(m, s) && i < |s| && g < |s| && g != i && Unlinked(m, k, s, i)
    ensures s[g] in k
    ensures k[s[g]] == Cell(if g == i - 1 then At(s, i + 1) else At(s, g + 1), if g == i + 1 then At(s, i - 1)
            else At(s, g - 1), true)
  {
    hide Linked, Unlinked, Distinct, At;
    LinkedDistinct(m, s);
    LinkedAt(m, s, g);
    TurnIs(s, g, i);
    TurnIs(s, g, i - 1);
    TurnIs(s, g, i + 1);
    LinkedAt(m, s, i);
    UnlinkedAt(m, k, s, i, s[g]);
  }

  lemma {:induction false} LinkedCell(m: map<Handle, Cell>, k: map<Handle, Cell>, s: seq<Handle>, i: nat, j: nat)
    requires Linked(m, s) && i < |s| && Unlinked(m, k, s, i) && j < |Without(s, i)|
    ensures var t := Without(s, i); t[j] in k && k[t[j]] == Cell(At(t, j + 1), At(t, j - 1), true)
  {
    hide At, Linked, Unlinked;
    AtWithout(s, i, j - 1);
    AtWithout(s, i, j);
    AtWithout(s, i, j + 1);
    UnlinkedCell(m, k, s, i, if j < i then j else j + 1);
  }

  lemma {:induction false} LinkedUnlink(m: map<Handle, Cell>, k: map<Handle, Cell>, s: seq<Handle>, i: nat)
    requires Linked(m, s) && i < |s| && Unlinked(m, k, s, i)
    ensures Linked(k, Without(s, i))
  {
    hide At;
    var t := Without(s, i);
    AtWithout(s, i, 0);
    forall j | 0 <= j < |t| ensures t[j] in k && k[t[j]] == Cell(At(t, j + 1), At(t, j - 1), true) {
      LinkedCell(m, k, s, i, j);
    }
    forall x <- k ensures k[x].active <==> x in t {
      if x in s && x != s[i] {
        var g :| 0 <= g < |s| && s[g] == x;
        UnlinkedCell(m, k, s, i, g);
      }
      if x !in s {
        AtMember(s, i - 1);
        AtMember(s, i + 1);
      }
    }
  }

  lemma AtMember(s: seq<Handle>, j: int)
    ensures At(s, j) != null ==> At(s, j) in s
  {
  }

  /** The elements of `s` that are not in `gone`, in order. */
  ghost function Minus(s: seq<Handle>, gone: set<Handle>): (r: seq<Handle>)
    ensures |r| <= |s|
  {
    if s == [] then []
    else if s[0] in gone then Minus(s[1..], gone)
    else [s[0]] + Minus(s[1..], gone)
  }

  ghost function IndexOf(s: seq<Handle>, h: Handle): (i: nat)
    ensures i <= |s| && (i < |s| <==> h in s) && (i < |s| ==> s[i] == h) && forall j :: 0 <= j < i ==> s[j] != h
  {
    if s == [] || s[0] == h then 0 else 1 + IndexOf(s[1..], h)
  }

  ghost function Without(s: seq<Handle>, i: nat): seq<Handle>
    requires i < |s|
  {
    s[..i] + s[i + 1..]
  }

  lemma {:induction false} MinusMember(s: seq<Handle>, gone: set<Handle>, x: Handle)
    ensures x in Minus(s, gone) <==> x in s && x !in gone
  {
    if s == [] {
    } else {
      MinusMember(s[1..], gone, x);
    }
  }

  lemma DistinctTail(s: seq<Handle>)
    requires s != [] && Distinct(s)
    ensures s[0] !in s[1..] && Distinct(s[1..])
  {
  }

  lemma {:induction false} MinusDistinct(s: seq<Handle>, gone: set<Handle>)
    requires Distinct(s)
    ensures Distinct(Minus(s, gone))
  {
    if s == [] {
    } else {
      DistinctTail(s);
      MinusDistinct(s[1..], gone);
      MinusMember(s[1..], gone, s[0]);
    }
  }

  lemma {:induction false} MinusAbsent(s: seq<Handle>, gone: set<Handle>)
    requires forall x <- s :: x !in gone
    ensures Minus(s, gone) == s
  {
    if s == [] {
    } else {
      MinusAbsent(s[1..], gone);
      assert s == [s[0]] + s[1..];
    }
  }

  lemma {:induction false} MinusOne(s: seq<Handle>, i: nat)
    requires Distinct(s) && i < |s|
    ensures Minus(s, {s[i]}) == Without(s, i)
    decreases i
  {
    hide Distinct;
    DistinctTail(s);
    if i == 0 {
      MinusAbsent(s[1..], {s[0]});
    } else {
      DistinctAt(s, 0, i);
      MinusOne(s[1..], i - 1);
      assert Without(s, i) == [s[0]] + Without(s[1..], i - 1);
    }
  }

  lemma {:induction false} MinusTwice(s: seq<Handle>, a: set<Handle>, b: set<Handle>)
    ensures Minus(Minus(s, a), b) == Minus(s, a + b)
  {
    if s == [] {
    } else {
      MinusTwice(s[1..], a, b);
    }
  }

  /** Only what is in the list can be taken out. */
  lemma {:induction false} MinusSame(s: seq<Handle>, a: set<Handle>, b: set<Handle>)
    requires forall x <- s :: x in a <==> x in b
    ensures Minus(s, a) == Minus(s, b)
  {
    if s == [] {
    } else {
      MinusSame(s[1..], a, b);
    }
  }

  // ------------------------------------------------------------------------
  // What a pass is meant to do
  // ------------------------------------------------------------------------

  /** A call that a callback makes. */
  datatype Action = Starting(h: Handle) | Stopping(h: Handle)

  /** A started handle goes in front of the list, a stopped one leaves it. */
  ghost function Listed(list: seq<Handle>, action: Action): seq<Handle> {
    match action
    case Starting(h) => if h in list then list else [h] + list
    case Stopping(h) => Minus(list, {h})
  }

  ghost function ListAfter(list: seq<Handle>, actions: seq<Action>): seq<Handle> {
    if actions == [] then list
    else Listed(ListAfter(list, actions[..|actions| - 1]), actions[|actions| - 1])
  }

  ghost function StoppedBy(actions: seq<Action>): set<Handle> {
    set a | a in actions && a.Stopping? :: a.h
  }

  /** The calls that callback number `k` of a pass makes. */
  ghost function Planned(plan: seq<seq<Action>>, k: nat): seq<Action> {
    if k < |plan| then plan[k] else []
  }

  ghost function Later(plan: seq<seq<Action>>): seq<seq<Action>> {
    if plan == [] then [] else plan[1..]
  }

  /** The calls of the first `k` callbacks. */
  ghost function Made(plan: seq<seq<Action>>, k: nat): seq<Action> {
    if k == 0 then [] else Made(plan, k - 1) + Planned(plan, k - 1)
  }

  /** The handles a pass calls while `rest` is to come, when its callbacks do what is planned. */
  ghost function Pass(rest: seq<Handle>, plan: seq<seq<Action>>): seq<Handle>
    decreases |rest|
  {
    if rest == [] then []
    else [rest[0]] + Pass(Minus(rest[1..], StoppedBy(Planned(plan, 0))), Later(plan))
  }

  /** The handles of the list that a callback stops before the pass has come to them. */
  ghost function StoppedBefore(start: seq<Handle>, plan: seq<seq<Action>>): set<Handle> {
    var called := Pass(start, plan);
    set h | h in start && exists k :: 0 <= k < |called| && h in StoppedBy(Planned(plan, k)) && h !in called[..k + 1]
  }

  /** One turn: those stopped in it, and those stopped later. */
  lemma {:induction false} StoppedStep(start: seq<Handle>, plan: seq<seq<Action>>, h: Handle)
    requires start != [] && Distinct(start) && h in start[1..]
    ensures var gone := StoppedBy(Planned(plan, 0)); var rest := Minus(start[1..], gone);
            h in StoppedBefore(start, plan) <==> h in gone || h in StoppedBefore(rest, Later(plan))
  {
    hide Distinct, StoppedBy, Pass;
    DistinctTail(start);
    var gone := StoppedBy(Planned(plan, 0));
    var rest := Minus(start[1..], gone);
    var called, more := Pass(start, plan), Pass(rest, Later(plan));
    PassStep(start, plan);
    MinusMember(start[1..], gone, h);
    if h in gone {
      assert h in StoppedBy(Planned(plan, 0)) && called[..1] == [start[0]];
    } else {
      if h in StoppedBefore(start, plan) {
        var k :| 0 <= k < |called| && h in StoppedBy(Planned(plan, k)) && h !in called[..k + 1];
        assert called[..k + 1] == [start[0]] + more[..k];
        assert Planned(Later(plan), k - 1) == Planned(plan, k);
      }
      if h in StoppedBefore(rest, Later(plan)) {
        var k :| 0 <= k < |more| && h in StoppedBy(Planned(Later(plan), k)) && h !in more[..k + 1];
        assert called[..k + 2] == [start[0]] + more[..k + 1];
        assert h in StoppedBy(Planned(plan, k + 1));
      }
    }
  }

  lemma PassStep(rest: seq<Handle>, plan: seq<seq<Action>>)
    requires rest != []
    ensures Pass(rest, plan) == [rest[0]] + Pass(Minus(rest[1..], StoppedBy(Planned(plan, 0))), Later(plan))
  {
  }

  /** A pass calls, in the order of the list, the handles listed when it began but for those stopped before their
      turn. */
  lemma {:induction false} PassExact(start: seq<Handle>, plan: seq<seq<Action>>)
    requires Distinct(start)
    ensures Pass(start, plan) == Minus(start, StoppedBefore(start, plan))
    decreases |start|
  {
    hide Distinct, StoppedBefore, StoppedBy;
    if start == [] {
    } else {
      var gone := StoppedBy(Planned(plan, 0));
      var rest, late := Minus(start[1..], gone), StoppedBefore(Minus(start[1..], gone), Later(plan));
      DistinctTail(start);
      MinusDistinct(start[1..], gone);
      PassExact(rest, Later(plan));
      MinusTwice(start[1..], gone, late);
      forall h <- start[1..] ensures h in StoppedBefore(start, plan) <==> h in gone + late {
        StoppedStep(start, plan, h);
      }
      MinusSame(start[1..], gone + late, StoppedBefore(start, plan));
      FirstRuns(start, plan);
    }
  }

  lemma FirstRuns(start: seq<Handle>, plan: seq<seq<Action>>)
    requires start != []
    ensures start[0] !in StoppedBefore(start, plan)
  {
    var called := Pass(start, plan);
    forall k | 0 < k <= |called| ensures start[0] in called[..k] {
      assert called[..k][0] == start[0];
    }
  }

  /** Exactly the handles that were listed when the pass began and were not stopped before their turn are called, each
      once; a handle started during the pass is not. */
  lemma {:induction false} CalledOnce(start: seq<Handle>, plan: seq<seq<Action>>, h: Handle)
    requires Distinct(start)
    ensures var called := Pass(start, plan);
            && Distinct(called)
            && (h in called <==> h in start && h !in StoppedBefore(start, plan))
  {
    hide Distinct, StoppedBefore, Pass;
    PassExact(start, plan);
    MinusDistinct(start, StoppedBefore(start, plan));
    MinusMember(start, StoppedBefore(start, plan), h);
  }

  lemma {:induction false} ListAfterTwice(list: seq<Handle>, a: seq<Action>, b: seq<Action>)
    ensures ListAfter(list, a + b) == ListAfter(ListAfter(list, a), b)
    decreases |b|
  {
    if b == [] {
      assert a + b == a;
    } else {
      var n := |b| - 1;
      ListAfterTwice(list, a, b[..n]);
      assert (a + b)[..|a + b| - 1] == a + b[..n];
    }
  }

  class Loop {
    var handles: Handle?
    var nextHandle: Handle?
    var all: set<Handle>
    ghost var list: seq<Handle>
    ghost var turn: nat

    /** What is still to come in the pass that is going on. */
    ghost function Rest(): seq<Handle>
      reads this
    {
      if turn <= |list| then list[turn..] else []
    }

    ghost predicate Valid()
      reads this, all
    {
      && Linked(Memory(all), list) && turn <= |list| && handles == At(list, 0) && nextHandle == At(list, turn)
    }

    constructor ()
      ensures Valid() && fresh(this) && all == {} && list == []
    {
      handles, nextHandle := null, null;
      all, list, turn := {}, [], 0;
    }

    /** uv_prepare_init and its like */
    method Init(h: Handle)
      requires Valid() && h !in all
      modifies this, h
      ensures Valid() && all == old(all) + {h} && !h.active
      ensures list == old(list) && Rest() == old(Rest())
    {
      hide Linked, Distinct, Minus;
      ghost var m := Memory(all);
      h.active := false;
      LinkedMore(m, Memory(all + {h}), list, h);
      all := all + {h};
    }

    method LinkFront(h: Handle)
      requires Linked(Memory(all), list) && handles == At(list, 0) && h in all && h !in list
      modifies `handles, all
      ensures Linked(Memory(all), [h] + list) && handles == h && h.active
    {
      hide Linked, Distinct, At;
      ghost var m := Memory(all);
      AtPush(list, h, 0);
      var oldHead := handles;
      h.next := oldHead;
      h.prev := null;
      if oldHead != null {
        LinkedAt(m, list, 0);
        oldHead.prev := h;
      }
      handles := h;
      h.active := true;
      LinkedPush(m, Memory(all), list, h);
    }

    /** A started handle goes in front of the list, where the walk does not come any more. */
    method Start(h: Handle)
      requires Valid() && h in all
      modifies this, all
      ensures Valid() && all == old(all) && h.active
      ensures list == Listed(old(list), Starting(h)) && Rest() == old(Rest())
    {
      hide Linked, Distinct, Minus, At;
      LinkedMember(Memory(all), list, h);
      if h.active {
        return;
      }
      LinkFront(h);
      AtPush(list, h, turn);
      assert ([h] + list)[turn + 1..] == list[turn..];
      list := [h] + list;
      turn := turn + 1;
    }

    method Unlink(h: Handle, ghost i: nat)
      requires Linked(Memory(all), list) && i < |list| && list[i] == h && h in all
      requires turn <= |list| && handles == At(list, 0) && nextHandle == At(list, turn)
      modifies `handles, `nextHandle, all
      ensures Linked(Memory(all), Without(list, i)) && !h.active
      ensures handles == At(Without(list, i), 0)
      ensures nextHandle == At(Without(list, i), if i < turn then turn - 1 else turn)
    {
      hide Without, At;
      ghost var m := Memory(all);
      LinkedAt(m, list, i);
      TurnIs(list, i, 0);
      TurnIs(list, i, turn);
      AtWithout(list, i, 0);
      AtWithout(list, i, if i < turn then turn - 1 else turn);
      if handles == h {
        handles := h.next;
      }
      if nextHandle == h {
        nextHandle := h.next;
      }
      if h.prev != null {
        h.prev.next := h.next;
      }
      if h.next != null {
        h.next.prev := h.prev;
      }
      h.active := false;
      LinkedUnlink(m, Memory(all), list, i);
    }

    /** A stopped handle leaves the list; if its turn was to come, it is left out of the walk. */
    method Stop(h: Handle)
      requires Valid() && h in all
      modifies this, all
      ensures Valid() && all == old(all) && !h.active
      ensures list == Listed(old(list), Stopping(h)) && Rest() == Minus(old(Rest()), {h})
    {
      hide At, Without, IndexOf, Linked, Distinct, Memory, Minus;
      MemoryAt(all, h);
      LinkedMember(Memory(all), list, h);
      if !h.active {
        StoppedAlready(list, turn, h);
        return;
      }
      ghost var i := IndexOf(list, h);
      LinkedDistinct(Memory(all), list);
      StoppedIs(list, i, turn);
      Unlink(h, i);
      list := Without(list, i);
      if i < turn {
        turn := turn - 1;
      }
    }

    /** A callback: it starts and stops any handles, in any order and as often as it likes. */
    method UserCode(actions: seq<Action>)
      requires Valid() && forall a <- actions :: a.h in all
      modifies this, all
      ensures Valid() && all == old(all)
      ensures list == ListAfter(old(list), actions) && Rest() == Minus(old(Rest()), StoppedBy(actions))
    {
      hide Valid, Rest, Minus, StoppedBy;
      ghost var list0, rest0 := list, Rest();
      StoppedNone(rest0);
      assert actions[..0] == [];
      for i := 0 to |actions|
        invariant Valid() && all == old(all)
        invariant list == ListAfter(list0, actions[..i]) && Rest() == Minus(rest0, StoppedBy(actions[..i]))
      {
        var a := actions[i];
        assert actions[..i + 1] == actions[..i] + [a];
        StoppedMore(rest0, actions[..i], a);
        match a {
          case Starting(h) => Start(h);
          case Stopping(h) => Stop(h);
        }
      }
      assert actions[..|actions|] == actions;
    }

    /** Takes the next handle of the walk and makes its callback. */
    method CallNext(actions: seq<Action>) returns (h: Handle)
      requires Valid() && nextHandle != null && forall a <- actions :: a.h in all
      modifies this, all
      ensures Valid() && all == old(all) && old(Rest()) != [] && h == old(Rest())[0]
      ensures list == ListAfter(old(list), actions) && Rest() == Minus(old(Rest())[1..], StoppedBy(actions))
    {
      hide Linked, Distinct, At, Memory, Minus, StoppedBy, ListAfter;
      h := nextHandle;
      Advance(Memory(all), list, turn);
      MemoryAt(all, h);
      nextHandle := h.next;
      turn := turn + 1;
      UserCode(actions);
    }

    /** One pass over the list, when callback number `k` makes the calls `plan[k]`: what it calls and the list it leaves
        are those of `Pass` and `ListAfter`, whatever is planned. */
    method Invoke(plan: seq<seq<Action>>) returns (called: seq<Handle>)
      requires Valid() && forall k, a :: 0 <= k < |plan| && a in plan[k] ==> a.h in all
      modifies this, all
      ensures Valid() && all == old(all) && nextHandle == null && Rest() == []
      ensures called == Pass(old(list), plan)
      ensures list == ListAfter(old(list), Made(plan, |called|))
    {
      hide Linked, Distinct, At, Memory, Minus, StoppedBy, ListAfter, Pass;
      nextHandle := handles;
      turn, called := 0, [];
      ghost var left := plan;
      ListAfterNone(list);
      assert Rest() == list && [] + Pass(list, plan) == Pass(list, plan);
      while nextHandle != null
        invariant Valid() && all == old(all) && LeftOf(left, plan, |called|)
        invariant called + Pass(Rest(), left) == Pass(old(list), plan)
        invariant list == ListAfter(old(list), Made(plan, |called|))
        decreases |Rest()|
      {
        ghost var rest, calls := Rest(), Planned(plan, |called|);
        ListAfterTwice(old(list), Made(plan, |called|), calls);
        var h := CallNext(if |called| < |plan| then plan[|called|] else []);
        PassStep(rest, left);
        Regroup(called, [h], Pass(Rest(), Later(left)));
        called, left := called + [h], Later(left);
      }
      WalkOver(list, turn);
      PassOver(left);
    }
  }

  /** What is planned for the callbacks after the first `k`. */
  ghost predicate LeftOf(left: seq<seq<Action>>, plan: seq<seq<Action>>, k: nat) {
    left == if k <= |plan| then plan[k..] else []
  }

  lemma PassOver(plan: seq<seq<Action>>)
    ensures Pass([], plan) == []
  {
  }

  lemma ListAfterNone(list: seq<Handle>)
    ensures ListAfter(list, []) == list
  {
  }

  lemma StoppedNone(rest: seq<Handle>)
    ensures Minus(rest, StoppedBy([])) == rest
  {
    MinusAbsent(rest, {});
    assert StoppedBy([]) == {};
  }

  lemma StoppedMore(rest: seq<Handle>, actions: seq<Action>, a: Action)
    ensures Minus(rest, StoppedBy(actions + [a]))
            == if a.Stopping? then Minus(Minus(rest, StoppedBy(actions)), {a.h}) else Minus(rest, StoppedBy(actions))
  {
    MinusTwice(rest, StoppedBy(actions), {a.h});
    if a.Stopping? {
      forall x ensures x in StoppedBy(actions + [a]) <==> x in StoppedBy(actions) + {a.h} {
        StoppedMember(actions, a, x);
      }
      assert StoppedBy(actions + [a]) == StoppedBy(actions) + {a.h};
    } else {
      forall x ensures x in StoppedBy(actions + [a]) <==> x in StoppedBy(actions) {
        StoppedMember(actions, a, x);
      }
      assert StoppedBy(actions + [a]) == StoppedBy(actions);
    }
  }

  lemma StoppedMember(actions: seq<Action>, a: Action, x: Handle)
    ensures x in StoppedBy(actions + [a]) <==> x in StoppedBy(actions) || (a.Stopping? && a.h == x)
  {
    assert a in actions + [a];
    if x in StoppedBy(actions) {
      var b :| b in actions && b.Stopping? && b.h == x;
      assert b in actions + [a];
    }
  }

  lemma StoppedAlready(s: seq<Handle>, turn: nat, h: Handle)
    requires h !in s && turn <= |s|
    ensures Minus(s, {h}) == s && Minus(s[turn..], {h}) == s[turn..]
  {
    MinusAbsent(s, {h});
    MinusAbsent(s[turn..], {h});
  }

  /** What is left of the list and of the walk when element `i` is stopped. */
  lemma {:induction false} StoppedIs(s: seq<Handle>, i: nat, turn: nat)
    requires Distinct(s) && i < |s| && turn <= |s|
    ensures Minus(s, {s[i]}) == Without(s, i) && |Without(s, i)| == |s| - 1
    ensures Minus(s[turn..], {s[i]}) == Without(s, i)[if i < turn then turn - 1 else turn..]
  {
    hide Distinct, Minus;
    MinusOne(s, i);
    if i < turn {
      forall x <- s[turn..] ensures x !in {s[i]} {
        var j :| 0 <= j < |s[turn..]| && s[turn..][j] == x;
        DistinctAt(s, i, turn + j);
      }
      MinusAbsent(s[turn..], {s[i]});
      assert Without(s, i)[turn - 1..] == s[turn..];
    } else {
      DistinctFrom(s, turn);
      MinusOne(s[turn..], i - turn);
      assert Without(s, i)[turn..] == Without(s[turn..], i - turn);
    }
  }

  lemma DistinctFrom(s: seq<Handle>, turn: nat)
    requires Distinct(s) && turn <= |s|
    ensures Distinct(s[turn..])
  {
  }

  lemma MemoryAt(s: set<Handle>, h: Handle)
    requires h in s || h in Memory(s)
    ensures h in s && h in Memory(s) && Memory(s)[h] == Cell(h.next, h.prev, h.active)
  {
  }

  lemma WalkOver(s: seq<Handle>, turn: nat)
    requires turn <= |s| && At(s, turn) == null
    ensures s[turn..] == []
  {
  }

  /** The next handle of the walk. */
  lemma Advance(m: map<Handle, Cell>, s: seq<Handle>, turn: nat)
    requires Linked(m, s) && turn <= |s| && At(s, turn) != null
    ensures turn < |s| && s[turn] in m && At(s, turn) == s[turn] && m[s[turn]].next == At(s, turn + 1)
  {
  }

  lemma LinkedMore(m: map<Handle, Cell>, k: map<Handle, Cell>, s: seq<Handle>, h: Handle)
    requires Linked(m, s) && h !in m && k.Keys == m.Keys + {h} && !k[h].active && forall x <- m :: k[x] == m[x]
    ensures Linked(k, s)
  {
  }

  lemma AtPush(s: seq<Handle>, h: Handle, turn: nat)
    ensures At([h] + s, 0) == h && At([h] + s, turn + 1) == At(s, turn)
    ensures s != [] ==> At(s, 0) == s[0]
    ensures s == [] ==> At(s, 0) == null
  {
  }

  lemma LinkedMember(m: map<Handle, Cell>, s: seq<Handle>, h: Handle)
    requires Linked(m, s) && h in m
    ensures m[h].active <==> h in s
  {
  }

  lemma LinkedDistinct(m: map<Handle, Cell>, s: seq<Handle>)
    requires Linked(m, s)
    ensures Distinct(s)
  {
  }
}
