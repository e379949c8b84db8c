/** What happens to the queries of a channel, as values: what holds between two calls, and what a call may change.
    Specifies ares_process.c, ares_send.c and ares__close_sockets.c. */
module AresHistory {
  import opened AresIndex
  import opened AresTime
  import opened AresState
  import opened AresBudget
  import opened Bytes
  import opened Options
  import opened Powers
  import opened Sequences

  const HFIXEDSZ := 12
  const PACKETSZ := 512

  /** What holds of every live query, even one on its way to another server. */
  ghost predicate QueryBase(q: Query, r: Record, n: nat, tries: nat, timeout: nat) {
    && |q.info| == n && q.server < n && r.first < n && |r.message| >= 2 && q.qid == Qid(r.message)
    && Framed(q.tcpbuf) && q.tcpbuf == Framing(r.message) && HFIXEDSZ <= |r.message| < 65536
    && r.callbacks == [] && Affordable(r, n, tries, timeout)
    && q.error == (if q.timeouts == 0 then ConnectionRefused else TimedOutStatus)
    && (r.switched ==> q.usingTcp)
    && (!q.usingTcp ==> forall s :: 0 <= s < n ==> q.info[s].generation == 0)
  }

  /** The attempts go round the servers, and there are at most n * tries of them. */
  ghost predicate OnCourse(q: Query, r: Record, n: nat, tries: nat)
    requires n > 0
  {
    q.server == (r.first + q.attempt) % n && (q.attempt == 0 || q.attempt < n * tries)
  }

  /** A query that waits for its answer: it is known what became of each attempt, its attempts pay for what it has cost,
      and its server is not one to be skipped. */
  ghost predicate Waiting(q: Query, r: Record, n: nat, tries: nat, timeout: nat, last: int)
    requires n > 0
  {
    && OnCourse(q, r, n, tries)
    && Within(r, q.attempt + 1, q.attempt, n, timeout) && |r.fates| == q.attempt + 1
    && q.server < |q.info| && !q.info[q.server].skip
    && q.deadline.Normal() && (q.deadline.sec == 0 || q.deadline.sec >= last) && q.deadline.sec >= r.since
  }

  /** Every query ever submitted is alive and has had no callback, or is gone and has had exactly one. */
  ghost predicate HistoryOk(qs: Queries, hist: map<Id, Record>, nextId: Id, n: nat, tries: nat, timeout: nat,
      last: int, loose: set<Id>) {
    && n > 0
    && (forall x: Id :: x in hist <==> x < nextId)
    && (forall x :: x in qs ==> x in hist && QueryBase(qs[x], hist[x], n, tries, timeout) && hist[x].since <= last)
    && (forall x :: x in hist && x !in qs ==>
         |hist[x].callbacks| == 1 && hist[x].first < n && Affordable(hist[x], n, tries, timeout))
    && (forall x :: x in qs && x !in loose ==> Waiting(qs[x], hist[x], n, tries, timeout, last))
  }

  lemma {:induction false} HistoryEnd(qs: Queries, hist: map<Id, Record>, nextId: Id, n: nat, tries: nat,
      timeout: nat, last: int, loose: set<Id>, x: Id, r: Record)
    requires HistoryOk(qs, hist, nextId, n, tries, timeout, last, loose) && x in qs
    requires |r.callbacks| == 1 && r.first < n && Affordable(r, n, tries, timeout)
    ensures HistoryOk(qs - {x}, hist[x := r], nextId, n, tries, timeout, last, loose - {x})
  {
    hide Waiting, QueryBase;
  }

  lemma {:induction false} HistoryAdd(qs: Queries, hist: map<Id, Record>, nextId: Id, n: nat, tries: nat,
      timeout: nat, last: int, loose: set<Id>, q: Query, r: Record)
    requires HistoryOk(qs, hist, nextId, n, tries, timeout, last, loose) && QueryBase(q, r, n, tries, timeout)
    requires r.since <= last
    ensures HistoryOk(qs[nextId := q], hist[nextId := r], nextId + 1, n, tries, timeout, last, loose + {nextId})
  {
    hide Waiting, QueryBase;
  }

  /** A changed query is on its way to another server. */
  lemma {:induction false} HistoryLoosen(qs: Queries, hist: map<Id, Record>, nextId: Id, n: nat, tries: nat,
      timeout: nat, last: int, loose: set<Id>, x: Id, q: Query, r: Record)
    requires HistoryOk(qs, hist, nextId, n, tries, timeout, last, loose) && x in qs
    requires QueryBase(q, r, n, tries, timeout) && r.since <= last
    ensures HistoryOk(qs[x := q], hist[x := r], nextId, n, tries, timeout, last, loose + {x})
  {
    hide Waiting, QueryBase;
  }

  /** A changed query waits for its answer. */
  lemma {:induction false} HistorySettle(qs: Queries, hist: map<Id, Record>, nextId: Id, n: nat, tries: nat,
      timeout: nat, last: int, loose: set<Id>, x: Id, q: Query)
    requires HistoryOk(qs, hist, nextId, n, tries, timeout, last, loose) && x in qs && x in hist
    requires QueryBase(q, hist[x], n, tries, timeout) && Waiting(q, hist[x], n, tries, timeout, last)
    ensures HistoryOk(qs[x := q], hist, nextId, n, tries, timeout, last, loose - {x})
  {
    hide Waiting, QueryBase;
  }

  /** What has become of a query `q` with record `r`: it has been sent again, at least `more` attempts later, and
      waits at least 9/16 and at most all of the doubled timeout; or it has been given up, with one callback,
      which carries the query's error or says that memory ran out. */
  ghost predicate MovedOn(q: Query, r: Record, qs: Queries, hist: map<Id, Record>, x: Id, now: TimeVal, timeout: nat,
      n: nat, more: nat)
    requires n > 0
  {
    && x in hist
    && (x in qs ==>
          && Carried(q, qs[x], r, hist[x], now, timeout, n) && qs[x].attempt >= q.attempt + more)
    && (x !in qs ==>
          && hist[x] == r.(callbacks := hist[x].callbacks, fates := hist[x].fates) && r.fates <= hist[x].fates
          && (hist[x].callbacks == [q.error] || hist[x].callbacks == [NoMemory]))
  }

  /** Nothing happens to the other queries. */
  ghost predicate Outcome(qs: Queries, hist: map<Id, Record>, qs': Queries, hist': map<Id, Record>, x: Id,
      now: TimeVal, timeout: nat, n: nat, more: nat)
    requires n > 0 && x in qs && x in hist
  {
    && qs' - {x} == qs - {x} && hist' - {x} == hist - {x}
    && MovedOn(qs[x], hist[x], qs', hist', x, now, timeout, n, more)
  }

  /** A query is due when its deadline is reached; the code takes second 0 for "no deadline". */
  predicate Expired(q: Query, now: TimeVal) {
    q.deadline.sec != 0 && TimedOut(now, q.deadline)
  }

  function Overdue(q: Query): Query {
    q.(error := TimedOutStatus, timeouts := q.timeouts + 1)
  }

  /** A query that is sent now can ever come due exactly when its deadline is not in second 0: when the clock is past
      that second, or the wait leads out of it. */
  lemma {:induction false} ComesDue(q: Query, now: TimeVal, wait: nat)
    requires now.Normal() && now.sec >= 0 && q.deadline == TimeAdd(now, wait)
    ensures (exists later: TimeVal :: later.Normal() && Expired(q, later)) <==>
              now.sec > 0 || now.usec + wait * 1000 >= MICROS
  {
    TimeAddExact(now, wait);
    var deadline := q.deadline;
    assert deadline.Micros() == now.Micros() + wait * 1000;
    assert deadline.sec == 0 <==> !(now.sec > 0 || now.usec + wait * 1000 >= MICROS);
    if deadline.sec != 0 {
      assert Expired(q, deadline);
    }
  }

  /** Sent in the first second with half a second to wait: never due. */
  lemma NeverDue(q: Query)
    requires q.deadline == TimeAdd(TimeVal(0, 0), 500)
    ensures forall later: TimeVal :: later.Normal() ==> !Expired(q, later)
  {
    ComesDue(q, TimeVal(0, 0), 500);
  }

  /** Server `s` is to be skipped from now on, if there is another. */
  function Marked(q: Query, s: nat, n: nat): Query
    requires s < |q.info|
  {
    if n > 1 then q.(info := q.info[s := q.info[s].(skip := true)]) else q
  }

  ghost function MarkedAll(qs: Queries, w: nat, n: nat): Queries {
    map x | x in qs :: if w < |qs[x].info| then Marked(qs[x], w, n) else qs[x]
  }

  ghost function Overdues(qs: Queries): Queries {
    map x | x in qs :: Overdue(qs[x])
  }

  /** From `qs` to `qs'` exactly the queries in `due` have moved on, each once, starting from the records in `base`. */
  ghost predicate Progress(qs: Queries, hist: map<Id, Record>, qs': Queries, hist': map<Id, Record>, base: Queries,
      due: set<Id>, now: TimeVal, timeout: nat, n: nat)
    requires n > 0
  {
    && qs'.Keys <= qs.Keys && hist'.Keys == hist.Keys && qs.Keys <= base.Keys && qs.Keys <= hist.Keys
    && (forall x :: x in hist && x !in due ==> hist'[x] == hist[x])
    && (forall x :: x in qs && x !in due ==> x in qs' && qs'[x] == qs[x])
    && (forall x :: x in qs && x in due ==> MovedOn(base[x], hist[x], qs', hist', x, now, timeout, n, 1))
  }

  lemma {:induction false} ProgressStep(qs: Queries, hist: map<Id, Record>, qs1: Queries, hist1: map<Id, Record>,
      qs2: Queries, hist2: map<Id, Record>, q: Query, base: Queries, due: set<Id>, x: Id, now: TimeVal, timeout: nat,
      n: nat)
    requires n > 0 && Progress(qs, hist, qs1, hist1, base, due, now, timeout, n)
    requires x in qs && x !in due && q == base[x]
    requires qs2 - {x} == qs1 - {x} && hist2 - {x} == hist1 - {x}
    requires MovedOn(q, hist1[x], qs2, hist2, x, now, timeout, n, 1)
    ensures Progress(qs, hist, qs2, hist2, base, due + {x}, now, timeout, n)
  {
    hide MovedOn;
    SameElsewhere(qs1, qs2, x);
    SameElsewhere(hist1, hist2, x);
    assert hist1[x] == hist[x];
    MovedRecorded(q, hist1[x], qs2, hist2, x, now, timeout, n, 1);
    forall y | y in qs && y in due
      ensures MovedOn(base[y], hist[y], qs2, hist2, y, now, timeout, n, 1)
    {
      MovedAlike(base[y], hist[y], qs1, hist1, qs2, hist2, y, now, timeout, n, 1);
    }
  }

  lemma MovedRecorded(q: Query, r: Record, qs': Queries, hist': map<Id, Record>, x: Id, now: TimeVal, timeout: nat,
      n: nat, more: nat)
    requires n > 0 && MovedOn(q, r, qs', hist', x, now, timeout, n, more)
    ensures x in hist'
  {
  }

  lemma MovedAlike(q: Query, r: Record, qs1: Queries, hist1: map<Id, Record>, qs2: Queries, hist2: map<Id, Record>,
      y: Id, now: TimeVal, timeout: nat, n: nat, more: nat)
    requires n > 0 && MovedOn(q, r, qs1, hist1, y, now, timeout, n, more)
    requires (y in qs1 <==> y in qs2) && (y in qs1 ==> qs1[y] == qs2[y])
    requires y in hist1 && y in hist2 && hist1[y] == hist2[y]
    ensures MovedOn(q, r, qs2, hist2, y, now, timeout, n, more)
  {
    hide Carried;
  }

  /** A query that was marked not to go to `w` again has been sent elsewhere. */
  lemma {:induction false} NotSentBack(qs: Queries, hist: map<Id, Record>, qs': Queries, hist': map<Id, Record>,
      due: set<Id>, x: Id, w: nat, now: TimeVal, timeout: nat, n: nat)
    requires n > 1 && Progress(qs, hist, qs', hist', MarkedAll(qs, w, n), due, now, timeout, n)
    requires x in due && x in qs && x in qs' && w < |qs[x].info|
    ensures qs'[x].server != w
  {
    MarkedAt(qs, w, n, x);
    assert MovedOn(Marked(qs[x], w, n), hist[x], qs', hist', x, now, timeout, n, 1);
    assert Marked(qs[x], w, n).info[w].skip;
  }

  // ------------------------------------------------------------------------
  // Any number of steps
  // ------------------------------------------------------------------------

  /** How far a query has got: its attempts, and the switch to TCP. */
  function Effort(q: Query): nat { q.attempt + if q.usingTcp then 1 else 0 }

  /** The same query later: every transmission since then has cost it an attempt or the switch, and while it has not
      been sent again it has kept its deadline. */
  ghost predicate Further(q: Query, r: Record, q': Query, r': Record) {
    && q'.qid == q.qid && q'.tcpbuf == q.tcpbuf && r'.first == r.first && r'.since == r.since && r'.message == r.message
    && r.sends <= r'.sends && r'.sends - r.sends <= Effort(q') - Effort(q)
    && (r'.sends == r.sends ==> q'.deadline == q.deadline)
  }

  /** From one moment to a later one: a live query has got further or is gone for good; what was gone has stayed as it
      was. */
  ghost predicate Onward(qs: Queries, hist: map<Id, Record>, qs': Queries, hist': map<Id, Record>) {
    && qs.Keys <= hist.Keys <= hist'.Keys && qs'.Keys <= hist'.Keys
    && (forall x :: x in hist && x in qs' ==> x in qs && Further(qs[x], hist[x], qs'[x], hist'[x]))
    && (forall x :: x in hist && x !in qs ==> hist'[x] == hist[x])
  }

  lemma OnwardSame(qs: Queries, hist: map<Id, Record>, nextId: Id, n: nat, tries: nat, timeout: nat, last: int,
      loose: set<Id>)
    requires HistoryOk(qs, hist, nextId, n, tries, timeout, last, loose)
    ensures Onward(qs, hist, qs, hist)
  {
  }

  lemma OnwardKeys(qs: Queries, hist: map<Id, Record>)
    requires Onward(qs, hist, qs, hist)
    ensures qs.Keys <= hist.Keys
  {
  }

  lemma {:induction false} OnwardTwice(qs: Queries, hist: map<Id, Record>, qs1: Queries, hist1: map<Id, Record>,
      qs2: Queries, hist2: map<Id, Record>)
    requires Onward(qs, hist, qs1, hist1) && Onward(qs1, hist1, qs2, hist2)
    ensures Onward(qs, hist, qs2, hist2)
  {
    forall x | x in hist && x in qs2 ensures x in qs && Further(qs[x], hist[x], qs2[x], hist2[x]) {
      assert Further(qs1[x], hist1[x], qs2[x], hist2[x]) && Further(qs[x], hist[x], qs1[x], hist1[x]);
    }
  }

  lemma MovedFurther(q0: Query, q: Query, r: Record, qs: Queries, hist: map<Id, Record>, x: Id, now: TimeVal,
      timeout: nat, n: nat, more: nat)
    requires n > 0 && MovedOn(q, r, qs, hist, x, now, timeout, n, more) && x in qs
    requires q.qid == q0.qid && q.tcpbuf == q0.tcpbuf && Effort(q) + more >= Effort(q0) + 1
    ensures Further(q0, r, qs[x], hist[x]) && hist[x].sends == r.sends + 1
  {
  }

  /** Queries alike but for marks and errors. */
  ghost predicate Alike(qs: Queries, base: Queries) {
    forall x :: x in qs && x in base ==>
      base[x].qid == qs[x].qid && base[x].tcpbuf == qs[x].tcpbuf && Effort(base[x]) == Effort(qs[x])
  }

  lemma BasesAlike(qs: Queries, w: nat, n: nat)
    ensures Alike(qs, Overdues(qs)) && Alike(qs, MarkedAll(qs, w, n))
  {
  }

  lemma {:induction false} ProgressOnward(qs: Queries, hist: map<Id, Record>, qs': Queries, hist': map<Id, Record>,
      base: Queries, due: set<Id>, now: TimeVal, timeout: nat, n: nat)
    requires n > 0 && Progress(qs, hist, qs', hist', base, due, now, timeout, n) && Alike(qs, base) && due <= qs.Keys
    ensures Onward(qs, hist, qs', hist')
    ensures forall x :: x in due && x in qs' ==> hist'[x].sends > hist[x].sends
  {
    hide MovedOn;
    forall x | x in hist && x in qs'
      ensures x in qs && Further(qs[x], hist[x], qs'[x], hist'[x])
      ensures x in due ==> hist'[x].sends > hist[x].sends
    {
      if x in due {
        assert MovedOn(base[x], hist[x], qs', hist', x, now, timeout, n, 1);
        MovedFurther(qs[x], base[x], hist[x], qs', hist', x, now, timeout, n, 1);
      }
    }
  }

  lemma {:induction false} AnsweredOnward(qs: Queries, hist: map<Id, Record>, qs': Queries, hist': map<Id, Record>,
      x: Id, verdict: Verdict, w: nat, now: TimeVal, timeout: nat, n: nat)
    requires n > 0 && qs.Keys <= hist.Keys && x in qs
             && Answered(qs[x], hist[x], qs', hist', x, verdict, w, now, timeout, n)
    requires qs' - {x} == qs - {x} && hist' - {x} == hist - {x}
    ensures Onward(qs, hist, qs', hist')
  {
    SameElsewhere(qs, qs', x);
    SameElsewhere(hist, hist', x);
    var q := qs[x];
    if x in qs' {
      match verdict
      case Truncated =>
        if !q.usingTcp {
          MovedFurther(q, q.(usingTcp := true), hist[x].(switched := true), qs', hist', x, now, timeout, n, 0);
        }
      case Refused =>
        if q.server == w {
          MovedFurther(q, Marked(q, w, n), hist[x], qs', hist', x, now, timeout, n, 1);
        }
      case Acceptable =>
    }
    hide MovedOn;
  }

  /** What is due after a step was due before it, and did not take part in it. */
  ghost predicate NoneLate(qs: Queries, qs': Queries, now: TimeVal) {
    forall x :: x in qs' && Expired(qs'[x], now) ==> x in qs && Expired(qs[x], now)
  }

  lemma {:induction false} ProgressNoneLate(qs: Queries, hist: map<Id, Record>, qs': Queries, hist': map<Id, Record>,
      base: Queries, due: set<Id>, now: TimeVal, timeout: nat, n: nat)
    requires n > 0 && Progress(qs, hist, qs', hist', base, due, now, timeout, n)
    requires timeout >= 2 && now.Normal()
    ensures NoneLate(qs, qs', now)
  {
    hide MovedOn, Expired;
    forall x | x in qs' && Expired(qs'[x], now) ensures x in qs && Expired(qs[x], now) {
      if x in due {
        NotDueAgain(base[x], hist[x], qs', hist', x, now, timeout, n, 1);
      }
    }
  }

  lemma NoneLateSame(qs: Queries, now: TimeVal)
    ensures NoneLate(qs, qs, now)
  {
  }

  lemma NoneLateNone(qs: Queries, qs': Queries, now: TimeVal)
    requires NoneLate(qs, qs', now) && forall x :: x in qs ==> !Expired(qs[x], now)
    ensures forall x :: x in qs' ==> !Expired(qs'[x], now)
  {
  }

  lemma NoneLateTwice(qs: Queries, qs1: Queries, qs2: Queries, now: TimeVal)
    requires NoneLate(qs, qs1, now) && NoneLate(qs1, qs2, now)
    ensures NoneLate(qs, qs2, now)
  {
  }

  /** A query that was due and is not due any more has been sent again in between, or is gone. */
  lemma {:induction false} DueWasSent(qs: Queries, hist: map<Id, Record>, qs': Queries, hist': map<Id, Record>,
      x: Id, now: TimeVal)
    requires Onward(qs, hist, qs', hist') && x in qs && Expired(qs[x], now) && x in qs' && !Expired(qs'[x], now)
    ensures hist'[x].sends > hist[x].sends
  {
    assert Further(qs[x], hist[x], qs'[x], hist'[x]);
  }

  /** A query that has been sent again has made an effort. */
  lemma SentEffort(qs: Queries, hist: map<Id, Record>, qs': Queries, hist': map<Id, Record>, x: Id)
    requires Onward(qs, hist, qs', hist') && x in hist && x in hist' && x in qs' && hist'[x].sends > hist[x].sends
    ensures x in qs && Effort(qs'[x]) > Effort(qs[x])
  {
    assert Further(qs[x], hist[x], qs'[x], hist'[x]);
  }

  lemma StillFurther(qs: Queries, hist: map<Id, Record>, qs': Queries, hist': map<Id, Record>, x: Id)
    requires Onward(qs, hist, qs', hist') && x in hist
    ensures x in hist'
    ensures x in qs' ==> x in qs && hist'[x].since == hist[x].since && Effort(qs'[x]) >= Effort(qs[x])
  {
    if x in qs' {
      assert Further(qs[x], hist[x], qs'[x], hist'[x]);
    }
  }

  lemma GoneEnded(qs: Queries, hist: map<Id, Record>, nextId: Id, n: nat, tries: nat, timeout: nat, last: int, x: Id)
    requires HistoryOk(qs, hist, nextId, n, tries, timeout, last, {}) && x in hist && x !in qs
    ensures |hist[x].callbacks| == 1
  {
  }

  lemma {:induction false} AddedOnward(qs: Queries, hist: map<Id, Record>, qs': Queries, hist': map<Id, Record>, x: Id)
    requires qs' - {x} == qs && hist' - {x} == hist && qs.Keys <= hist.Keys && x !in hist && qs'.Keys <= hist'.Keys
    ensures Onward(qs, hist, qs', hist')
  {
    forall y | y in hist
      ensures y in hist' && hist'[y] == hist[y] && (y in qs' <==> y in qs) && (y in qs ==> qs'[y] == qs[y])
    {
      assert y in hist' - {x};
      assert y in qs' <==> y in qs' - {x};
      if y in qs { assert (qs' - {x})[y] == qs[y]; }
    }
  }

  /** What can be seen of a channel between two calls. */
  datatype Moment = Moment(queries: Queries, hist: map<Id, Record>, nextId: Id, last: int)

  /** The moments of a run, in each of which query `x`, if it is still alive, has been sent again since the one
      before. */
  ghost predicate Pressed(run: seq<Moment>, x: Id, n: nat, tries: nat, timeout: nat) {
    && run != [] && x in run[0].hist
    && (forall i :: 0 <= i < |run| ==>
        HistoryOk(run[i].queries, run[i].hist, run[i].nextId, n, tries, timeout, run[i].last, {}))
    && (forall i {:trigger run[i]} :: 0 < i < |run| ==>
          && Onward(run[i - 1].queries, run[i - 1].hist, run[i].queries, run[i].hist)
          && x in run[i - 1].hist && x in run[i].hist
          && (x in run[i].queries ==> run[i].hist[x].sends > run[i - 1].hist[x].sends))
  }

  lemma PressedBefore(run: seq<Moment>, x: Id, n: nat, tries: nat, timeout: nat)
    requires Pressed(run, x, n, tries, timeout) && |run| > 1
    ensures Pressed(run[..|run| - 1], x, n, tries, timeout)
    ensures var s, s' := run[|run| - 2], run[|run| - 1];
            && Onward(s.queries, s.hist, s'.queries, s'.hist) && x in s.hist && x in s'.hist
            && (x in s'.queries ==> s'.hist[x].sends > s.hist[x].sends)
  {
    hide HistoryOk, Onward;
    var before := run[..|run| - 1];
    assert forall i :: 0 <= i < |before| ==> before[i] == run[i];
  }

  lemma {:induction false} EffortGrows(run: seq<Moment>, x: Id, n: nat, tries: nat, timeout: nat)
    requires Pressed(run, x, n, tries, timeout) && x in run[|run| - 1].queries
    ensures Effort(run[|run| - 1].queries[x]) >= |run| - 1
    decreases |run|
  {
    hide HistoryOk, Pressed, Onward;
    var k := |run| - 1;
    if k <= 0 {
    } else {
      PressedBefore(run, x, n, tries, timeout);
      SentEffort(run[k - 1].queries, run[k - 1].hist, run[k].queries, run[k].hist, x);
      EffortGrows(run[..k], x, n, tries, timeout);
    }
  }

  /** A query that is overdue again and again has its callback after nservers * tries rounds and one for the switch, in
      every run, whatever else is sent, answered or fails meanwhile. */
  lemma {:induction false} GivenUp(run: seq<Moment>, x: Id, n: nat, tries: nat, timeout: nat)
    requires Pressed(run, x, n, tries, timeout) && |run| > MaxAttempts(n, tries) + 1
    ensures var end := run[|run| - 1];
            x !in end.queries && x in end.hist && |end.hist[x].callbacks| == 1
  {
    hide QueryBase, Within, Affordable;
    var end := run[|run| - 1];
    EffortBound(end, x, n, tries, timeout);
    if x in end.queries {
      EffortGrows(run, x, n, tries, timeout);
    }
  }

  lemma EffortBound(m: Moment, x: Id, n: nat, tries: nat, timeout: nat)
    requires HistoryOk(m.queries, m.hist, m.nextId, n, tries, timeout, m.last, {})
    ensures x in m.queries ==> Effort(m.queries[x]) <= MaxAttempts(n, tries)
  {
    if x in m.queries {
      assert Waiting(m.queries[x], m.hist[x], n, tries, timeout, m.last);
    }
  }

  lemma NoProgress(qs: Queries, hist: map<Id, Record>, nextId: Id, n: nat, tries: nat, timeout: nat, last: int,
      now: TimeVal)
    requires HistoryOk(qs, hist, nextId, n, tries, timeout, last, {})
    ensures forall base: Queries :: qs.Keys <= base.Keys ==> Progress(qs, hist, qs, hist, base, {}, now, timeout, n)
    ensures Overdues(qs).Keys == qs.Keys && forall w: nat :: MarkedAll(qs, w, n).Keys == qs.Keys
  {
  }

  lemma StillThere(qs: Queries, hist: map<Id, Record>, qs': Queries, hist': map<Id, Record>, base: Queries,
      due: set<Id>, x: Id, now: TimeVal, timeout: nat, n: nat)
    requires n > 0 && Progress(qs, hist, qs', hist', base, due, now, timeout, n)
    requires x in qs' && x !in due
    ensures x in qs && qs'[x] == qs[x] && x in hist && x in hist' && hist'[x] == hist[x]
  {
  }

  lemma {:induction false} PlacedAt(lists: Lists, lists': Lists, x: Id, place: Option<nat>, c: nat)
    requires Placed(lists, lists', x, place) && c < |lists|
    ensures |lists'| == |lists|
    ensures lists'[c] == if place == Some(c) then Drop(lists[c], x) + [x] else Drop(lists[c], x)
  {
  }

  lemma OverduesAt(qs: Queries, x: Id)
    requires x in qs
    ensures Overdues(qs)[x] == Overdue(qs[x])
  {
  }

  lemma MarkedAt(qs: Queries, w: nat, n: nat, x: Id)
    requires x in qs && w < |qs[x].info|
    ensures x in MarkedAll(qs, w, n) && MarkedAll(qs, w, n)[x] == Marked(qs[x], w, n)
  {
  }

  /** A query that is sent again waits at least a millisecond, so it is not due any more. */
  lemma {:induction false} NotDueAgain(q: Query, r: Record, qs: Queries, hist: map<Id, Record>, x: Id, now: TimeVal,
      timeout: nat, n: nat, more: nat)
    requires n > 0 && timeout >= 2 && now.Normal() && MovedOn(q, r, qs, hist, x, now, timeout, n, more) && x in qs
    ensures !Expired(qs[x], now)
  {
    var q' := qs[x];
    var random: nat :| random < 8 && q'.deadline == TimeAdd(now, Wait(timeout, q'.attempt, n, random));
    WaitBounds(timeout, q'.attempt, n, random);
    TimeAddExact(now, Wait(timeout, q'.attempt, n, random));
    TimedOutIsOrder(now, q'.deadline);
  }

  /** Once nothing is due, no deadline lies before the current second. */
  lemma {:induction false} WheelTurned(qs: Queries, hist: map<Id, Record>, nextId: Id, n: nat, tries: nat,
      timeout: nat, last: int, now: TimeVal)
    requires HistoryOk(qs, hist, nextId, n, tries, timeout, last, {}) && last <= now.sec
    requires forall x :: x in qs ==> !Expired(qs[x], now)
    ensures HistoryOk(qs, hist, nextId, n, tries, timeout, now.sec, {})
  {
    forall x | x in qs ensures Waiting(qs[x], hist[x], n, tries, timeout, now.sec) {
      assert Waiting(qs[x], hist[x], n, tries, timeout, last);
    }
    hide QueryBase, OnCourse;
  }

  lemma SameElsewhere<T>(m: map<Id, T>, m': map<Id, T>, x: Id)
    requires m' - {x} == m - {x}
    ensures m'.Keys - {x} == m.Keys - {x}
    ensures forall y :: y != x ==> (y in m' <==> y in m)
    ensures forall y :: y != x && y in m ==> m'[y] == m[y]
  {
    forall y | y != x ensures (y in m' <==> y in m) && (y in m ==> m'[y] == m[y]) {
      assert y in m' <==> y in m' - {x};
      assert y in m <==> y in m - {x};
      if y in m { assert (m' - {x})[y] == (m - {x})[y]; }
    }
  }

  lemma FewerKeys(qs: Queries, qs': Queries, x: Id)
    requires qs' - {x} == qs - {x} && x in qs
    ensures qs'.Keys <= qs.Keys && qs != map[]
  {
    SameElsewhere(qs, qs', x);
  }

  /** No mark to skip a server is taken away. */
  ghost predicate Remembered(q: Query, q': Query) {
    |q'.info| == |q.info| && forall s :: 0 <= s < |q.info| && q.info[s].skip ==> q'.info[s].skip
  }

  /** The query is unchanged but for its place, was sent to a server that is not to be skipped, and waits. */
  ghost predicate Carried(q: Query, q': Query, r: Record, r': Record, now: TimeVal, timeout: nat, n: nat)
    requires n > 0
  {
    && q'.qid == q.qid && q'.tcpbuf == q.tcpbuf && q'.usingTcp == q.usingTcp
    && q'.error == q.error && q'.timeouts == q.timeouts
    && Remembered(q, q') && q'.server < |q'.info| && !q'.info[q'.server].skip && q'.server < |r.visits|
    && r.fates <= r'.fates
    && exists random: nat {:trigger Wait(timeout, q'.attempt, n, random)} :: random < 8 &&
         var wait := Wait(timeout, q'.attempt, n, random);
         q'.deadline == TimeAdd(now, wait) && r' == Counted(r, q'.server, wait).(fates := r'.fates)
  }

  /** What writing to a server has come to. */
  datatype Writing = Idle | Took(count: nat) | Failed

  datatype Transmission = Sent | Unsent | OutOfMemory

  /** Where the node of `x` is afterwards in a family of lists. */
  ghost predicate Placed(lists: Lists, lists': Lists, x: Id, place: Option<nat>) {
    match place
    case Some(b) => b < |lists| && lists' == Moved(lists, x, b)
    case None => lists' == Unlink(lists, x)
  }

  ghost function Deadline(qs: Queries, x: Id): Option<nat> {
    if x in qs then Some(Bucket(qs[x].deadline)) else None
  }

  ghost function Target(qs: Queries, x: Id): Option<nat> {
    if x in qs then Some(qs[x].server) else None
  }

  // ------------------------------------------------------------------------
  // Answers
  // ------------------------------------------------------------------------

  function Qid(abuf: seq<byte>): nat
    requires |abuf| >= 2
  {
    (abuf[0] as int) * 256 + abuf[1]
  }

  datatype Verdict = Truncated | Refused | Acceptable

  /** How an answer to a live query is taken. */
  function Judge(abuf: seq<byte>, tcp: bool, ignoreTc: bool, noCheckResp: bool): Verdict
    requires |abuf| >= HFIXEDSZ
  {
    var tc := abuf[2] / 2 % 2 == 1;
    var rcode := abuf[3] % 16;
    if (tc || |abuf| > PACKETSZ) && !tcp && !ignoreTc then Truncated
    else if !noCheckResp && rcode in {2, 4, 5} then Refused
    else Acceptable
  }

  /** What an answer from server `w` does to the query it belongs to. */
  ghost predicate Answered(q: Query, r: Record, qs: Queries, hist: map<Id, Record>, x: Id, verdict: Verdict, w: nat,
      now: TimeVal, timeout: nat, n: nat)
    requires n > 0
  {
    match verdict
    case Truncated =>
      if q.usingTcp then x in qs && qs[x] == q && x in hist && hist[x] == r
      else MovedOn(q.(usingTcp := true), r.(switched := true), qs, hist, x, now, timeout, n, 0)
    case Refused =>
      && w < |q.info|
      && if q.server == w then MovedOn(Marked(q, w, n), r, qs, hist, x, now, timeout, n, 1)
         else x in qs && qs[x] == Marked(q, w, n) && x in hist && hist[x] == r
    case Acceptable =>
      x !in qs && x in hist && hist[x] == r.(callbacks := [Success])
  }

  /** What follows from the header of an answer, bit by bit: one that is cut off or longer than a datagram may be, and
      came by UDP, makes the query change to TCP, once; a server that fails, does not implement, or refuses (codes 2, 4
      and 5) is not asked again; anything else ends the query. */
  lemma AnsweredExact(abuf: seq<byte>, tcp: bool, ignoreTc: bool, noCheckResp: bool, q: Query, r: Record, qs: Queries,
      hist: map<Id, Record>, x: Id, w: nat, now: TimeVal, timeout: nat, n: nat)
    requires n > 0 && |abuf| >= 12
    requires Answered(q, r, qs, hist, x, Judge(abuf, tcp, ignoreTc, noCheckResp), w, now, timeout, n)
    ensures var cut := !tcp && !ignoreTc && (abuf[2] % 4 >= 2 || |abuf| > 512);
            var code := abuf[3] - abuf[3] / 16 * 16;
            var refused := !noCheckResp && (code == 2 || code == 4 || code == 5);
            && (cut && q.usingTcp ==> x in qs && qs[x] == q && x in hist && hist[x] == r)
            && (cut && !q.usingTcp ==>
                  MovedOn(q.(usingTcp := true), r.(switched := true), qs, hist, x, now, timeout, n, 0))
            && (!cut && refused && q.server == w ==>
                  w < |q.info| && MovedOn(Marked(q, w, n), r, qs, hist, x, now, timeout, n, 1))
            && (!cut && refused && q.server != w ==>
                  w < |q.info| && x in qs && qs[x] == Marked(q, w, n) && x in hist && hist[x] == r)
            && (!cut && !refused ==> x !in qs && x in hist && hist[x] == r.(callbacks := [Success]))
  {
    hide MovedOn;
    assert abuf[2] / 2 % 2 == 1 <==> abuf[2] % 4 >= 2;
  }

  // ------------------------------------------------------------------------
  // What the invariant says
  // ------------------------------------------------------------------------

  /** Exactly one callback: never one while the query is alive, and exactly one once it is gone; and never more
      transmissions, visits to a server and time spent waiting than `CostBounds` says. */
  lemma {:induction false} ExactlyOneCallback(qs: Queries, hist: map<Id, Record>, nextId: Id, n: nat, tries: nat,
      timeout: nat, last: int, x: Id)
    requires HistoryOk(qs, hist, nextId, n, tries, timeout, last, {}) && x < nextId
    ensures x in hist && |hist[x].callbacks| == (if x in qs then 0 else 1)
    ensures var t := if tries == 0 then 1 else tries;
            && hist[x].sends <= n * t + Switches(hist[x])
            && |hist[x].visits| == n && (forall s :: 0 <= s < n ==> hist[x].visits[s] <= t + Switches(hist[x]))
            && hist[x].waited <= timeout * n * (Pow2(t) - 1) + if hist[x].switched then timeout * Pow2(t - 1) else 0
    ensures x in qs ==>
              qs[x].server == (hist[x].first + qs[x].attempt) % n && (qs[x].attempt == 0 || qs[x].attempt < n * tries)
  {
    hide Affordable, Within, Pow2;
    assert x in hist;
    if x in qs {
      assert Waiting(qs[x], hist[x], n, tries, timeout, last) && QueryBase(qs[x], hist[x], n, tries, timeout);
    }
    CostBounds(hist[x], n, tries, timeout);
  }

  /** Between two calls the lists are an index: a live query is in the list of all queries, in the bucket of its ID,
      in the bucket of its deadline and in the list of its server, once in each family, and nothing else is in any. */
  lemma {:induction false} ListsAreIndex(all: seq<Id>, byQid: Lists, byTimeout: Lists, toServer: Lists, qs: Queries,
      x: Id)
    requires ListsOk(all, byQid, byTimeout, toServer, qs, {}, {})
    requires forall y :: y in qs ==> qs[y].server < |toServer| - 1
    ensures NoDup(all) && (x in all <==> x in qs)
    ensures forall b :: 0 <= b < QID_TABLE_SIZE ==>
              NoDup(byQid[b]) && (x in byQid[b] <==> x in qs && qs[x].qid % QID_TABLE_SIZE == b)
    ensures forall b :: 0 <= b < TIMEOUT_TABLE_SIZE ==>
              NoDup(byTimeout[b]) && (x in byTimeout[b] <==> x in qs && Bucket(qs[x].deadline) == b)
    ensures forall s :: 0 <= s < |toServer| ==>
              NoDup(toServer[s]) && (x in toServer[s] <==> x in qs && qs[x].server == s)
  {
    if x in qs {
      ListsFind(all, byQid, byTimeout, toServer, qs, {}, {}, x);
    }
    LinkedNoDup([all], AllKey(qs), {}, 0);
    hide Linked;
    forall b | 0 <= b < QID_TABLE_SIZE
      ensures NoDup(byQid[b]) && (x in byQid[b] ==> x in qs && qs[x].qid % QID_TABLE_SIZE == b)
    {
      LinkedNoDup(byQid, QidKey(qs), {}, b);
    }
    forall b | 0 <= b < TIMEOUT_TABLE_SIZE
      ensures NoDup(byTimeout[b]) && (x in byTimeout[b] ==> x in qs && Bucket(qs[x].deadline) == b)
    {
      LinkedNoDup(byTimeout, WheelKey(qs), {}, b);
    }
    forall s | 0 <= s < |toServer| ensures NoDup(toServer[s]) && (x in toServer[s] ==> x in qs && qs[x].server == s) {
      LinkedNoDup(toServer, ServerKey(qs, {}, |toServer| - 1), {}, s);
    }
  }

  /** What a TCP server has been given is a beginning of the framed queries in the order they were queued, and on a
      connection in order the queue holds exactly the rest. Nothing queued points into a query that is gone. */
  lemma {:induction false} StreamInOrder(servers: seq<Server>, wires: seq<Wire>, qs: Queries, s: nat)
    requires ServersOk(servers, wires, qs) && s < |servers|
    ensures |wires| == |servers| && wires[s].written <= Flat(wires[s].frames)
    ensures !servers[s].broken ==> wires[s].written + Pending(servers[s].queue) == Flat(wires[s].frames)
    ensures forall e :: e in servers[s].queue && e.owner.Some? ==>
              e.owner.value in qs && IsSuffix(e.data, qs[e.owner.value].tcpbuf)
  {
    hide Pending, Flat;
    assert QueueOk(servers[s], s, qs) && StreamOk(servers[s], wires[s]);
    forall e | e in servers[s].queue && e.owner.Some?
      ensures e.owner.value in qs && IsSuffix(e.data, qs[e.owner.value].tcpbuf)
    {
      var j :| 0 <= j < |servers[s].queue| && servers[s].queue[j] == e;
      assert OwnedOk(servers[s].queue[j], servers[s].generation, s, qs);
    }
  }

  lemma {:induction false} InHistory(qs: Queries, hist: map<Id, Record>, nextId: Id, n: nat, tries: nat,
      timeout: nat, last: int, loose: set<Id>, x: Id)
    requires HistoryOk(qs, hist, nextId, n, tries, timeout, last, loose) && x in qs
    ensures n > 0 && x in hist && QueryBase(qs[x], hist[x], n, tries, timeout) && hist[x].callbacks == []
    ensures hist[x].first < n && Affordable(hist[x], n, tries, timeout) && hist[x].since <= last
    ensures x !in loose ==> Waiting(qs[x], hist[x], n, tries, timeout, last)
  {
  }

  lemma ListsSizes(all: seq<Id>, byQid: Lists, byTimeout: Lists, toServer: Lists, qs: Queries, stolen: set<Id>,
      loose: set<Id>)
    requires ListsOk(all, byQid, byTimeout, toServer, qs, stolen, loose)
    ensures |byQid| == QID_TABLE_SIZE && |byTimeout| == TIMEOUT_TABLE_SIZE
  {
  }

  /** The server is not to be skipped, and a query that uses TCP has not been sent over the connection that it has
      now. */
  ghost predicate Fresh(q: Query, servers: seq<Server>) {
    && q.server < |q.info| && !q.info[q.server].skip
    && (q.usingTcp ==> q.server < |servers| && q.info[q.server].generation != servers[q.server].generation)
  }

  /** A server is not used if its connection is broken, if it is to be skipped,
      or if the query has already been sent over this very connection. */
  predicate Usable(q: Query, sv: Server, s: nat)
    requires s < |q.info|
  {
    !sv.broken && !q.info[s].skip && !(q.usingTcp && q.info[s].generation == sv.generation)
  }

  lemma LaterPart(all: seq<byte>, count: nat, rest: seq<byte>)
    requires count <= |all| && all == all[..count] + rest
    ensures rest == all[count..]
  {
    assert all == all[..count] + all[count..];
  }

  lemma {:induction false} StreamAdvances(sv: Server, sv': Server, w: Wire, taken: seq<byte>)
    requires StreamOk(sv, w) && !sv.broken && sv' == sv.(queue := sv'.queue)
    requires Pending(sv.queue) == taken + Pending(sv'.queue)
    ensures StreamOk(sv', w.(written := w.written + taken))
  {
    hide Pending, Flat;
    assert w.written + taken + Pending(sv'.queue) == w.written + (taken + Pending(sv'.queue));
  }

  lemma NewId(qs: Queries, hist: map<Id, Record>, nextId: Id, n: nat, tries: nat, timeout: nat, last: int)
    requires HistoryOk(qs, hist, nextId, n, tries, timeout, last, {})
    ensures nextId !in qs && nextId !in hist
  {
  }

  /** A query as ares_send sets it up, for the server `first`. */
  function NewQuery(qbuf: seq<byte>, first: nat, n: nat, usingTcp: bool): (q: Query)
    requires HFIXEDSZ <= |qbuf| < 65536 && first < n
    ensures Framed(q.tcpbuf) && q.tcpbuf == Framing(qbuf) && q.tcpbuf[2..] == qbuf
  {
    Query(Qid(qbuf), Framing(qbuf), TimeVal(0, 0), 0, first, seq(n, _ => ServerInfo(false, 0)), usingTcp,
        ConnectionRefused, 0)
  }

  lemma {:induction false} NewQueryStarts(qbuf: seq<byte>, first: nat, n: nat, usingTcp: bool, since: int, tries: nat,
      timeout: nat)
    requires HFIXEDSZ <= |qbuf| < 65536 && first < n
    ensures var q := NewQuery(qbuf, first, n, usingTcp);
            && q.qid == Qid(qbuf) && q.attempt == 0 && q.server == first && q.usingTcp == usingTcp
            && q.error == ConnectionRefused && |q.info| == n && q.timeouts == 0
            && (forall s :: 0 <= s < n ==> q.info[s] == ServerInfo(false, 0))
            && OnCourse(q, NothingSent(first, n, since, qbuf), n, tries)
            && QueryBase(q, NothingSent(first, n, since, qbuf), n, tries, timeout)
    ensures Within(NothingSent(first, n, since, qbuf), 0, 0, n, timeout)
  {
    DivRound(0, first, n);
    NothingSentWithin(first, n, since, qbuf, tries, timeout);
    hide Within, Affordable;
  }

  lemma FreshAt(servers: seq<Server>, wires: seq<Wire>, qs: Queries, q: Query)
    requires ServersOk(servers, wires, qs) && q.server < |servers| == |q.info|
             && q.info[q.server] == ServerInfo(false, 0)
    ensures Fresh(q, servers)
  {
  }

  lemma BaseMoves(q: Query, r: Record, n: nat, tries: nat, timeout: nat)
    requires QueryBase(q, r, n, tries, timeout)
    ensures q.server < n && |q.info| == n
    ensures forall k {:trigger q.(attempt := k)} :: QueryBase(q.(attempt := k), r, n, tries, timeout)
    ensures forall s: nat {:trigger q.(server := s)} :: s < n ==> QueryBase(q.(server := s), r, n, tries, timeout)
  {
  }

  lemma {:induction false} NextIndex(k: nat, n: nat)
    requires n > 0
    ensures (k % n + 1) % n == (k + 1) % n
  {
    var q, r := k / n, k % n;
    assert k + 1 == q * n + (r + 1);
    ModPlus(q, r + 1, n);
  }

  lemma BaseKeeps(q: Query, r: Record, n: nat, tries: nat, timeout: nat)
    requires QueryBase(q, r, n, tries, timeout)
    ensures q.server < n && |q.info| == n
    ensures forall d :: QueryBase(q.(deadline := d), r, n, tries, timeout)
  {
  }

  /** The record is as it was but for what became of the attempts. */
  lemma BaseFates(q: Query, r: Record, fates: seq<Fate>, n: nat, tries: nat, timeout: nat)
    requires QueryBase(q, r, n, tries, timeout)
    ensures QueryBase(q, r.(fates := fates), n, tries, timeout)
  {
    if n > 0 {
      WithinFates(r, fates, MaxAttempts(n, tries), MaxAttempts(n, tries) - 1, n, timeout);
    }
  }

  /** The record of a query that is sent once more. */
  lemma {:induction false} SentBase(q: Query, q': Query, r: Record, r': Record, wait: nat, n: nat, tries: nat,
      timeout: nat)
    requires n > 0 && QueryBase(q', r, n, tries, timeout) && OnCourse(q, r, n, tries)
    requires q' == q.(info := q'.info) && Within(r, q.attempt, q.attempt, n, timeout) && q.server < |r.visits|
    requires r' == Counted(r, q.server, wait).(fates := r'.fates) && wait <= FullWait(timeout, q.attempt, n)
    ensures QueryBase(q', r', n, tries, timeout) && Within(r', q.attempt + 1, q.attempt, n, timeout)
  {
    hide Within, FullWait;
    var r1 := Counted(r, q.server, wait);
    WithinSent(r, q.attempt, n, timeout, q.server, wait);
    WithinFates(r1, r'.fates, q.attempt + 1, q.attempt, n, timeout);
    AffordableIs(r', q.attempt, n, tries, timeout);
  }

  lemma TimeAddLater(now: TimeVal, millisecs: nat)
    requires now.Normal()
    ensures TimeAdd(now, millisecs).sec >= now.sec
  {
  }

  lemma DetachGeneration(sv: Server, sv': Server, x: Id, ok: bool)
    requires DetachedServer(sv, sv', x, ok)
    ensures sv'.generation == sv.generation
  {
  }

  lemma NotEmptyEntry(sv: Server, s: nat, qs: Queries)
    requires QueueOk(sv, s, qs) && !sv.broken && sv.queue != []
    ensures sv.queue[0].data != []
  {
  }

  lemma {:induction false} ServersAt(servers: seq<Server>, wires: seq<Wire>, qs: Queries, i: nat)
    requires ServersOk(servers, wires, qs) && i < |servers|
    ensures |wires| == |servers| && QueueOk(servers[i], i, qs) && StreamOk(servers[i], wires[i])
  {
  }
}
