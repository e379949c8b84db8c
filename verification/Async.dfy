/** Wakeups from other threads on Windows, and closing the handles they wake.
    Models ext/noderb_extension/libuv/src/win/async.c and the async branch of handle.c, as steps of one loop
    thread and any number of sender threads. */
module Async {

  type Id = nat

  datatype Handle = Handle(sent: bool, closing: bool, closed: bool, queued: bool)

  /** Where the loop thread is: in uv_process_async_wakeup_req before the flag is cleared, before the callback, and
      in the callback; or in a close callback. */
  datatype Phase = Between | Clearing(h: Id) | Calling(h: Id) | Running(h: Id) | Ending(h: Id)

  datatype Event = Sent(h: Id) | Called(h: Id) | CloseCalled(h: Id)

  /** `entering` holds the handles whose sender has found them open and has not set the flag yet; `posting` those whose
      sender has set the flag and has not posted yet; `port` the completion port; `pending` the requests taken off it;
      `endgames` the stack of handles to be closed. */
  datatype State = State(handles: map<Id, Handle>, entering: multiset<Id>, posting: multiset<Id>, port: multiset<Id>,
      pending: seq<Id>, endgames: seq<Id>, phase: Phase, log: seq<Event>)

  datatype Step =
    | Init(h: Id)          // uv_async_init
    | Enter(h: Id)         // uv_async_send asks whether the handle is closing
    | Exchange(h: Id)      // the flag is set
    | Post(h: Id)          // the completion is posted
    | Poll(h: Id)          // the loop takes a packet off the port
    | Take                 // the loop takes the first request
    | Clear                // async_sent = 0
    | Call                 // the callback begins
    | Return               // the callback ends
    | Close(h: Id)         // uv_close, from any code on the loop thread
    | Endgame              // one round of uv_process_endgames, up to the close callback
    | CloseReturn          // the close callback ends

  const START := State(map[], multiset{}, multiset{}, multiset{}, [], [], Between, [])

  /** What the code asks before a step: a closing handle is not sent to, and an id is initialised once. */
  predicate Enabled(s: State, step: Step) {
    match step
    case Init(h) => h !in s.handles
    case Enter(h) => h in s.handles && !s.handles[h].closing
    case Exchange(h) => h in s.entering && h in s.handles
    case Post(h) => h in s.posting
    case Poll(h) => h in s.port && s.phase.Between?
    case Take => s.pending != [] && s.phase.Between?
    case Clear => s.phase.Clearing? && s.phase.h in s.handles
    case Call => s.phase.Calling?
    case Return => s.phase.Running? && s.phase.h in s.handles
    case Close(h) => h in s.handles && (s.phase.Between? || s.phase.Running? || s.phase.Ending?)
    case Endgame => s.endgames != [] && s.phase.Between? && s.endgames[0] in s.handles
    case CloseReturn => s.phase.Ending?
  }

  /** uv_want_endgame */
  function WantEndgame(s: State, h: Id): State
    requires h in s.handles
  {
    if s.handles[h].queued then s
    else s.(handles := s.handles[h := s.handles[h].(queued := true)], endgames := [h] + s.endgames)
  }

  function Apply(s: State, step: Step): State
    requires Enabled(s, step)
  {
    match step
    case Init(h) => s.(handles := s.handles[h := Handle(false, false, false, false)])
    case Enter(h) => s.(entering := s.entering + multiset{h})
    case Exchange(h) =>
      var t := s.(handles := s.handles[h := s.handles[h].(sent := true)], entering := s.entering - multiset{h},
                  log := s.log + [Sent(h)]);
      if s.handles[h].sent then t else t.(posting := t.posting + multiset{h})
    case Post(h) => s.(posting := s.posting - multiset{h}, port := s.port + multiset{h})
    case Poll(h) => s.(port := s.port - multiset{h}, pending := s.pending + [h])
    case Take => s.(pending := s.pending[1..], phase := Clearing(s.pending[0]))
    case Clear => s.(handles := s.handles[s.phase.h := s.handles[s.phase.h].(sent := false)],
        phase := Calling(s.phase.h))
    case Call => s.(phase := Running(s.phase.h), log := s.log + [Called(s.phase.h)])
    case Return =>
      var t := s.(phase := Between);
      if s.handles[s.phase.h].closing then WantEndgame(t, s.phase.h) else t
    case Close(h) =>
      if s.handles[h].closing then s
      else
        var t := s.(handles := s.handles[h := s.handles[h].(closing := true)]);
        if s.handles[h].sent then t else WantEndgame(t, h)
    case Endgame =>
      var h := s.endgames[0];
      var t := s.(handles := s.handles[h := s.handles[h].(queued := false)], endgames := s.endgames[1..]);
      if s.handles[h].closing && !s.handles[h].sent then
        t.(handles := t.handles[h := t.handles[h].(closed := true)], phase := Ending(h),
            log := s.log + [CloseCalled(h)])
      else t
    case CloseReturn => s.(phase := Between)
  }

  // ------------------------------------------------------------------------
  // The invariant
  // ------------------------------------------------------------------------

  /** The packets of a handle on their way, from the exchange to the clearing of the flag. */
  function InFlight(s: State, h: Id): nat {
    s.posting[h] + s.port[h] + multiset(s.pending)[h] + if s.phase == Clearing(h) then 1 else 0
  }

  function CloseCalls(log: seq<Event>, h: Id): nat {
    multiset(log)[CloseCalled(h)]
  }

  predicate InCallback(s: State, h: Id) {
    s.phase == Calling(h) || s.phase == Running(h)
  }

  predicate Queued(s: State, h: Id) {
    h in s.handles && s.handles[h].queued
  }

  /** One packet in flight while the flag is set, none otherwise. */
  predicate Counted(s: State, h: Id) {
    if h in s.handles then InFlight(s, h) == if s.handles[h].sent then 1 else 0
    else InFlight(s, h) == 0 && s.entering[h] == 0 && !InCallback(s, h)
  }

  /** A closing handle is waiting for its packet, for the end of its callback, or on the stack; a closed one has nothing
      left, and its close callback has been called once. */
  predicate Ordered(s: State, h: Id) {
    if h in s.handles then
      var a := s.handles[h];
      && (a.queued ==> a.closing && !a.closed)
      && (a.closed ==> a.closing && !a.sent && !InCallback(s, h))
      && (a.closing && !a.closed ==> a.queued || a.sent || InCallback(s, h))
      && CloseCalls(s.log, h) == if a.closed then 1 else 0
    else CloseCalls(s.log, h) == 0
  }

  /** Each queued handle is on the stack once, and nothing else is. */
  ghost predicate Stacked(s: State) {
    && (forall h: Id :: h in s.endgames <==> Queued(s, h))
    && (forall i, j :: 0 <= i < j < |s.endgames| ==> s.endgames[i] != s.endgames[j])
  }

  /** Each send was followed by a callback that began after it, or has yet to be. */
  ghost predicate Heard(s: State) {
    forall i :: 0 <= i < |s.log| && s.log[i].Sent? ==> HeardAt(s, i)
  }

  ghost predicate HeardAt(s: State, i: nat)
    requires i < |s.log|
  {
    var h := s.log[i].h;
    h in s.handles && (s.handles[h].sent || s.phase == Calling(h) || exists j ::
        i < j < |s.log| && s.log[j] == Called(h))
  }

  /** What every run keeps. */
  ghost predicate Inv(s: State) {
    (forall h: Id :: Counted(s, h)) && Stacked(s) && Heard(s)
  }

  /** A sender sets the flag of a handle that is closed already. */
  predicate Late(s: State, step: Step) {
    step.Exchange? && step.h in s.handles && s.handles[step.h].closed
  }

  lemma PendingHead(s: State, h: Id)
    requires s.pending != []
    ensures multiset(s.pending)[h] == multiset(s.pending[1..])[h] + if s.pending[0] == h then 1 else 0
  {
    assert s.pending == [s.pending[0]] + s.pending[1..];
  }

  lemma CloseCallsMore(log: seq<Event>, e: Event, h: Id)
    ensures CloseCalls(log + [e], h) == CloseCalls(log, h) + if e == CloseCalled(h) then 1 else 0
  {
  }

  lemma {:induction false} CountedSend(s: State, step: Step, h: Id)
    requires Enabled(s, step) && Counted(s, h) && (step.Enter? || step.Exchange? || step.Post? || step.Init?)
    ensures Counted(Apply(s, step), h)
  {
    hide WantEndgame;
  }

  lemma {:induction false} CountedPacket(s: State, step: Step, h: Id)
    requires Enabled(s, step) && Counted(s, h) && (step.Poll? || step.Clear? || step.Call?)
    ensures Counted(Apply(s, step), h)
  {
    hide WantEndgame;
  }

  lemma {:induction false} CountedTake(s: State, h: Id)
    requires Enabled(s, Take) && Counted(s, h)
    ensures Counted(Apply(s, Take), h)
  {
    hide WantEndgame;
    PendingHead(s, h);
  }

  lemma {:induction false} CountedReturn(s: State, step: Step, h: Id)
    requires Enabled(s, step) && Counted(s, h) && step.Return?
    ensures Counted(Apply(s, step), h)
  {
  }

  lemma {:induction false} CountedClose(s: State, step: Step, h: Id)
    requires Enabled(s, step) && Counted(s, h) && step.Close?
    ensures Counted(Apply(s, step), h)
  {
  }

  lemma {:induction false} CountedEndgame(s: State, step: Step, h: Id)
    requires Enabled(s, step) && Counted(s, h) && (step.Endgame? || step.CloseReturn?)
    ensures Counted(Apply(s, step), h)
  {
    hide WantEndgame;
  }

  lemma {:induction false} CountedKept(s: State, step: Step, h: Id)
    requires Enabled(s, step) && Counted(s, h)
    ensures Counted(Apply(s, step), h)
  {
    hide Apply, Counted, Enabled;
    if step.Enter? || step.Exchange? || step.Post? || step.Init? {
      CountedSend(s, step, h);
    } else if step.Poll? || step.Clear? || step.Call? {
      CountedPacket(s, step, h);
    } else if step.Take? {
      CountedTake(s, h);
    } else if step.Return? {
      CountedReturn(s, step, h);
    } else if step.Close? {
      CountedClose(s, step, h);
    } else {
      CountedEndgame(s, step, h);
    }
  }

  /** The steps of senders. */
  lemma {:induction false} OrderedSend(s: State, step: Step, h: Id)
    requires Enabled(s, step) && Ordered(s, h) && !Late(s, step)
    requires step.Enter? || step.Exchange? || step.Post? || step.Init?
    ensures Ordered(Apply(s, step), h)
  {
    hide CloseCalls, WantEndgame;
    if step.Exchange? {
      CloseCallsMore(s.log, Sent(step.h), h);
    }
  }

  /** The steps of the loop around a callback. */
  lemma {:induction false} OrderedLoop(s: State, step: Step, h: Id)
    requires Enabled(s, step) && Counted(s, h) && Ordered(s, h)
    requires step.Poll? || step.Take? || step.Clear? || step.Call? || step.CloseReturn?
    ensures Ordered(Apply(s, step), h)
  {
    hide CloseCalls, WantEndgame;
    if step.Call? {
      CloseCallsMore(s.log, Called(s.phase.h), h);
    }
  }

  lemma {:induction false} OrderedClose(s: State, step: Step, h: Id)
    requires Enabled(s, step) && Counted(s, h) && Ordered(s, h)
    requires step.Return? || step.Close?
    ensures Ordered(Apply(s, step), h)
  {
    hide CloseCalls;
  }

  lemma {:induction false} OrderedEndgame(s: State, h: Id)
    requires Enabled(s, Endgame) && Counted(s, h) && Ordered(s, h) && Stacked(s)
    ensures Ordered(Apply(s, Endgame), h)
  {
    hide CloseCalls, WantEndgame, InFlight;
    assert s.endgames[0] in s.endgames;
    CloseCallsMore(s.log, CloseCalled(s.endgames[0]), h);
  }

  /** As long as no sender is late, handles are closed in order. */
  lemma {:induction false} OrderedKept(s: State, step: Step, h: Id)
    requires Enabled(s, step) && Counted(s, h) && Ordered(s, h) && Stacked(s) && !Late(s, step)
    ensures Ordered(Apply(s, step), h)
  {
    hide Apply, Counted, Ordered, Stacked, Enabled;
    if step.Endgame? {
      OrderedEndgame(s, h);
    } else if step.Return? || step.Close? {
      OrderedClose(s, step, h);
    } else if step.Enter? || step.Exchange? || step.Post? || step.Init? {
      OrderedSend(s, step, h);
    } else {
      OrderedLoop(s, step, h);
    }
  }

  lemma {:induction false} StackedPush(s: State, h: Id)
    requires Stacked(s) && h in s.handles
    ensures Stacked(WantEndgame(s, h))
  {
    var t := WantEndgame(s, h);
    if !s.handles[h].queued {
      forall i, j | 0 <= i < j < |t.endgames| ensures t.endgames[i] != t.endgames[j] {
        assert t.endgames[j] == s.endgames[j - 1] && t.endgames[j] in s.endgames;
      }
    }
  }

  lemma {:induction false} StackedPop(s: State)
    requires Stacked(s) && Enabled(s, Endgame)
    ensures Stacked(Apply(s, Endgame))
  {
    var t, k := Apply(s, Endgame), s.endgames[0];
    forall h: Id ensures h in t.endgames <==> Queued(t, h) {
      if h in s.endgames[1..] {
        var j :| 0 <= j < |s.endgames[1..]| && s.endgames[1..][j] == h;
        assert s.endgames[0] != s.endgames[j + 1];
      }
      assert h in s.endgames <==> h == k || h in s.endgames[1..];
    }
  }

  lemma {:induction false} StackedKept(s: State, step: Step)
    requires Enabled(s, step) && Stacked(s)
    requires step.Init? ==> !Queued(s, step.h)
    ensures Stacked(Apply(s, step))
  {
    match step {
      case Endgame => StackedPop(s);
      case Return => StackedPush(s.(phase := Between), s.phase.h);
      case Close(h) =>
        if !s.handles[h].closing {
          var t := s.(handles := s.handles[h := s.handles[h].(closing := true)]);
          assert forall k: Id :: Queued(t, k) <==> Queued(s, k);
          StackedPush(t, h);
        }
      case _ =>
        var t := Apply(s, step);
        assert forall k: Id :: Queued(t, k) <==> Queued(s, k);
    }
  }

  /** A handle that was heard of is heard of. */
  ghost predicate Carried(s: State, t: State, added: seq<Event>, h: Id) {
    && (h in s.handles ==>
          && h in t.handles
          && (s.handles[h].sent ==> t.handles[h].sent || t.phase == Calling(h))
          && (s.phase == Calling(h) ==> t.phase == Calling(h) || added == [Called(h)]))
    && (added == [Sent(h)] ==> h in t.handles && t.handles[h].sent)
  }

  lemma {:induction false} HeardOn(s: State, t: State, added: seq<Event>)
    requires Heard(s) && t.log == s.log + added && |added| <= 1 && forall h: Id :: Carried(s, t, added, h)
    ensures Heard(t)
  {
    forall i | 0 <= i < |t.log| && t.log[i].Sent? ensures HeardAt(t, i) {
      var h := t.log[i].h;
      assert Carried(s, t, added, h);
      if i < |s.log| {
        assert HeardAt(s, i);
        if added == [Called(h)] {
          assert t.log[|s.log|] == Called(h);
        }
        if j :| i < j < |s.log| && s.log[j] == Called(h) {
          assert t.log[j] == Called(h);
        }
      }
    }
  }

  /** What a step adds to the log. */
  function Added(s: State, step: Step): seq<Event>
    requires Enabled(s, step)
  {
    match step
    case Exchange(h) => [Sent(h)]
    case Call => [Called(s.phase.h)]
    case Endgame =>
      var h := s.endgames[0];
      if s.handles[h].closing && !s.handles[h].sent then [CloseCalled(h)] else []
    case _ => []
  }

  lemma {:induction false} ExchangeCarries(s: State, k: Id, h: Id)
    requires Enabled(s, Exchange(k))
    ensures var t := Apply(s, Exchange(k)); t.log == s.log + [Sent(k)] && Carried(s, t, [Sent(k)], h)
  {
    hide WantEndgame;
  }

  lemma {:induction false} SendCarries(s: State, step: Step, h: Id)
    requires Enabled(s, step) && (step.Init? || step.Enter? || step.Post? || step.Poll?)
    ensures Apply(s, step).log == s.log && Carried(s, Apply(s, step), [], h)
  {
    hide WantEndgame;
  }

  lemma {:induction false} LoopCarries(s: State, step: Step, h: Id)
    requires Enabled(s, step) && (step.Take? || step.Clear? || step.Call? || step.Endgame? || step.CloseReturn?)
    ensures Apply(s, step).log == s.log + Added(s, step) && Carried(s, Apply(s, step), Added(s, step), h)
  {
    hide WantEndgame;
  }

  lemma {:induction false} CloseCarries(s: State, step: Step, h: Id)
    requires Enabled(s, step) && (step.Return? || step.Close?)
    ensures Apply(s, step).log == s.log + Added(s, step) && Carried(s, Apply(s, step), Added(s, step), h)
  {
  }

  lemma {:induction false} StepCarries(s: State, step: Step, h: Id)
    requires Enabled(s, step)
    ensures Apply(s, step).log == s.log + Added(s, step) && Carried(s, Apply(s, step), Added(s, step), h)
    ensures |Added(s, step)| <= 1
  {
    hide Apply, Enabled, Carried;
    if step.Exchange? {
      ExchangeCarries(s, step.h, h);
    } else if step.Init? || step.Enter? || step.Post? || step.Poll? {
      SendCarries(s, step, h);
    } else if step.Return? || step.Close? {
      CloseCarries(s, step, h);
    } else {
      LoopCarries(s, step, h);
    }
  }

  lemma {:induction false} HeardKept(s: State, step: Step)
    requires Enabled(s, step) && Heard(s)
    ensures Heard(Apply(s, step))
  {
    hide Apply, Enabled, Heard, Carried, Added;
    forall h: Id ensures Carried(s, Apply(s, step), Added(s, step), h) {
      StepCarries(s, step, h);
    }
    StepCarries(s, step, 0);
    HeardOn(s, Apply(s, step), Added(s, step));
  }

  lemma {:induction false} InvKept(s: State, step: Step)
    requires Enabled(s, step) && Inv(s)
    ensures Inv(Apply(s, step))
  {
    hide Apply, Counted, Stacked, Heard;
    forall h: Id ensures Counted(Apply(s, step), h) {
      CountedKept(s, step, h);
    }
    StackedKept(s, step);
    HeardKept(s, step);
  }

  // ------------------------------------------------------------------------
  // Whole runs
  // ------------------------------------------------------------------------

  /** The steps lead from `s` to `t`. */
  ghost predicate Run(s: State, steps: seq<Step>, t: State)
    decreases |steps|
  {
    if steps == [] then s == t
    else Enabled(s, steps[0]) && Run(Apply(s, steps[0]), steps[1..], t)
  }

  lemma {:induction false} InvAlways(s: State, steps: seq<Step>, t: State)
    requires Inv(s) && Run(s, steps, t)
    ensures Inv(t)
    decreases |steps|
  {
    hide Inv, Apply;
    if steps == [] {
    } else {
      InvKept(s, steps[0]);
      InvAlways(Apply(s, steps[0]), steps[1..], t);
    }
  }

  lemma StartInv()
    ensures Inv(START) && forall h: Id :: Ordered(START, h)
  {
  }

  /** No sender is late. */
  ghost predicate Timely(s: State, steps: seq<Step>)
    decreases |steps|
  {
    steps != [] ==> Enabled(s, steps[0]) && !Late(s, steps[0]) && Timely(Apply(s, steps[0]), steps[1..])
  }

  lemma {:induction false} OrderedAlways(s: State, steps: seq<Step>, t: State, h: Id)
    requires Inv(s) && Ordered(s, h) && Run(s, steps, t) && Timely(s, steps)
    ensures Ordered(t, h)
    decreases |steps|
  {
    hide Apply, Counted, Ordered, Stacked, Heard, Enabled, Late;
    if steps != [] {
      InvKept(s, steps[0]);
      OrderedKept(s, steps[0], h);
      OrderedAlways(Apply(s, steps[0]), steps[1..], t, h);
    }
  }

  /** In every run the packets of a handle in flight, with senders that have set the flag and not posted yet, are as
      many as its flag says. */
  lemma {:induction false} OnePacket(steps: seq<Step>, t: State, h: Id)
    requires Run(START, steps, t) && h in t.handles
    ensures InFlight(t, h) == if t.handles[h].sent then 1 else 0
  {
    hide InFlight, Run;
    StartInv();
    InvAlways(START, steps, t);
    assert Counted(t, h);
  }

  /** In a run in which no sender is late the close callback is called at most once, and then the handle has no packet
      in flight, no callback, and no place on the stack. */
  lemma {:induction false} ClosedOnce(steps: seq<Step>, t: State, h: Id)
    requires Run(START, steps, t) && Timely(START, steps)
    ensures CloseCalls(t.log, h) <= 1
    ensures CloseCalls(t.log, h) == 1 <==> h in t.handles && t.handles[h].closed
    ensures CloseCalls(t.log, h) == 1 ==>
              InFlight(t, h) == 0 && !t.handles[h].sent && h !in t.endgames && !InCallback(t, h)
  {
    hide InFlight, CloseCalls, Run, Timely;
    StartInv();
    InvAlways(START, steps, t);
    OrderedAlways(START, steps, t, h);
    assert Counted(t, h);
    assert h in t.endgames <==> Queued(t, h);
  }

  // ------------------------------------------------------------------------
  // Late senders
  // ------------------------------------------------------------------------

  lemma {:induction false} RunOn(s: State, steps: seq<Step>, t: State, step: Step)
    requires Run(s, steps, t) && Enabled(t, step)
    ensures Run(s, steps + [step], Apply(t, step))
    decreases |steps|
  {
    hide Apply, Enabled;
    if steps == [] {
      assert (steps + [step])[1..] == [];
    } else {
      RunOn(Apply(s, steps[0]), steps[1..], t, step);
      assert (steps + [step])[1..] == steps[1..] + [step];
    }
  }

  lemma {:induction false} TimelyPart(s: State, steps: seq<Step>, i: nat)
    requires Timely(s, steps) && i <= |steps|
    ensures Timely(s, steps[..i])
    decreases |steps|
  {
    hide Apply, Enabled, Late;
    if i > 0 {
      TimelyPart(Apply(s, steps[0]), steps[1..], i - 1);
      assert steps[..i][1..] == steps[1..][..i - 1];
    }
  }

  /** A late sender leaves a packet in flight for a closed handle. */
  lemma {:induction false} LateBreaks(s: State, steps: seq<Step>, t: State, before: seq<Step>)
      returns (i: nat, u: State, h: Id)
    requires Run(START, before, s) && Run(s, steps, t) && !Timely(s, steps)
    ensures i <= |before + steps| && Run(START, (before + steps)[..i], u)
    ensures h in u.handles && u.handles[h].closed && InFlight(u, h) > 0
    decreases |steps|
  {
    hide Run, Apply, Enabled, Late, InFlight, Inv;
    RunStep(s, steps, t);
    var step, next := steps[0], Apply(s, steps[0]);
    RunOn(START, before, s, step);
    assert before + [step] == (before + steps)[..|before| + 1];
    if Late(s, step) {
      StartInv();
      InvAlways(START, before + [step], next);
      LateFlight(s, step);
      i, u, h := |before| + 1, next, step.h;
    } else {
      i, u, h := LateBreaks(next, steps[1..], t, before + [step]);
      assert before + [step] + steps[1..] == before + steps;
    }
  }

  lemma RunStep(s: State, steps: seq<Step>, t: State)
    requires Run(s, steps, t) && !Timely(s, steps)
    ensures steps != [] && Enabled(s, steps[0]) && Run(Apply(s, steps[0]), steps[1..], t)
    ensures !Late(s, steps[0]) ==> !Timely(Apply(s, steps[0]), steps[1..])
  {
  }

  lemma LateFlight(s: State, step: Step)
    requires Enabled(s, step) && Late(s, step) && Inv(Apply(s, step))
    ensures step.Exchange?
    ensures var t := Apply(s, step); step.h in t.handles && t.handles[step.h].closed && InFlight(t, step.h) > 0
  {
    hide InFlight, Stacked, Heard;
    assert Counted(Apply(s, step), step.h);
  }

  /** A closed handle never has a packet in flight, in a run, exactly when no sender in it is late. */
  lemma {:induction false} TimelyExact(steps: seq<Step>, t: State)
    requires Run(START, steps, t)
    ensures Timely(START, steps) <==>
            forall i: nat, u: State, h: Id ::
              i <= |steps| && Run(START, steps[..i], u) && h in u.handles && u.handles[h].closed ==>
                InFlight(u, h) == 0
  {
    hide Run, Timely, InFlight, CloseCalls, Stacked, Heard, InCallback;
    if Timely(START, steps) {
      forall i: nat, u: State, h: Id | i <= |steps| && Run(START, steps[..i], u) && h in u.handles
          && u.handles[h].closed ensures InFlight(u, h) == 0 {
        TimelyPart(START, steps, i);
        ClosedOnce(steps[..i], u, h);
      }
    } else {
      assert Run(START, [], START) by { NoSteps(); }
      var i, u, h := LateBreaks(START, steps, t, []);
      assert [] + steps == steps;
    }
  }

  lemma NoSteps()
    ensures Run(START, [], START)
  {
  }

  /** Nobody closes a handle while a sender is between the question whether it is closing and the exchange. */
  ghost predicate Careful(s: State, steps: seq<Step>)
    decreases |steps|
  {
    steps != [] ==>
      && Enabled(s, steps[0]) && (steps[0].Close? ==> steps[0].h !in s.entering)
      && Careful(Apply(s, steps[0]), steps[1..])
  }

  /** No sender is about to set the flag of a closing handle. */
  predicate EntersOpen(s: State, h: Id) {
    h in s.handles ==>
      (s.handles[h].closed ==> s.handles[h].closing) && (h in s.entering ==> !s.handles[h].closing)
  }

  lemma {:induction false} EntersOpenSend(s: State, step: Step, h: Id)
    requires Enabled(s, step) && EntersOpen(s, h) && (step.Init? || step.Enter? || step.Exchange? || step.Post?)
    ensures EntersOpen(Apply(s, step), h)
  {
    hide WantEndgame;
  }

  lemma {:induction false} EntersOpenClose(s: State, step: Step, h: Id)
    requires Enabled(s, step) && EntersOpen(s, h) && (step.Return? || step.Close?)
    requires step.Close? ==> step.h !in s.entering
    ensures EntersOpen(Apply(s, step), h)
  {
  }

  lemma {:induction false} EntersOpenLoop(s: State, step: Step, h: Id)
    requires Enabled(s, step) && EntersOpen(s, h)
    requires step.Poll? || step.Take? || step.Clear? || step.Call? || step.Endgame? || step.CloseReturn?
    ensures EntersOpen(Apply(s, step), h)
  {
    hide WantEndgame;
  }

  lemma {:induction false} EntersOpenKept(s: State, step: Step, h: Id)
    requires Enabled(s, step) && EntersOpen(s, h) && (step.Close? ==> step.h !in s.entering)
    ensures EntersOpen(Apply(s, step), h)
  {
    hide Apply, Enabled, EntersOpen;
    if step.Init? || step.Enter? || step.Exchange? || step.Post? {
      EntersOpenSend(s, step, h);
    } else if step.Return? || step.Close? {
      EntersOpenClose(s, step, h);
    } else {
      EntersOpenLoop(s, step, h);
    }
  }

  lemma NotLate(s: State, step: Step)
    requires Enabled(s, step) && forall h: Id :: EntersOpen(s, h)
    ensures !Late(s, step)
  {
    if step.Exchange? {
      assert EntersOpen(s, step.h);
    }
  }

  /** Then no sender is late. */
  lemma {:induction false} CarefulIsTimely(s: State, steps: seq<Step>)
    requires Careful(s, steps) && forall h: Id :: EntersOpen(s, h)
    ensures Timely(s, steps)
    decreases |steps|
  {
    hide Apply, Enabled, Late, EntersOpen;
    if steps != [] {
      NotLate(s, steps[0]);
      forall h: Id ensures EntersOpen(Apply(s, steps[0]), h) {
        EntersOpenKept(s, steps[0], h);
      }
      CarefulIsTimely(Apply(s, steps[0]), steps[1..]);
    }
  }

  /** The states of a run in which the closing of a handle overtakes a sender. */
  function Stage(h: Id, k: nat): State
    requires k <= 5
  {
    var none: multiset<Id> := multiset{};
    match k
    case 0 => START
    case 1 => State(map[h := Handle(false, false, false, false)], none, none, none, [], [], Between, [])
    case 2 => State(map[h := Handle(false, false, false, false)], multiset{h}, none, none, [], [], Between, [])
    case 3 => State(map[h := Handle(false, true, false, true)], multiset{h}, none, none, [], [h], Between, [])
    case 4 => State(map[h := Handle(false, true, true, false)], multiset{h}, none, none, [], [], Ending(h),
                    [CloseCalled(h)])
    case 5 => State(map[h := Handle(true, true, true, false)], none, multiset{h}, none, [], [], Ending(h),
                    [CloseCalled(h), Sent(h)])
  }

  lemma FirstStages(h: Id)
    ensures Enabled(Stage(h, 0), Init(h)) && Apply(Stage(h, 0), Init(h)) == Stage(h, 1)
    ensures Enabled(Stage(h, 1), Enter(h)) && Apply(Stage(h, 1), Enter(h)) == Stage(h, 2)
    ensures Enabled(Stage(h, 2), Close(h)) && Apply(Stage(h, 2), Close(h)) == Stage(h, 3)
  {
  }

  lemma StageFour(h: Id)
    ensures Enabled(Stage(h, 3), Endgame) && Apply(Stage(h, 3), Endgame) == Stage(h, 4)
  {
  }

  lemma StageFive(h: Id)
    ensures Enabled(Stage(h, 4), Exchange(h)) && Apply(Stage(h, 4), Exchange(h)) == Stage(h, 5)
  {
  }

  /** A sender that is overtaken by the closing of its handle: the close callback is called while its packet is yet to
      come. */
  lemma {:induction false} Overtaken(h: Id)
    ensures exists t :: Run(START, [Init(h), Enter(h), Close(h), Endgame, Exchange(h)], t)
                        && h in t.handles && t.handles[h].closed && InFlight(t, h) == 1
  {
    hide Run, Apply, Enabled;
    FirstStages(h);
    StageFour(h);
    StageFive(h);
    NoSteps();
    var r1: seq<Step> := [] + [Init(h)];
    var r2 := r1 + [Enter(h)];
    var r3 := r2 + [Close(h)];
    var r4 := r3 + [Endgame];
    var r5 := r4 + [Exchange(h)];
    RunOn(START, [], Stage(h, 0), Init(h));
    RunOn(START, r1, Stage(h, 1), Enter(h));
    RunOn(START, r2, Stage(h, 2), Close(h));
    RunOn(START, r3, Stage(h, 3), Endgame);
    RunOn(START, r4, Stage(h, 4), Exchange(h));
    assert r5 == [Init(h), Enter(h), Close(h), Endgame, Exchange(h)];
    assert Run(START, r5, Stage(h, 5));
  }

  // ------------------------------------------------------------------------
  // At rest
  // ------------------------------------------------------------------------

  /** Nothing is on its way, and the loop is between requests. */
  predicate AtRest(s: State) {
    && s.entering == multiset{} && s.posting == multiset{} && s.port == multiset{}
    && s.pending == [] && s.endgames == [] && s.phase.Between?
  }

  /** In every run: once nothing is on its way and the loop is between requests, every send has been followed by a
      callback that began after it. */
  lemma {:induction false} NoLostWakeup(steps: seq<Step>, t: State)
    requires Run(START, steps, t) && AtRest(t)
    ensures forall i :: 0 <= i < |t.log| && t.log[i].Sent? ==> exists j ::
              i < j < |t.log| && t.log[j] == Called(t.log[i].h)
  {
    hide Run;
    StartInv();
    InvAlways(START, steps, t);
    forall i | 0 <= i < |t.log| && t.log[i].Sent?
      ensures exists j :: i < j < |t.log| && t.log[j] == Called(t.log[i].h)
    {
      assert HeardAt(t, i) && Counted(t, t.log[i].h);
    }
  }

  /** And if no sender was late, every handle that was closed has had its close callback. */
  lemma {:induction false} ClosedAtRest(steps: seq<Step>, t: State, h: Id)
    requires Run(START, steps, t) && Timely(START, steps) && AtRest(t) && h in t.handles && t.handles[h].closing
    ensures t.handles[h].closed && CloseCalls(t.log, h) == 1
  {
    hide Run, Timely;
    StartInv();
    InvAlways(START, steps, t);
    OrderedAlways(START, steps, t, h);
    assert Counted(t, h) && (h in t.endgames <==> Queued(t, h));
  }

  // ------------------------------------------------------------------------
  // Every run comes to rest
  // ------------------------------------------------------------------------

  /** A step that brings in nothing new: the loop goes on, or a sender that has entered goes on. */
  predicate Quiet(step: Step) {
    !step.Init? && !step.Enter? && !step.Close?
  }

  /** Quiet steps that are still to be made at most. */
  function Work(s: State): nat {
    var phase := match s.phase
                 case Between => 0
                 case Ending(_) => 1
                 case Running(_) => 3
                 case Calling(_) => 4
                 case Clearing(_) => 5;
    9 * |s.entering| + 8 * |s.posting| + 7 * |s.port| + 6 * |s.pending| + 2 * |s.endgames| + phase
  }

  lemma {:induction false} SendWorks(s: State, step: Step)
    requires Enabled(s, step) && (step.Exchange? || step.Post? || step.Poll?)
    ensures Work(Apply(s, step)) < Work(s)
  {
    hide WantEndgame;
  }

  lemma {:induction false} LoopWorks(s: State, step: Step)
    requires Enabled(s, step) && Quiet(step) && !step.Exchange? && !step.Post? && !step.Poll?
    ensures Work(Apply(s, step)) < Work(s)
  {
  }

  lemma {:induction false} QuietWorks(s: State, step: Step)
    requires Enabled(s, step) && Quiet(step)
    ensures Work(Apply(s, step)) < Work(s)
  {
    hide Apply, Enabled, Work;
    if step.Exchange? || step.Post? || step.Poll? {
      SendWorks(s, step);
    } else {
      LoopWorks(s, step);
    }
  }

  /** Without new sends, closes and handles a run is no longer than the work that was left. */
  lemma {:induction false} QuietRunEnds(s: State, steps: seq<Step>, t: State)
    requires Run(s, steps, t) && forall i :: 0 <= i < |steps| ==> Quiet(steps[i])
    ensures |steps| <= Work(s) - Work(t)
    decreases |steps|
  {
    hide Apply, Work, Enabled;
    if steps == [] {
    } else {
      QuietWorks(s, steps[0]);
      QuietRunEnds(Apply(s, steps[0]), steps[1..], t);
    }
  }

  /** A state that is not at rest has a quiet step before it: the loop is never stuck while a packet or a closing
      handle is left to it, and otherwise a sender has still to go on. */
  lemma {:induction false} LoopGoesOn(steps: seq<Step>, t: State)
    requires Run(START, steps, t) && !AtRest(t)
    ensures exists step :: Quiet(step) && Enabled(t, step)
  {
    hide Run, Apply, Heard;
    StartInv();
    InvAlways(START, steps, t);
    var step: Step;
    match t.phase {
      case Clearing(h) =>
        assert Counted(t, h);
        step := Clear;
      case Calling(_) => step := Call;
      case Running(h) =>
        assert Counted(t, h);
        step := Return;
      case Ending(_) => step := CloseReturn;
      case Between =>
        if t.pending != [] {
          step := Take;
        } else if t.endgames != [] {
          assert t.endgames[0] in t.endgames && Queued(t, t.endgames[0]);
          step := Endgame;
        } else if t.port != multiset{} {
          var h :| h in t.port;
          step := Poll(h);
        } else if t.posting != multiset{} {
          var h :| h in t.posting;
          step := Post(h);
        } else {
          var h :| h in t.entering;
          assert Counted(t, h);
          step := Exchange(h);
        }
    }
    assert Quiet(step) && Enabled(t, step);
  }

  ghost predicate RestsAfter(t: State, more: seq<Step>, r: State) {
    Run(t, more, r) && (forall i :: 0 <= i < |more| ==> Quiet(more[i])) && AtRest(r)
  }

  /** Every run comes to rest: whatever has happened, quiet steps lead on to rest, and any quiet steps do so within the
      work that is left, since until then there is always another one to make. */
  lemma {:induction false} ComesToRest(steps: seq<Step>, t: State)
    requires Run(START, steps, t)
    ensures exists more, r :: RestsAfter(t, more, r) && |more| <= Work(t)
    decreases Work(t)
  {
    hide Apply, Enabled, Work;
    if AtRest(t) {
      assert RestsAfter(t, [], t);
    } else {
      LoopGoesOn(steps, t);
      var step :| Quiet(step) && Enabled(t, step);
      QuietWorks(t, step);
      RunOn(START, steps, t, step);
      ComesToRest(steps + [step], Apply(t, step));
      var more, r :| RestsAfter(Apply(t, step), more, r) && |more| <= Work(Apply(t, step));
      assert ([step] + more)[1..] == more;
      assert RestsAfter(t, [step] + more, r);
    }
  }
}
