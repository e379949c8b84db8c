/** Writing to a stream: requests, partial writes, callbacks, shutdown and close.
    Models the write path of ext/noderb_extension/libuv/src/unix/stream.c. */
module UvStream {
  import opened Bytes
  import opened Sequences

  /** A write request: `bufs[index..]` is still to be written. */
  datatype Req = Req(id: nat, bufs: seq<seq<byte>>, index: nat, failed: bool, cb: bool)

  /** A request that is over; its callback, if it has one, is made with this status. */
  datatype Done = Done(id: nat, ok: bool)

  /** The bytes of a request that are still to be written. */
  function Rest(r: Req): seq<byte>
    requires r.index <= |r.bufs|
  {
    Flat(r.bufs[r.index..])
  }

  function Sizes(queue: seq<Req>): nat
    requires forall r :: r in queue ==> r.index <= |r.bufs|
  {
    if queue == [] then 0 else |Rest(queue[0])| + Sizes(queue[1..])
  }

  // ------------------------------------------------------------------------
  // What holds of the queues
  // ------------------------------------------------------------------------

  /** What the file descriptor answers when bytes are offered to it. */
  datatype Answer = Took(n: nat) | Again | Error

  /** The bytes of request `id` were offered to the file descriptor. */
  datatype Try = Try(id: nat, offered: seq<byte>, answer: Answer)

  /** What was submitted as request `id`, whether with a callback, and what the file descriptor has taken of it; the
      requests that are over, the callbacks made, and what was offered to the file descriptor. */
  datatype History = History(submitted: seq<seq<byte>>, sent: seq<seq<byte>>, wire: seq<byte>, done: seq<Done>,
      wants: seq<bool>, called: seq<Done>, tries: seq<Try>)

  /** The requests for which the file descriptor has reported an error other than that it would block. */
  ghost function Refused(tries: seq<Try>): set<nat> {
    set i | 0 <= i < |tries| && tries[i].answer.Error? :: tries[i].id
  }

  /** The bytes that the file descriptor has taken. */
  ghost function Taken(tries: seq<Try>): seq<byte> {
    if tries == [] then []
    else
      var i := |tries| - 1;
      Taken(tries[..i])
      + if tries[i].answer.Took? && tries[i].answer.n <= |tries[i].offered| then tries[i].offered[..tries[i].answer.n]
        else []
  }

  /** Those of the requests that have a callback. */
  ghost function Wanted(done: seq<Done>, wants: seq<bool>): seq<Done> {
    if done == [] then []
    else
      var i := |done| - 1;
      Wanted(done[..i], wants) + if done[i].id < |wants| && wants[done[i].id] then [done[i]] else []
  }

  lemma RefusedMore(tries: seq<Try>, t: Try)
    ensures Refused(tries + [t]) == Refused(tries) + if t.answer.Error? then {t.id} else {}
  {
    var more := tries + [t];
    forall i | 0 <= i < |tries| && tries[i].answer.Error? ensures tries[i].id in Refused(more) {
      assert more[i] == tries[i];
    }
    if t.answer.Error? {
      assert more[|tries|] == t;
    }
  }

  lemma TakenMore(tries: seq<Try>, t: Try)
    requires t.answer.Took? ==> t.answer.n <= |t.offered|
    ensures Taken(tries + [t]) == Taken(tries) + if t.answer.Took? then t.offered[..t.answer.n] else []
  {
    assert (tries + [t])[..|tries|] == tries;
  }

  lemma WantedMore(done: seq<Done>, d: Done, wants: seq<bool>)
    ensures Wanted(done + [d], wants) == Wanted(done, wants) + if d.id < |wants| && wants[d.id] then [d] else []
  {
    assert (done + [d])[..|done|] == done;
  }

  lemma {:induction false} WantedSame(done: seq<Done>, wants: seq<bool>, b: bool)
    requires forall i :: 0 <= i < |done| ==> done[i].id < |wants|
    ensures Wanted(done, wants + [b]) == Wanted(done, wants)
  {
    if done == [] {
    } else {
      WantedSame(done[..|done| - 1], wants, b);
    }
  }

  /** Callbacks report failure for exactly those requests for which the file descriptor has reported an error; they are
      made for exactly the requests that are over and have one, but for those still `owed`; and what was taken is what
      the file descriptor took of what it was offered. */
  ghost predicate Told(completed: seq<Req>, queue: seq<Req>, h: History, owed: seq<Done>) {
    && |h.wants| == |h.submitted|
    && (forall i :: 0 <= i < |h.done| ==> (h.done[i].ok <==> h.done[i].id !in Refused(h.tries)))
    && (forall i :: 0 <= i < |completed| ==>
          && completed[i].id < |h.wants| && completed[i].cb == h.wants[completed[i].id]
          && (completed[i].failed <==> completed[i].id in Refused(h.tries)))
    && (forall i :: 0 <= i < |queue| ==>
          && queue[i].id < |h.wants| && queue[i].cb == h.wants[queue[i].id]
          && queue[i].id !in Refused(h.tries))
    && (forall k <- Refused(h.tries) :: k < |h.submitted|)
    && Wanted(h.done, h.wants) == h.called + owed
    && h.wire == Taken(h.tries)
  }

  /** The requests in the order of submission: those with a callback behind them, those that wait for it, those that
      wait to be written. */
  ghost predicate InOrder(completed: seq<Req>, queue: seq<Req>, h: History) {
    && |h.done| + |completed| + |queue| == |h.submitted| == |h.sent|
    && (forall i :: 0 <= i < |h.done| ==> h.done[i].id == i)
    && (forall i :: 0 <= i < |completed| ==> completed[i].id == |h.done| + i)
    && (forall i :: 0 <= i < |queue| ==> queue[i].id == |h.done| + |completed| + i)
  }

  /** No byte is lost, repeated or reordered: a queued request has sent exactly what it has not got left, and only
      the first one has begun; a request that is over has sent everything, or has failed and sent a beginning. */
  ghost predicate Conserved(completed: seq<Req>, queue: seq<Req>, h: History) {
    && |h.sent| == |h.submitted|
    && h.wire == Flat(h.sent)
    && (forall i :: 0 <= i < |h.sent| ==> h.sent[i] <= h.submitted[i])
    && (forall i :: 0 <= i < |queue| ==>
          && queue[i].index < |queue[i].bufs| && !queue[i].failed && queue[i].id < |h.sent|
          && h.sent[queue[i].id] + Rest(queue[i]) == h.submitted[queue[i].id]
          && (i > 0 ==> h.sent[queue[i].id] == []))
    && (forall i :: 0 <= i < |completed| && !completed[i].failed ==>
          completed[i].id < |h.sent| && h.sent[completed[i].id] == h.submitted[completed[i].id])
    && (forall i :: 0 <= i < |h.done| && h.done[i].ok ==>
          h.done[i].id < |h.sent| && h.sent[h.done[i].id] == h.submitted[h.done[i].id])
  }

  // ------------------------------------------------------------------------
  // Lemmas about the byte streams
  // ------------------------------------------------------------------------

  lemma {:induction false} FlatEmpty(parts: seq<seq<byte>>)
    requires forall i :: 0 <= i < |parts| ==> parts[i] == []
    ensures Flat(parts) == []
  {
    if parts == [] {
    } else {
      FlatEmpty(parts[1..]);
    }
  }

  /** Bytes of the first request that has not finished go to the end of the stream. */
  lemma {:induction false} SendMore(sent: seq<seq<byte>>, k: nat, bytes: seq<byte>)
    requires k < |sent| && forall i :: k < i < |sent| ==> sent[i] == []
    ensures Flat(sent[k := sent[k] + bytes]) == Flat(sent) + bytes
  {
    hide Flat;
    var before, after := sent[..k], sent[k + 1..];
    assert sent == before + [sent[k]] + after;
    assert sent[k := sent[k] + bytes] == before + [sent[k] + bytes] + after;
    FlatEmpty(after);
    FlatConcat(before + [sent[k]], after);
    FlatConcat(before, [sent[k]]);
    FlatConcat(before + [sent[k] + bytes], after);
    FlatConcat(before, [sent[k] + bytes]);
    FlatOne(sent[k]);
    FlatOne(sent[k] + bytes);
  }

  lemma {:induction false} SizesSnoc(queue: seq<Req>, r: Req)
    requires (forall q :: q in queue ==> q.index <= |q.bufs|) && r.index <= |r.bufs|
    ensures forall q :: q in queue + [r] ==> q.index <= |q.bufs|
    ensures Sizes(queue + [r]) == Sizes(queue) + |Rest(r)|
  {
    if queue != [] {
      SizesSnoc(queue[1..], r);
      assert (queue + [r])[1..] == queue[1..] + [r];
    } else {
      assert queue + [r] == [r];
      assert [r][1..] == [];
    }
  }

  lemma {:induction false} RestStep(r: Req)
    requires r.index < |r.bufs|
    ensures Rest(r) == r.bufs[r.index] + Rest(r.(index := r.index + 1))
    ensures forall n: nat {:trigger r.bufs[r.index][n..]} :: n <= |r.bufs[r.index]| ==>
              Rest(r.(bufs := r.bufs[r.index := r.bufs[r.index][n..]])) == Rest(r)[n..]
  {
    assert r.bufs[r.index..][1..] == r.bufs[r.index + 1..];
    forall n: nat | n <= |r.bufs[r.index]|
      ensures Rest(r.(bufs := r.bufs[r.index := r.bufs[r.index][n..]])) == Rest(r)[n..]
    {
      var bufs := r.bufs[r.index := r.bufs[r.index][n..]];
      FlatUnfold(bufs[r.index..]);
      assert bufs[r.index..][1..] == r.bufs[r.index + 1..];
    }
  }

  // ------------------------------------------------------------------------
  // The steps of the queues
  // ------------------------------------------------------------------------

  /** Some more bytes of the first request have been taken. */
  lemma {:induction false} ConservedSend(completed: seq<Req>, queue: seq<Req>, h: History, r: Req, taken: seq<byte>)
    requires InOrder(completed, queue, h) && Conserved(completed, queue, h) && queue != []
    requires r.id == queue[0].id && !r.failed && r.index < |r.bufs| && Rest(queue[0]) == taken + Rest(r)
    ensures var h' := h.(sent := h.sent[r.id := h.sent[r.id] + taken], wire := h.wire + taken);
            InOrder(completed, queue[0 := r], h') && Conserved(completed, queue[0 := r], h')
  {
    var k := r.id;
    forall i | k < i < |h.sent| ensures h.sent[i] == [] {
      assert queue[i - k].id == i;
    }
    SendMore(h.sent, k, taken);
    var h' := h.(sent := h.sent[k := h.sent[k] + taken], wire := h.wire + taken);
    hide Flat, Rest;
    assert h.sent[k] + (taken + Rest(r)) == h.sent[k] + taken + Rest(r);
    assert h'.sent[k] <= h'.submitted[k];
  }

  /** The first request is over: it has failed after sending `taken`, or has sent everything. */
  lemma {:induction false} ConservedFinish(completed: seq<Req>, queue: seq<Req>, h: History, r: Req, taken: seq<byte>)
    requires InOrder(completed, queue, h) && Conserved(completed, queue, h) && queue != []
    requires r.id == queue[0].id && taken <= Rest(queue[0]) && (!r.failed ==> taken == Rest(queue[0]))
    ensures var h' := h.(sent := h.sent[r.id := h.sent[r.id] + taken], wire := h.wire + taken);
            InOrder(completed + [r], queue[1..], h') && Conserved(completed + [r], queue[1..], h')
  {
    var k := r.id;
    forall i | k < i < |h.sent| ensures h.sent[i] == [] {
      assert queue[i - k].id == i;
    }
    SendMore(h.sent, k, taken);
    hide Flat, Rest;
    var h' := h.(sent := h.sent[k := h.sent[k] + taken], wire := h.wire + taken);
    assert h.sent[k] + Rest(queue[0]) == h.sent[k] + taken + Rest(queue[0])[|taken|..];
    assert h'.sent[k] <= h'.submitted[k];
    forall i | 0 <= i < |queue| - 1 ensures h'.sent[queue[1..][i].id] == [] {
      assert queue[i + 1].id != k;
    }
  }

  /** A new request joins the queue. */
  lemma {:induction false} ConservedSubmit(completed: seq<Req>, queue: seq<Req>, h: History, r: Req)
    requires InOrder(completed, queue, h) && Conserved(completed, queue, h)
    requires r.id == |h.submitted| && r.index == 0 < |r.bufs| && !r.failed
    ensures var h' := h.(submitted := h.submitted + [Flat(r.bufs)], sent := h.sent + [[]]);
            InOrder(completed, queue + [r], h') && Conserved(completed, queue + [r], h')
  {
    FlatSnoc(h.sent, []);
    assert r.bufs[0..] == r.bufs;
    assert Rest(r) == Flat(r.bufs);
    hide Flat, Rest;
    assert [] + Rest(r) == Rest(r);
  }

  /** The callback of the first completed request is made. */
  lemma {:induction false} ConservedCall(completed: seq<Req>, queue: seq<Req>, h: History)
    requires InOrder(completed, queue, h) && Conserved(completed, queue, h) && completed != []
    ensures var h' := h.(done := h.done + [Done(completed[0].id, !completed[0].failed)]);
            InOrder(completed[1..], queue, h') && Conserved(completed[1..], queue, h')
  {
    hide Flat, Rest;
  }

  /** The file descriptor has answered: the first request goes on, or is over. */
  lemma {:induction false} ToldTry(completed: seq<Req>, queue: seq<Req>, h: History, t: Try, r: Req, h': History)
    requires InOrder(completed, queue, h) && Told(completed, queue, h, []) && queue != []
    requires t.id == r.id == queue[0].id && r.cb == queue[0].cb && (r.failed <==> t.answer.Error?)
    requires t.answer.Took? ==> t.answer.n <= |t.offered|
    requires h' == h.(sent := h'.sent, wire := h.wire + (if t.answer.Took? then t.offered[..t.answer.n] else []),
                      tries := h.tries + [t])
    ensures Told(completed + [r], queue[1..], h', [])
    ensures !t.answer.Error? ==> Told(completed, queue[0 := r], h', [])
  {
    hide Refused, Taken, Wanted;
    RefusedMore(h.tries, t);
    TakenMore(h.tries, t);
    forall i | 0 < i < |queue| ensures queue[i].id != t.id {
      assert queue[i].id == |h.done| + |completed| + i;
    }
    forall i | 0 <= i < |completed| ensures completed[i].id != t.id {
      assert completed[i].id == |h.done| + i;
    }
    forall i | 0 <= i < |h.done| ensures h.done[i].id != t.id {
      assert h.done[i].id == i;
    }
  }

  lemma {:induction false} ToldSubmit(completed: seq<Req>, queue: seq<Req>, h: History, r: Req, h': History)
    requires InOrder(completed, queue, h) && Told(completed, queue, h, []) && r.id == |h.submitted|
    requires h' == h.(submitted := h'.submitted, sent := h'.sent, wants := h.wants + [r.cb])
    requires |h'.submitted| == |h.submitted| + 1
    ensures Told(completed, queue + [r], h', [])
  {
    hide Refused, Taken, Wanted;
    WantedSame(h.done, h.wants, r.cb);
  }

  lemma {:induction false} ToldCall(completed: seq<Req>, queue: seq<Req>, h: History)
    requires Told(completed, queue, h, []) && completed != []
    ensures var d := Done(completed[0].id, !completed[0].failed);
            Told(completed[1..], queue, h.(done := h.done + [d]), if completed[0].cb then [d] else [])
  {
    hide Refused, Taken, Wanted;
    WantedMore(h.done, Done(completed[0].id, !completed[0].failed), h.wants);
  }

  lemma ToldPaid(completed: seq<Req>, queue: seq<Req>, h: History, owed: seq<Done>)
    requires Told(completed, queue, h, owed)
    ensures Told(completed, queue, h.(called := h.called + owed), [])
  {
    hide Refused, Taken, Wanted;
    assert h.called + owed + [] == h.called + owed;
  }

  /** The file descriptor was offered the rest of `r`, once. */
  ghost predicate OfferedNext(h: History, h': History, r: Req)
    requires r.index <= |r.bufs|
  {
    && |h'.tries| == |h.tries| + 1 && h'.tries[..|h.tries|] == h.tries
    && h'.tries[|h.tries|].id == r.id && h'.tries[|h.tries|].offered == Rest(r)
  }

  /** What was offered does not matter to what was taken, nor do the callbacks. */
  lemma ConservedTries(completed: seq<Req>, queue: seq<Req>, h: History, h': History)
    requires InOrder(completed, queue, h) && Conserved(completed, queue, h) && h' == h.(tries := h'.tries)
    ensures InOrder(completed, queue, h') && Conserved(completed, queue, h')
  {
    hide Rest, Flat;
  }

  lemma CalledConserved(completed: seq<Req>, queue: seq<Req>, h: History, h': History)
    requires InOrder(completed, queue, h) && Conserved(completed, queue, h) && h' == h.(called := h'.called)
    ensures InOrder(completed, queue, h') && Conserved(completed, queue, h')
  {
    hide Rest, Flat;
  }

  lemma WantsConserved(completed: seq<Req>, queue: seq<Req>, h: History, wants: seq<bool>)
    requires InOrder(completed, queue, h) && Conserved(completed, queue, h)
    ensures InOrder(completed, queue, h.(wants := wants)) && Conserved(completed, queue, h.(wants := wants))
  {
    hide Rest, Flat;
  }

  lemma SentInOrder(completed: seq<Req>, queue: seq<Req>, h: History)
    requires Conserved(completed, queue, h)
    ensures |h.sent| == |h.submitted| && h.wire == Flat(h.sent)
    ensures forall i :: 0 <= i < |h.sent| ==> h.sent[i] <= h.submitted[i]
  {
  }

  lemma HeadFacts(completed: seq<Req>, queue: seq<Req>, h: History)
    requires InOrder(completed, queue, h) && Conserved(completed, queue, h) && queue != []
    ensures queue[0].index < |queue[0].bufs| && !queue[0].failed && queue[0].id < |h.sent|
  {
  }

  lemma AddNothing(h: History, k: nat)
    requires k < |h.sent|
    ensures h.(sent := h.sent[k := h.sent[k] + []], wire := h.wire + []) == h
  {
    assert h.sent[k] + [] == h.sent[k];
    assert h.sent[k := h.sent[k] + []] == h.sent;
    assert h.wire + [] == h.wire;
  }

  lemma AllOfIt(r: Req)
    requires r.index == 0
    ensures Rest(r) == Flat(r.bufs)
  {
    assert r.bufs[0..] == r.bufs;
  }

  lemma RestEnd(r: Req)
    requires r.index == |r.bufs|
    ensures Rest(r) == []
  {
  }

  /** Each shutdown was issued when every request so far was over; only the last one can have succeeded, and has if the
      stream is shut. */
  ghost predicate ShutInTime(shutdowns: seq<(nat, nat, bool)>, shut: bool) {
    && (forall p :: p in shutdowns ==> p.0 == p.1)
    && (forall i :: 0 <= i < |shutdowns| - 1 ==> !shutdowns[i].2)
    && (shut <==> shutdowns != [] && shutdowns[|shutdowns| - 1].2)
  }

  lemma NothingYet()
    ensures var h := History([], [], [], [], [], [], []);
            InOrder([], [], h) && Conserved([], [], h) && Told([], [], h, []) && Sizes([]) == 0
  {
    hide Rest, Refused, Taken, Wanted, Told;
    NothingTold();
  }

  lemma NothingTold()
    ensures Told([], [], History([], [], [], [], [], [], []), [])
  {
    hide Rest, Flat;
    assert Refused([]) == {};
    assert Taken([]) == [] && Wanted([], []) == [];
  }

  lemma {:induction false} RestBound(completed: seq<Req>, queue: seq<Req>, h: History)
    requires Conserved(completed, queue, h)
    ensures forall r :: r in queue ==> r.index <= |r.bufs|
  {
    hide Flat, Rest;
  }

  class Stream {
    var open: bool            // fd is not -1
    var writeQueue: seq<Req>
    var completed: seq<Req>   // write_completed_queue
    var writeQueueSize: int
    var watching: bool        // the write watcher is active
    var pending: bool         // an EV_WRITE event has been fed or is waiting to be delivered
    var shutting: bool
    var shut: bool
    var closing: bool
    var closed: bool
    var nextId: nat           // number of requests so far
    var credit: nat           // how many more writes the program will make from its callbacks

    ghost var delivering: bool  // an EV_WRITE event is being handled; its callbacks are still to be made
    ghost var h: History
    ghost var shutdowns: seq<(nat, nat, bool)>  // when shutdown was issued: requests submitted, over, and success

    ghost predicate Valid()
      reads this
    {
      Owing([])
    }

    /** All is well but for the callbacks that are owed. */
    ghost predicate Owing(owed: seq<Done>)
      reads this
    {
      && (open <==> !closing) && !closed && nextId == |h.submitted|
      && InOrder(completed, writeQueue, h)
      && Conserved(completed, writeQueue, h)
      && Told(completed, writeQueue, h, owed)
      && (forall r :: r in writeQueue ==> r.index <= |r.bufs|)
      && writeQueueSize == Sizes(writeQueue)
      && (open && (writeQueue != [] || (completed != [] && !delivering)) ==> watching || pending)
      && (closing ==> !watching)
      && ShutInTime(shutdowns, shut)
    }

    /** write and writev: the file descriptor takes any part of what it is offered, or nothing for now, or fails. */
    method WriteDescriptor(ghost id: nat, ghost offered: seq<byte>, size: nat) returns (n: int, again: bool)
      requires size == |offered|
      modifies this`h
      ensures n <= size
      ensures h == old(h).(tries := old(h).tries
                + [Try(id, offered, if n >= 0 then Took(n) else if again then Again else Error)])
    {
      n, again := *, *;
      n := if n <= size then n else size;
      h := h.(tries := h.tries + [Try(id, offered, if n >= 0 then Took(n) else if again then Again else Error)]);
    }

    /** uv__write_req_finish */
    method Finish(r: Req)
      requires writeQueue != []
      modifies this`writeQueue, this`completed, this`pending
      ensures writeQueue == old(writeQueue)[1..] && completed == old(completed) + [r] && pending
    {
      writeQueue := writeQueue[1..];
      completed := completed + [r];
      pending := true;
    }

    /** uv__write: offers the rest of the first request to the file descriptor, once. A request that is taken whole, or
        for which the file descriptor reports an error, is over; else what is left of it stays, and the write watcher
        runs. */
    method TryWrite()
      requires open && InOrder(completed, writeQueue, h) && Conserved(completed, writeQueue, h)
      requires Told(completed, writeQueue, h, [])
      requires (forall r :: r in writeQueue ==> r.index <= |r.bufs|) && writeQueueSize == Sizes(writeQueue)
      modifies this`writeQueue, this`completed, this`writeQueueSize, this`watching, this`pending, this`h
      ensures InOrder(completed, writeQueue, h) && Conserved(completed, writeQueue, h)
      ensures Told(completed, writeQueue, h, [])
      ensures (forall r :: r in writeQueue ==> r.index <= |r.bufs|) && writeQueueSize == Sizes(writeQueue)
      ensures h == old(h).(sent := h.sent, wire := h.wire, tries := h.tries)
      ensures old(completed) <= completed && old(h.wire) <= h.wire && old(h.tries) <= h.tries
      ensures old(writeQueue) == [] ==>
                && writeQueue == [] && completed == old(completed)
                && watching == old(watching) && pending == old(pending)
                && h == old(h)
      ensures old(writeQueue) != [] ==>
                && old(writeQueue)[0].index <= |old(writeQueue)[0].bufs|
                && OfferedNext(old(h), h, old(writeQueue)[0])
                && var head, answer := old(writeQueue)[0], h.tries[|h.tries| - 1].answer;
                   if answer.Error? then
                     && h.wire == old(h).wire && pending && watching == old(watching)
                     && writeQueue == old(writeQueue)[1..] && completed == old(completed) + [head.(failed := true)]
                   else if answer.Again? then
                     && h.wire == old(h).wire && watching && pending == old(pending)
                     && writeQueue == old(writeQueue) && completed == old(completed)
                   else
                     && answer.n <= |Rest(head)| && h.wire == old(h).wire + Rest(head)[..answer.n]
                     && if answer.n == |Rest(head)| then
                          && pending && watching == old(watching) && writeQueue == old(writeQueue)[1..]
                          && |completed| == |old(completed)| + 1 && completed[..|completed| - 1] == old(completed)
                          && completed[|completed| - 1].id == head.id && !completed[|completed| - 1].failed
                        else
                          && watching && pending == old(pending) && completed == old(completed)
                          && |writeQueue| == |old(writeQueue)| && writeQueue[1..] == old(writeQueue)[1..]
                          && writeQueue[0].id == head.id && writeQueue[0].index <= |writeQueue[0].bufs|
                          && Rest(writeQueue[0]) == Rest(head)[answer.n..]
    {
      hide InOrder, Conserved, Flat, Rest, Told, Refused, Taken;
      if writeQueue == [] {
        assert writeQueueSize == 0;
        return;
      }
      var r := writeQueue[0];
      ghost var was, h0 := r, h;
      HeadFacts(completed, writeQueue, h);
      var n, again := WriteDescriptor(r.id, Rest(r), |Rest(r)|);
      ghost var t := h.tries[|h.tries| - 1];
      ConservedTries(completed, writeQueue, h0, h);
      if n < 0 {
        if !again {
          writeQueueSize := writeQueueSize - |Rest(r)|;
          r := r.(failed := true);
          ConservedFinish(completed, writeQueue, h, r, []);
          AddNothing(h, r.id);
          assert h0.wire + [] == h0.wire;
          ToldTry(completed, writeQueue, h0, t, r, h);
          Finish(r);
          return;
        }
        assert h0.wire + [] == h0.wire && writeQueue[0 := r] == writeQueue;
        ToldTry(completed, writeQueue, h0, t, r, h);
      } else {
        ghost var all, total, h1 := Rest(r), n, h;
        while true
          invariant 0 <= n <= total <= |all|
          invariant r.index < |r.bufs| && r.id == was.id && r.cb == was.cb && !r.failed && Rest(r) == all[total - n..]
          invariant writeQueueSize == old(writeQueueSize) - (total - n)
          invariant completed == old(completed) && writeQueue == old(writeQueue) && h == h1
          invariant pending == old(pending) && watching == old(watching)
          decreases |r.bufs| - r.index
        {
          var len := |r.bufs[r.index]|;
          RestStep(r);
          if n < len {
            assert Rest(r.(bufs := r.bufs[r.index := r.bufs[r.index][n..]])) == Rest(r)[n..];
            r := r.(bufs := r.bufs[r.index := r.bufs[r.index][n..]]);
            writeQueueSize := writeQueueSize - n;
            n := 0;
            break;
          }
          r := r.(index := r.index + 1);
          n := n - len;
          writeQueueSize := writeQueueSize - len;
          if r.index == |r.bufs| {
            RestEnd(r);
            assert n == 0 && total == |all|;
            assert all[..total] == all;
            ConservedFinish(completed, writeQueue, h, r, all);
            h := h.(sent := h.sent[r.id := h.sent[r.id] + all], wire := h.wire + all);
            ToldTry(completed, writeQueue, h0, t, r, h);
            Finish(r);
            return;
          }
        }
        ConservedSend(completed, writeQueue, h, r, all[..total]);
        h := h.(sent := h.sent[r.id := h.sent[r.id] + all[..total]], wire := h.wire + all[..total]);
        ToldTry(completed, writeQueue, h0, t, r, h);
        writeQueue := writeQueue[0 := r];
      }
      watching := true;
    }

    constructor (credit: nat)
      ensures Valid() && open && h == History([], [], [], [], [], [], []) && writeQueue == [] && completed == []
      ensures !shutting && !shut && !delivering && this.credit == credit
    {
      hide InOrder, Conserved, Told, Sizes;
      open, writeQueue, completed, writeQueueSize := true, [], [], 0;
      watching, pending, shutting, shut, closing, closed := false, false, false, false, false, false;
      nextId, this.credit := 0, credit;
      h, shutdowns, delivering := History([], [], [], [], [], [], []), [], false;
      new;
      NothingYet();
    }

    /** uv_write: queues the buffers and, if nothing was waiting, tries to write at once. */
    method Write(bufs: seq<seq<byte>>, cb: bool) returns (status: int)
      requires Valid() && |bufs| > 0
      modifies this`writeQueue, this`completed, this`writeQueueSize, this`watching, this`pending, this`nextId, this`h
      ensures Valid()
      ensures !open ==> status == -1 && writeQueue == old(writeQueue) && completed == old(completed) && h == old(h)
      ensures open ==> status == 0 && h.submitted == old(h.submitted) + [Flat(bufs)] && h.wants == old(h.wants) + [cb]
      ensures h.done == old(h.done) && h.called == old(h.called) && old(h.wire) <= h.wire && old(completed) <= completed
      ensures old(h.tries) <= h.tries
      ensures open && old(writeQueueSize) == 0 ==>
                && |h.tries| == |old(h.tries)| + 1
                && h.tries[|h.tries| - 1].id ==
                   if old(writeQueue) == [] then |old(h.submitted)| else old(writeQueue)[0].id
      ensures open && old(writeQueueSize) != 0 ==> h.tries == old(h.tries) && watching
    {
      hide InOrder, Conserved, Flat, Rest, Sizes, Told, ShutInTime;
      if !open {
        return -1;
      }
      var emptyQueue := writeQueueSize == 0;
      var r := Req(nextId, bufs, 0, false, cb);
      nextId := nextId + 1;
      ConservedSubmit(completed, writeQueue, h, r);
      SizesSnoc(writeQueue, r);
      AllOfIt(r);
      writeQueueSize := writeQueueSize + |Flat(bufs)|;
      writeQueue := writeQueue + [r];
      ghost var h0, h1 := h, h.(submitted := h.submitted + [Flat(bufs)], sent := h.sent + [[]]);
      WantsConserved(completed, writeQueue, h1, h.wants + [cb]);
      ToldSubmit(completed, writeQueue[..|writeQueue| - 1], h, r, h1.(wants := h.wants + [cb]));
      assert writeQueue[..|writeQueue| - 1] + [r] == writeQueue;
      h := h1.(wants := h.wants + [cb]);
      if emptyQueue {
        assert writeQueue[0].id == if old(writeQueue) == [] then |h0.submitted| else old(writeQueue)[0].id;
        TryWrite();
      } else {
        watching := true;
      }
      status := 0;
    }

    /** uv_shutdown */
    method Shutdown() returns (status: int)
      requires Valid()
      modifies this`shutting, this`watching
      ensures Valid()
      ensures status == (if shut || closing then -1 else 0)
      ensures if status == 0 then shutting && watching else shutting == old(shutting) && watching == old(watching)
    {
      hide InOrder, Conserved, Told, Sizes, ShutInTime;
      if shut || closing {
        return -1;
      }
      shutting := true;
      watching := true;
      status := 0;
    }

    /** The part of uv_close for streams. */
    method Close()
      requires Valid() && open
      modifies this`watching, this`pending, this`open, this`closing
      ensures Valid() && !open && closing && !watching
    {
      hide InOrder, Conserved, Told, Sizes, ShutInTime;
      watching, pending := false, false;
      open := false;
      closing := true;
    }

    /** One call by the program, of any kind. */
    method OneCall()
      requires Valid()
      modifies this
      ensures Valid() && h.done == old(h.done) && old(h.submitted) <= h.submitted && old(h.wire) <= h.wire
      ensures h.called == old(h.called) && old(h.tries) <= h.tries
      ensures shut == old(shut) && shutdowns == old(shutdowns) && delivering == old(delivering)
      ensures old(closing) ==>
                closing && h == old(h) && writeQueue == old(writeQueue) && completed == old(completed)
      ensures old(completed) <= completed
      ensures credit < old(credit) || (credit == old(credit) && completed == old(completed))
    {
      hide InOrder, Conserved, Flat, Rest, Sizes, Told, ShutInTime;
      var what: int := *;
      if what == 0 && credit > 0 {
        var bufs: seq<seq<byte>> := *;
        var cb: bool := *;
        if |bufs| > 0 {
          credit := credit - 1;
          var status := Write(bufs, cb);
        }
      } else if what == 1 {
        var status := Shutdown();
      } else if what == 2 && open {
        Close();
      }
    }

    /** The program is called, with the callback that is owed, if one is: it writes, shuts down and closes at will. */
    method UserCode(ghost owed: seq<Done>)
      requires Owing(owed)
      modifies this
      ensures Valid() && h.done == old(h.done) && old(h.submitted) <= h.submitted && old(h.wire) <= h.wire
      ensures h.called == old(h.called) + owed && old(h.tries) <= h.tries
      ensures shut == old(shut) && shutdowns == old(shutdowns) && delivering == old(delivering)
      ensures old(closing) ==>
                && closing && h == old(h).(called := h.called)
                && writeQueue == old(writeQueue) && completed == old(completed)
      ensures old(completed) <= completed
      ensures credit < old(credit) || (credit == old(credit) && completed == old(completed))
    {
      hide InOrder, Conserved, Flat, Rest, Sizes, Told, ShutInTime;
      ghost var h0 := h;
      h := h.(called := h.called + owed);
      ToldPaid(completed, writeQueue, h0, owed);
      CalledConserved(completed, writeQueue, h0, h);
      var steps: int := *;
      for i := 0 to if steps < 0 then 0 else steps
        invariant Valid() && h.done == old(h.done) && old(h.submitted) <= h.submitted && old(h.wire) <= h.wire
        invariant h.called == old(h.called) + owed && old(h.tries) <= h.tries
        invariant shut == old(shut) && shutdowns == old(shutdowns) && delivering == old(delivering)
        invariant old(closing) ==>
                    && closing && h == old(h).(called := h.called)
                    && writeQueue == old(writeQueue) && completed == old(completed)
        invariant old(completed) <= completed
        invariant credit < old(credit) || (credit == old(credit) && completed == old(completed))
      {
        OneCall();
      }
    }

    /** No event is asked for, and no shutdown is wanted that has not been made. */
    ghost predicate AtRest()
      reads this
    {
      !watching && !pending && !(shutting && !closing && !shut)
    }

    /** uv__drain: nothing is left to write; this is when shutdown is issued. */
    method Drain()
      requires Valid() && writeQueue == [] && completed == [] && !delivering
      modifies this
      ensures Valid() && !delivering && h.done == old(h.done) && old(h.submitted) <= h.submitted
              && old(h.wire) <= h.wire
      ensures if old(shutting && !closing && !shut) then
                shutdowns == old(shutdowns) + [(|old(h.submitted)|, |old(h.done)|, shut)]
              else shutdowns == old(shutdowns) && shut == old(shut)
      ensures old(h.called) <= h.called && old(h.tries) <= h.tries
      ensures !old(shutting && !closing && !shut) ==>
                AtRest() && h == old(h) && writeQueue == [] && completed == []
    {
      hide Conserved, Flat, Rest, Told;
      assert writeQueueSize == 0;
      watching, pending := false, false;
      if shutting && !closing && !shut {
        var failed: bool := *;
        shutdowns := shutdowns + [(|h.submitted|, |h.done|, !failed)];
        if !failed {
          shut := true;
        }
        hide InOrder;
        UserCode([]);
      }
    }

    /** uv__write_callbacks: makes the callbacks of all completed requests, in order. */
    method WriteCallbacks()
      requires Valid() && delivering
      modifies this
      ensures Valid() && !delivering
      ensures old(h.done) <= h.done && old(h.submitted) <= h.submitted && old(h.wire) <= h.wire
              && old(shutdowns) <= shutdowns
      ensures |h.done| >= |old(h.done)| + |old(completed)|
      ensures old(h.called) <= h.called && old(h.tries) <= h.tries
      ensures writeQueue == [] ==> AtRest() || shutdowns != old(shutdowns)
    {
      hide InOrder, Conserved, Flat, Rest, Sizes, Told, ShutInTime;
      while completed != []
        invariant Valid() && delivering && shutdowns == old(shutdowns)
        invariant old(h.called) <= h.called && old(h.tries) <= h.tries
        invariant old(h.done) <= h.done && old(h.submitted) <= h.submitted && old(h.wire) <= h.wire
        invariant |h.done| + |completed| >= |old(h.done)| + |old(completed)|
        decreases credit, |completed|
      {
        var r := completed[0];
        ConservedCall(completed, writeQueue, h);
        ToldCall(completed, writeQueue, h);
        completed := completed[1..];
        h := h.(done := h.done + [Done(r.id, !r.failed)]);
        if r.cb {
          UserCode([Done(r.id, !r.failed)]);
        }
      }
      delivering := false;
      if writeQueue == [] {
        Drain();
      }
    }

    /** uv__stream_io for a write event: writes once and makes the callbacks. */
    method WriteEvent()
      requires Valid() && open && !delivering && (watching || pending)
      modifies this
      ensures Valid() && !delivering
      ensures old(h.done) <= h.done && old(h.submitted) <= h.submitted && old(h.wire) <= h.wire
              && old(shutdowns) <= shutdowns
      ensures |h.done| >= |old(h.done)| + |old(completed)| && old(h.called) <= h.called && old(h.tries) <= h.tries
      ensures old(writeQueue) != [] ==>
                && |h.tries| > |old(h.tries)| && h.tries[|old(h.tries)|].id == old(writeQueue)[0].id
                && old(writeQueue)[0].index <= |old(writeQueue)[0].bufs|
                && h.tries[|old(h.tries)|].offered == Rest(old(writeQueue)[0])
      ensures writeQueue == [] ==> AtRest() || shutdowns != old(shutdowns)
    {
      hide InOrder, Conserved, Flat, Rest, Sizes, Told, ShutInTime;
      pending := false;  // the event is delivered
      delivering := true;
      TryWrite();
      WriteCallbacks();
    }

    /** The requests that are still queued fail. */
    method FailQueued()
      requires forall i :: 0 <= i < |writeQueue| ==>
                 writeQueue[i].id < |h.wants| && writeQueue[i].cb == h.wants[writeQueue[i].id]
      requires h.called == Wanted(h.done, h.wants)
      modifies this`writeQueue, this`h
      ensures writeQueue == [] && h == old(h).(done := old(h).done + Failures(old(writeQueue)), called := h.called)
      ensures h.called == Wanted(h.done, h.wants)
    {
      hide Wanted;
      ghost var queue := writeQueue;
      while writeQueue != []
        invariant h == old(h).(done := h.done, called := h.called)
        invariant h.done + Failures(writeQueue) == old(h.done) + Failures(queue)
        invariant forall i :: 0 <= i < |writeQueue| ==>
                    writeQueue[i].id < |h.wants| && writeQueue[i].cb == h.wants[writeQueue[i].id]
        invariant h.called == Wanted(h.done, h.wants)
        decreases |writeQueue|
      {
        var r := writeQueue[0];
        WantedMore(h.done, Done(r.id, false), h.wants);
        assert Failures(writeQueue) == [Done(r.id, false)] + Failures(writeQueue[1..]);
        writeQueue := writeQueue[1..];
        h := h.(done := h.done + [Done(r.id, false)]);
        if r.cb {
          CallClosed(Done(r.id, false));
        }
      }
    }

    /** The requests that are over get their callbacks. */
    method CallCompleted()
      requires forall i :: 0 <= i < |completed| ==>
                 completed[i].id < |h.wants| && completed[i].cb == h.wants[completed[i].id]
      requires h.called == Wanted(h.done, h.wants)
      modifies this`completed, this`h
      ensures completed == [] && h == old(h).(done := old(h).done + Results(old(completed)), called := h.called)
      ensures h.called == Wanted(h.done, h.wants)
    {
      hide Wanted;
      ghost var over := completed;
      while completed != []
        invariant h == old(h).(done := h.done, called := h.called)
        invariant h.done + Results(completed) == old(h.done) + Results(over)
        invariant forall i :: 0 <= i < |completed| ==>
                    completed[i].id < |h.wants| && completed[i].cb == h.wants[completed[i].id]
        invariant h.called == Wanted(h.done, h.wants)
        decreases |completed|
      {
        var r := completed[0];
        WantedMore(h.done, Done(r.id, !r.failed), h.wants);
        assert Results(completed) == [Done(r.id, !r.failed)] + Results(completed[1..]);
        completed := completed[1..];
        h := h.(done := h.done + [Done(r.id, !r.failed)]);
        if r.cb {
          CallClosed(Done(r.id, !r.failed));
        }
      }
    }

    /** uv__stream_destroy, in the turn of the loop after Close: every request that is left gets its callback. */
    method Destroy()
      requires Valid() && closing && !delivering
      modifies this
      ensures closed && !open && writeQueue == [] && completed == []
      ensures h == old(h).(done := h.done, called := h.called)
      ensures h.done == old(h.done) + Failures(old(writeQueue)) + Results(old(completed))
      ensures h.called == Wanted(h.done, h.wants)
    {
      hide InOrder, Conserved, Flat, Rest, Sizes, Refused, Taken, Wanted, Failures, Results;
      assert h.called == Wanted(h.done, h.wants) by { assert h.called + [] == h.called; }
      FailQueued();
      CallCompleted();
      closed := true;
    }

    /** A callback after the close. It cannot change the stream any more: writing to it and shutting it down fail at
        once. */
    method CallClosed(ghost d: Done)
      modifies this`h
      ensures h == old(h).(called := old(h).called + [d])
    {
      h := h.(called := h.called + [d]);
    }
  }

  // ------------------------------------------------------------------------
  // What the invariants say over a whole run
  // ------------------------------------------------------------------------

  function Failures(queue: seq<Req>): seq<Done> {
    seq(|queue|, i requires 0 <= i < |queue| => Done(queue[i].id, false))
  }

  function Results(completed: seq<Req>): seq<Done> {
    seq(|completed|, i requires 0 <= i < |completed| => Done(completed[i].id, !completed[i].failed))
  }

  /** When a stream is closed at any moment of a run, every accepted request ends up with exactly one callback. The ones
      made before the close were made in the order of submission. */
  lemma {:induction false} OneCallbackEach(completed: seq<Req>, queue: seq<Req>, h: History)
    requires InOrder(completed, queue, h)
    ensures var all := h.done + Failures(queue) + Results(completed);
            && |all| == |h.submitted|
            && (forall i :: 0 <= i < |all| ==> 0 <= all[i].id < |h.submitted|)
            && (forall i, j :: 0 <= i < j < |all| ==> all[i].id != all[j].id)
    ensures forall i :: 0 <= i < |h.done| ==> h.done[i].id == i
  {
    var all := h.done + Failures(queue) + Results(completed);
    var d, q, c := |h.done|, |queue|, |completed|;
    assert forall i :: 0 <= i < |all| ==>
      all[i].id == if i < d then i else if i < d + q then i + c else i - q;
  }

  /** A callback that reports success is made only for a request whose bytes have all been taken. */
  lemma {:induction false} SuccessMeansSent(completed: seq<Req>, queue: seq<Req>, h: History, d: Done)
    requires InOrder(completed, queue, h) && Conserved(completed, queue, h)
    requires d in h.done + Failures(queue) + Results(completed) && d.ok
    ensures d.id < |h.sent| && h.sent[d.id] == h.submitted[d.id]
  {
    hide Flat, Rest;
    var all := h.done + Failures(queue) + Results(completed);
    var n, q := |h.done|, |queue|;
    assert forall i :: n <= i < n + q ==> !all[i].ok;
    var i :| 0 <= i < |all| && all[i] == d;
    if i < n {
      assert h.done[i] == d;
    } else {
      assert Results(completed)[i - n - q] == d;
      assert !completed[i - n - q].failed;
    }
  }

  /** The bytes of requests among the first k that were not taken. */
  function Dropped(h: History, k: nat): nat
    requires k <= |h.submitted| == |h.sent| && forall i :: 0 <= i < k ==> |h.sent[i]| <= |h.submitted[i]|
  {
    if k == 0 then 0 else Dropped(h, k - 1) + |h.submitted[k - 1]| - |h.sent[k - 1]|
  }

  /** Bytes submitted = bytes taken by the file descriptor + bytes dropped with failed requests + bytes still queued. */
  lemma {:induction false} ByteBalance(completed: seq<Req>, queue: seq<Req>, h: History)
    requires InOrder(completed, queue, h) && Conserved(completed, queue, h)
    ensures forall r :: r in queue ==> r.index <= |r.bufs|
    ensures |Flat(h.submitted)| == |h.wire| + Dropped(h, |h.done| + |completed|) + Sizes(queue)
  {
    hide Flat, Sizes, Conserved, InOrder, Dropped, Rest;
    var k := |h.done| + |completed|;
    RestBound(completed, queue, h);
    SentInOrder(completed, queue, h);
    OrderSizes(completed, queue, h);
    SentAndDropped(h, k);
    QueuedBytes(completed, queue, h, k, 0);
    assert h.submitted == h.submitted[..k] + h.submitted[k + 0..];
    assert h.sent == h.sent[..k] + h.sent[k + 0..];
    FlatConcat(h.submitted[..k], h.submitted[k + 0..]);
    FlatConcat(h.sent[..k], h.sent[k + 0..]);
    assert queue[0..] == queue;
  }

  lemma OrderSizes(completed: seq<Req>, queue: seq<Req>, h: History)
    requires InOrder(completed, queue, h)
    ensures |h.done| + |completed| + |queue| == |h.submitted|
  {
  }

  lemma {:induction false} SentAndDropped(h: History, k: nat)
    requires k <= |h.submitted| == |h.sent| && forall i :: 0 <= i < |h.sent| ==> h.sent[i] <= h.submitted[i]
    ensures |Flat(h.submitted[..k])| == |Flat(h.sent[..k])| + Dropped(h, k)
  {
    if k == 0 {
    } else {
      SentAndDropped(h, k - 1);
      hide Flat;
      assert h.submitted[..k] == h.submitted[..k - 1] + [h.submitted[k - 1]];
      assert h.sent[..k] == h.sent[..k - 1] + [h.sent[k - 1]];
      FlatSnoc(h.submitted[..k - 1], h.submitted[k - 1]);
      FlatSnoc(h.sent[..k - 1], h.sent[k - 1]);
    }
  }

  lemma {:induction false} QueuedBytes(completed: seq<Req>, queue: seq<Req>, h: History, k: nat, i: nat)
    requires InOrder(completed, queue, h) && Conserved(completed, queue, h)
    requires k == |h.done| + |completed| && i <= |queue|
    requires forall r :: r in queue ==> r.index <= |r.bufs|
    ensures |Flat(h.submitted[k + i..])| == |Flat(h.sent[k + i..])| + Sizes(queue[i..])
    decreases |queue| - i
  {
    hide Flat, Sizes, Conserved, InOrder, Rest;
    OrderSizes(completed, queue, h);
    QueuedSizes(completed, queue, h);
    FlatUnfold(h.submitted[k + i..]);
    FlatUnfold(h.sent[k + i..]);
    SizesUnfold(queue[i..]);
    if i < |queue| {
      QueuedBytes(completed, queue, h, k, i + 1);
      QueuedAt(completed, queue, h, i);
      assert queue[i..][1..] == queue[i + 1..];
      assert h.submitted[k + i..][1..] == h.submitted[k + (i + 1)..];
      assert h.sent[k + i..][1..] == h.sent[k + (i + 1)..];
    }
  }

  lemma SizesUnfold(queue: seq<Req>)
    requires forall r :: r in queue ==> r.index <= |r.bufs|
    ensures queue == [] ==> Sizes(queue) == 0
    ensures queue != [] ==> Sizes(queue) == |Rest(queue[0])| + Sizes(queue[1..])
  {
  }

  lemma QueuedSizes(completed: seq<Req>, queue: seq<Req>, h: History)
    requires Conserved(completed, queue, h)
    ensures |h.sent| == |h.submitted|
  {
  }

  lemma QueuedAt(completed: seq<Req>, queue: seq<Req>, h: History, i: nat)
    requires InOrder(completed, queue, h) && Conserved(completed, queue, h) && i < |queue|
    ensures |h.done| + |completed| + i < |h.sent| == |h.submitted| && queue[i].index <= |queue[i].bufs|
    ensures h.sent[|h.done| + |completed| + i] + Rest(queue[i]) == h.submitted[|h.done| + |completed| + i]
  {
  }

  lemma {:induction false} DroppedSame(h: History, g: History, k: nat)
    requires h.submitted == g.submitted && h.sent == g.sent
    requires k <= |h.submitted| == |h.sent| && forall i :: 0 <= i < k ==> |h.sent[i]| <= |h.submitted[i]|
    ensures Dropped(h, k) == Dropped(g, k)
  {
    if k == 0 {
    } else {
      DroppedSame(h, g, k - 1);
    }
  }

  /** A callback reports failure exactly if the file descriptor reported an error for its request, or the request was
      still queued at the close. */
  lemma {:induction false} FailedExactly(completed: seq<Req>, queue: seq<Req>, h: History, d: Done)
    requires InOrder(completed, queue, h) && Told(completed, queue, h, [])
    requires d in h.done + Failures(queue) + Results(completed)
    ensures !d.ok <==> d.id in Refused(h.tries) || |h.done| + |completed| <= d.id
  {
    hide Refused, Taken, Wanted;
    var all := h.done + Failures(queue) + Results(completed);
    var n, q := |h.done|, |queue|;
    var i :| 0 <= i < |all| && all[i] == d;
    if i < n {
      assert h.done[i] == d;
    } else if i < n + q {
      assert Failures(queue)[i - n] == d && queue[i - n].id == d.id;
    } else {
      assert Results(completed)[i - n - q] == d && completed[i - n - q].id == d.id;
    }
  }

  /** What has come of the requests of a run that is closed now. */
  lemma {:induction false} Outcome(completed: seq<Req>, queue: seq<Req>, h: History)
    requires InOrder(completed, queue, h) && Conserved(completed, queue, h) && Told(completed, queue, h, [])
    ensures |h.wants| == |h.submitted| == |h.sent| && h.wire == Flat(h.sent) && h.wire == Taken(h.tries)
    ensures forall i :: 0 <= i < |h.sent| ==> h.sent[i] <= h.submitted[i]
    ensures var all, over := h.done + Failures(queue) + Results(completed), |h.done| + |completed|;
            && |all| == |h.submitted|
            && (forall i :: 0 <= i < |all| ==> all[i].id < |h.submitted|)
            && (forall i, j :: 0 <= i < j < |all| ==> all[i].id != all[j].id)
            && (forall i :: 0 <= i < |h.done| ==> h.done[i].id == i)
            && (forall d :: d in all ==> (!d.ok <==> d.id in Refused(h.tries) || over <= d.id))
            && (forall d :: d in all && d.ok ==> h.sent[d.id] == h.submitted[d.id])
    ensures forall r :: r in queue ==> r.index <= |r.bufs|
    ensures |h.done| + |completed| <= |h.submitted|
            && |Flat(h.submitted)| == |h.wire| + Dropped(h, |h.done| + |completed|) + Sizes(queue)
  {
    hide InOrder, Conserved, Flat, Rest, Sizes, Refused, Taken, Wanted, Dropped, Failures, Results;
    OneCallbackEach(completed, queue, h);
    SentInOrder(completed, queue, h);
    OrderSizes(completed, queue, h);
    ByteBalance(completed, queue, h);
    var all := h.done + Failures(queue) + Results(completed);
    forall d | d in all ensures !d.ok <==> d.id in Refused(h.tries) || |h.done| + |completed| <= d.id {
      FailedExactly(completed, queue, h, d);
    }
    forall d | d in all && d.ok ensures h.sent[d.id] == h.submitted[d.id] {
      SuccessMeansSent(completed, queue, h, d);
    }
  }

  /** Any program and any outcome of any write, until the stream is closed. */
  method Run(credit: nat) returns (s: Stream)
    ensures fresh(s) && s.Valid() && s.closing && !s.delivering
  {
    hide InOrder, Conserved, Flat, Rest, Sizes, Told, Refused, Taken, Wanted, ShutInTime;
    s := new Stream(credit);
    var steps: int := *;
    for i := 0 to if steps < 0 then 0 else steps
      invariant fresh(s) && s.Valid() && !s.delivering
    {
      var event: bool := *;
      if event && s.open && (s.watching || s.pending) {
        s.WriteEvent();
      } else {
        s.UserCode([]);
      }
    }
    if s.open {
      s.Close();
    }
  }

  /** A whole run: any program, any outcome of any write, and a close at the end. Every accepted request has had exactly
      one callback, which reports failure exactly if the file descriptor reported an error for the request or it was
      still queued at the close; the file descriptor has taken a beginning of each request's bytes, in the order of
      submission. The `early` callbacks before the close came in the order of submission; when it came, `over` requests
      had been finished and the counter, `size`, said what was left of the others; shutdown was issued only when every
      request so far had had its callback. */
  method Session(credit: nat)
    returns (ghost h: History, ghost early: nat, ghost over: nat, size: int, ghost shutdowns: seq<(nat, nat, bool)>)
    ensures |h.done| == |h.submitted| == |h.sent|
    ensures forall i :: 0 <= i < |h.done| ==> h.done[i].id < |h.submitted|
    ensures forall i, j :: 0 <= i < j < |h.done| ==> h.done[i].id != h.done[j].id
    ensures h.wire == Flat(h.sent) && forall i :: 0 <= i < |h.sent| ==> h.sent[i] <= h.submitted[i]
    ensures forall d :: d in h.done && d.ok ==> h.sent[d.id] == h.submitted[d.id]
    ensures early <= over <= |h.done| && forall i :: 0 <= i < early ==> h.done[i].id == i
    ensures |Flat(h.submitted)| == |h.wire| + Dropped(h, over) + size
    ensures forall p :: p in shutdowns ==> p.0 == p.1
    ensures forall d :: d in h.done ==> (!d.ok <==> d.id in Refused(h.tries) || over <= d.id)
    ensures h.wire == Taken(h.tries) && h.called == Wanted(h.done, h.wants) && |h.wants| == |h.submitted|
  {
    hide InOrder, Conserved, Flat, Rest, Sizes, Told, Refused, Taken, Wanted, Dropped, Failures, Results;
    var s := Run(credit);
    Outcome(s.completed, s.writeQueue, s.h);
    ghost var before := s.h;
    early, over, size, shutdowns := |s.h.done|, |s.h.done| + |s.completed|, s.writeQueueSize, s.shutdowns;
    s.Destroy();
    h := s.h;
    DroppedSame(before, h, over);
  }
}
