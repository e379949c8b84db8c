/** The query engine of a channel: sending, retrying, timing out and ending queries.
    Models ares_process.c, ares_send.c and ares__close_sockets.c. Sockets and memory are nondeterministic. */
module AresChannel {
  import opened AresIndex
  import opened AresTime
  import opened AresState
  import opened AresBudget
  import opened AresHistory
  import opened AresLog
  import opened Bytes
  import opened Options
  import opened Sequences

  class Channel {
    const nservers: nat
    const tries: nat
    const timeout: nat
    const rotate: bool
    const stayOpen: bool     // ARES_FLAG_STAYOPEN
    const useVc: bool        // ARES_FLAG_USEVC
    const ignoreTc: bool     // ARES_FLAG_IGNTC
    const noCheckResp: bool  // ARES_FLAG_NOCHECKRESP
    const sameQuestions: (seq<byte>, seq<byte>) -> bool  // same_questions, which is not modelled

    var servers: seq<Server>
    var generation: nat
    var lastTimeoutProcessed: int
    var lastServer: nat

    var queries: Queries
    var nextId: Id
    var allQueries: seq<Id>
    var byQid: Lists
    var byTimeout: Lists
    var toServer: Lists  // one list a server, and the list that HandleError walks

    ghost var stolen: set<Id>
    ghost var hist: map<Id, Record>
    ghost var wires: seq<Wire>
    ghost var log: seq<Event>

    ghost function Rulebook(): Rules { Rules(sameQuestions, ignoreTc, noCheckResp) }

    ghost predicate ConfigOk()
      reads this
    {
      && nservers > 0 && timeout >= 2
      && |servers| == nservers && |toServer| == nservers + 1 && lastServer < nservers && stolen <= queries.Keys
      && UpTo(servers, generation)
    }

    ghost predicate Inv(loose: set<Id>)
      reads this
    {
      && ConfigOk()
      && ListsOk(allQueries, byQid, byTimeout, toServer, queries, stolen, loose)
      && ServersOk(servers, wires, queries)
      && HistoryOk(queries, hist, nextId, nservers, tries, timeout, lastTimeoutProcessed, loose)
      && LogOk(log, servers, wires, queries, hist, nservers, tries, Rulebook())
    }

    /** A channel with no queries and no connections. */
    constructor (servers: nat, tries: nat, timeout: nat, rotate: bool, stayOpen: bool, useVc: bool, ignoreTc: bool,
        noCheckResp: bool, sameQuestions: (seq<byte>, seq<byte>) -> bool, now: TimeVal)
      requires servers > 0 && timeout >= 2
      ensures Inv({}) && stolen == {} && queries == map[] && nextId == 0 && lastTimeoutProcessed == now.sec
      ensures log == []
      ensures nservers == servers && this.tries == tries && this.timeout == timeout
      ensures this.rotate == rotate && this.stayOpen == stayOpen && this.useVc == useVc && this.ignoreTc == ignoreTc
      ensures this.noCheckResp == noCheckResp && this.sameQuestions == sameQuestions
    {
      this.nservers, this.tries, this.timeout, this.rotate := servers, tries, timeout, rotate;
      this.stayOpen, this.useVc, this.ignoreTc, this.noCheckResp := stayOpen, useVc, ignoreTc, noCheckResp;
      this.sameQuestions := sameQuestions;
      this.servers := seq(servers, i requires 0 <= i => Server(false, false, [], i + 1, false));
      generation, lastTimeoutProcessed, lastServer := servers, now.sec, 0;
      queries, nextId, allQueries := map[], 0, [];
      byQid := seq(QID_TABLE_SIZE, _ => []);
      byTimeout := seq(TIMEOUT_TABLE_SIZE, _ => []);
      toServer := seq(servers + 1, _ => []);
      stolen, hist, wires, log := {}, map[], seq(servers, _ => Wire([], [], 0)), [];
      new;
      LogStart(this.servers, wires, servers, tries, Rulebook());
    }

    /** ares__close_sockets */
    method CloseSockets(i: nat, ghost loose: set<Id>)
      requires Inv(loose) && i < nservers
      modifies this`servers, this`generation, this`wires
      ensures Inv(loose)
      ensures |old(servers)| == nservers && servers == old(servers)[i := Closed(old(servers)[i], generation)]
      ensures wires == old(wires)[i := Wire([], [], |log|)]
      ensures generation == old(generation) + if old(servers)[i].tcpOpen then 1 else 0
      ensures Newer(old(servers), servers)
              && (old(servers)[i].tcpOpen ==> servers[i].generation > old(servers)[i].generation)
    {
      hide ListsOk, HistoryOk, ServersOk, QueueOk, StreamOk, LogOk;
      var server := servers[i];
      ghost var was := server;
      ServersAt(servers, wires, queries, i);
      while server.queue != []
        invariant server == was.(queue := server.queue)
        decreases |server.queue|
      {
        server := server.(queue := server.queue[1..]);
      }
      server := server.(broken := false);
      if server.tcpOpen {
        generation := generation + 1;
        server := server.(tcpOpen := false, generation := generation);
      }
      if server.udpOpen {
        server := server.(udpOpen := false);
      }
      ClosedOk(was, i, queries, generation, |log|);
      ServersReplace(servers, wires, queries, i, server, Wire([], [], |log|));
      LogServers(log, servers, servers[i := server], wires, queries, hist, nservers, tries, Rulebook());
      servers := servers[i := server];
      ServersSizes(servers, wires[i := Wire([], [], |log|)], queries);
      LogWire(log, servers, wires, queries, hist, nservers, tries, Rulebook(), i, Wire([], [], |log|));
      wires := wires[i := Wire([], [], |log|)];
    }

    /** malloc and calloc, on behalf of the query `x`. */
    method Allocate(x: Id) returns (gotMemory: bool)
      modifies this`log
      ensures log == old(log) + if gotMemory then [] else [NoRoom(x)]
    {
      gotMemory := *;
      if !gotMemory {
        log := log + [NoRoom(x)];
      }
    }

    /** The part of end_query that looks at the queue of server `i`. */
    method Detach(i: nat, x: Id, ok: bool)
      requires i < |servers| && QueueOk(servers[i], i, queries)
      modifies this`servers, this`log
      ensures |servers| == |old(servers)| && servers == old(servers)[i := servers[i]]
      ensures DetachedServer(old(servers)[i], servers[i], x, ok)
      ensures forall j :: 0 <= j < |servers[i].queue| ==> servers[i].queue[j].owner != Some(x)
      ensures Ending(old(log), log, x)
      ensures servers[i].broken && !old(servers)[i].broken ==> Since(old(log), log, Cut(i))
      ensures ok && !RanOut(old(log), log, x) ==> servers[i].broken == old(servers)[i].broken
    {
      hide Detaching, DetachedServer, Ending, RanOut, Since, EntryLookedAt;
      ghost var was := servers[i];
      DetachingNone(was, log, i, x, ok);
      var j := 0;
      while j < |servers[i].queue|
        invariant |servers| == |old(servers)| && servers == old(servers)[i := servers[i]]
        invariant 0 <= j <= |servers[i].queue| == |was.queue|
        invariant Detaching(was, servers[i], old(log), log, i, x, ok, j)
      {
        DetachingEntry(was, servers[i], old(log), log, i, queries, x, ok, j);
        ghost var before, log1 := servers[i], log;
        DetachEntry(i, j, x, ok);
        DetachingNext(was, before, servers[i], old(log), log1, log, i, x, ok, j);
        j := j + 1;
      }
      DetachingDone(was, servers[i], old(log), log, i, x, ok);
    }

    method DetachEntry(i: nat, j: nat, x: Id, ok: bool)
      requires i < |servers| && j < |servers[i].queue|
      requires servers[i].queue[j].owner == Some(x) ==> !servers[i].queue[j].ownStorage
      modifies this`servers, this`log
      ensures |servers| == |old(servers)| && servers == old(servers)[i := servers[i]]
      ensures EntryLookedAt(old(servers)[i], servers[i], old(log), log, i, j, x, ok)
      ensures |servers[i].queue| == |old(servers)[i].queue|
    {
      var e := servers[i].queue[j];
      if e.owner == Some(x) {
        var broken := servers[i].broken;
        e := e.(owner := None);
        if ok {
          var copied := Allocate(x);
          if copied {
            e := e.(ownStorage := true);
          }
        }
        if !ok || !e.ownStorage {
          broken := true;
          e := e.(data := []);
          log := log + [Cut(i)];
        }
        servers := servers[i := servers[i].(queue := servers[i].queue[j := e], broken := broken)];
      }
    }

    /** end_query: detaches what is still queued, makes the callback and frees the query. What is queued for other
        queries stays, and no socket is closed but with the last query. */
    method EndQuery(x: Id, status: Status, ghost loose: set<Id>)
      requires Inv(loose) && x in queries && x in hist
      requires Explained(log, x, hist[x].(callbacks := [status]), nservers, tries, Rulebook())
      modifies this`servers, this`generation, this`wires, this`queries, this`hist, this`stolen, this`log
      modifies this`allQueries, this`byQid, this`byTimeout, this`toServer
      ensures Inv(loose - {x})
      ensures queries == old(queries) - {x}
      ensures hist == old(hist)[x := old(hist[x]).(callbacks := [status])]
      ensures stolen == old(stolen) - {x}
      ensures allQueries == Drop(old(allQueries), x) && byQid == Unlink(old(byQid), x)
      ensures byTimeout == Unlink(old(byTimeout), x) && toServer == Unlink(old(toServer), x)
      ensures Newer(old(servers), servers) && (queries == map[] && !stayOpen ==> AllClosed(servers))
      ensures Ending(old(log), log, x) && Steady(old(log), log, old(servers), servers, queries, stayOpen)
      ensures queries != map[] || stayOpen ==>
                && AllDetached(old(servers), servers, x, status == Success)
                && wires == old(wires) && generation == old(generation)
                && (status == Success && !RanOut(old(log), log, x) ==> AllWhole(old(servers), servers))
    {
      hide ListsOk, HistoryOk, ServersOk, Linked, QueryBase, Unowned, ConfigOk, Within, Affordable, Newer, AllClosed;
      hide LogOk, Explained, Ending, AllDetached, AllWhole, RanOut;
      DetachAll(x, status == Success, loose);
      InHistory(queries, hist, nextId, nservers, tries, timeout, lastTimeoutProcessed, loose, x);
      ghost var r := hist[x].(callbacks := hist[x].callbacks + [status]);
      assert [] + [status] == [status];
      EndingPlain(old(log), log, x);
      ExplainedPlain(old(log), log, x, r, nservers, tries, Rulebook());
      AffordableEnds(hist[x], [status], nservers, tries, timeout);
      FreeQuery(x, r, loose);
      NoQueries(allQueries, byQid, byTimeout, toServer, queries, stolen, loose - {x});
      SomeQueries(x, loose);
      if !stayOpen && allQueries == [] {
        ghost var detached := servers;
        CloseAll(loose - {x});
        NewerTwice(old(servers), detached, servers);
      }
      NewerSizes(old(servers), servers);
      DetachedSteady(old(log), log, old(servers), servers, queries, x, status == Success, stayOpen);
    }

    /** While there are queries the list of all of them is not empty. */
    lemma SomeQueries(x: Id, loose: set<Id>)
      requires Inv(loose - {x})
      ensures queries != map[] ==> allQueries != []
    {
      hide LogOk, HistoryOk, ServersOk, Linked;
      if y :| y in queries {
        ListsFind(allQueries, byQid, byTimeout, toServer, queries, stolen, loose - {x}, y);
      }
    }

    /** ares__free_query; `r` says what callback has been made for the query. */
    method FreeQuery(x: Id, ghost r: Record, ghost loose: set<Id>)
      requires Inv(loose) && x in queries && x in hist && Unowned(servers, x)
      requires |r.callbacks| == 1 && r.first < nservers && Affordable(r, nservers, tries, timeout)
      requires r == hist[x].(callbacks := r.callbacks) && Explained(log, x, r, nservers, tries, Rulebook())
      modifies this`queries, this`hist, this`stolen
      modifies this`allQueries, this`byQid, this`byTimeout, this`toServer
      ensures Inv(loose - {x})
      ensures queries == old(queries) - {x} && hist == old(hist)[x := r] && stolen == old(stolen) - {x}
      ensures allQueries == Drop(old(allQueries), x) && byQid == Unlink(old(byQid), x)
      ensures byTimeout == Unlink(old(byTimeout), x) && toServer == Unlink(old(toServer), x)
    {
      hide ListsOk, HistoryOk, ServersOk, QueryBase, Unowned, Affordable, Drop, Waiting, LogOk, Explained;
      hide UpTo, Unlink;
      ServersFree(servers, wires, queries, x);
      HistoryEnd(queries, hist, nextId, nservers, tries, timeout, lastTimeoutProcessed, loose, x, r);
      LogEnd(log, servers, wires, queries, hist, nservers, tries, Rulebook(), x, r);
      ListsFree(allQueries, byQid, byTimeout, toServer, queries, stolen, loose, x);
      UnlinkSize(toServer, x);
      byQid := Unlink(byQid, x);
      byTimeout := Unlink(byTimeout, x);
      toServer := Unlink(toServer, x);
      allQueries := Drop(allQueries, x);
      queries := queries - {x};
      stolen := stolen - {x};
      hist := hist[x := r];
    }

    method DetachAll(x: Id, ok: bool, ghost loose: set<Id>)
      requires Inv(loose)
      modifies this`servers, this`log
      ensures Inv(loose) && Unowned(servers, x) && Newer(old(servers), servers)
      ensures Ending(old(log), log, x) && AllDetached(old(servers), servers, x, ok)
      ensures forall s :: 0 <= s < |servers| && servers[s].broken ==>
                old(servers)[s].broken || Since(old(log), log, Cut(s))
      ensures ok && !RanOut(old(log), log, x) ==> AllWhole(old(servers), servers)
    {
      hide ListsOk, HistoryOk, DetachedServer, LogOk, DetachedTo, LookedAt, Unowned, Newer, AllDetached, AllWhole;
      hide Ending, RanOut;
      DetachedNone(servers, log, x, ok);
      for i := 0 to nservers
        invariant Inv(loose) && DetachedTo(old(servers), servers, old(log), log, x, ok, i)
      {
        DetachOne(i, x, ok, loose, old(servers), old(log));
      }
      ServersSize(loose);
      DetachedDone(old(servers), servers, old(log), log, x, ok);
    }

    lemma ServersSize(loose: set<Id>)
      requires Inv(loose)
      ensures |servers| == nservers
    {
    }

    method DetachOne(i: nat, x: Id, ok: bool, ghost loose: set<Id>, ghost servers0: seq<Server>, ghost log0: seq<Event>)
      requires Inv(loose) && DetachedTo(servers0, servers, log0, log, x, ok, i) && i < nservers
      modifies this`servers, this`log
      ensures Inv(loose) && DetachedTo(servers0, servers, log0, log, x, ok, i + 1)
    {
      hide ListsOk, HistoryOk, DetachedServer, LogOk, DetachedTo, Ending, RanOut, Whole;
      ghost var before, log1 := servers, log;
      Detach(i, x, ok);
      DetachQueue(before[i], servers[i], i, queries, x, ok);
      DetachStream(before[i], servers[i], wires[i], x, ok);
      DetachGeneration(before[i], servers[i], x, ok);
      DetachedWhole(before[i], servers[i], x, ok);
      EndingPlain(log1, log, x);
      LogPlain(log1, log, before, wires, queries, hist, nservers, tries, Rulebook());
      LogServers(log, before, servers, wires, queries, hist, nservers, tries, Rulebook());
      assert wires[i := wires[i]] == wires;
      DetachedSize(servers0, before, log0, log1, x, ok, i);
      DetachedNext(servers0, before, servers, log0, log1, log, x, ok, i);
    }

    method CloseAll(ghost loose: set<Id>)
      requires Inv(loose)
      modifies this`servers, this`generation, this`wires
      ensures Inv(loose) && Newer(old(servers), servers) && AllClosed(servers)
    {
      hide ListsOk, HistoryOk, ServersOk, LogOk;
      for i := 0 to nservers
        invariant Inv(loose) && Newer(old(servers), servers)
        invariant forall s :: 0 <= s < i ==> !servers[s].udpOpen && !servers[s].tcpOpen && servers[s].queue == []
      {
        CloseSockets(i, loose);
      }
    }

    /** skip_server: the server has given trouble. */
    method SkipServer(x: Id, s: nat, ghost loose: set<Id>)
      requires Inv(loose) && x in queries && x in hist && s < nservers
      requires x in loose || s != queries[x].server || nservers <= 1
      requires Trouble(log, x, s, hist[x].message, Rulebook())
      modifies this`queries
      ensures Inv(loose) && x in queries && |old(queries)[x].info| == nservers
      ensures queries == old(queries)[x := Marked(old(queries)[x], s, nservers)]
    {
      hide ListsOk, HistoryOk, ServersOk, Within, Affordable, LogOk, InfoOk, Trouble;
      InHistory(queries, hist, nextId, nservers, tries, timeout, lastTimeoutProcessed, loose, x);
      LogLive(log, servers, wires, queries, hist, nservers, tries, Rulebook(), x);
      if nservers > 1 {
        var q := queries[x];
        InfoMarked(log, x, q, s, hist[x].message, Rulebook());
        q := q.(info := q.info[s := q.info[s].(skip := true)]);
        Rewrite(x, q, loose);
      } else {
        assert queries == queries[x := queries[x]];
      }
    }

    /** Stores a changed record of a query that keeps its place. */
    method Rewrite(x: Id, q: Query, ghost loose: set<Id>)
      requires Inv(loose) && x in queries && x in hist
      requires q.qid == queries[x].qid && q.tcpbuf == queries[x].tcpbuf && |q.info| == |queries[x].info|
      requires queries[x].usingTcp ==> q.usingTcp
      requires forall s :: 0 <= s < |q.info| ==> q.info[s].generation == queries[x].info[s].generation
      requires QueryBase(q, hist[x], nservers, tries, timeout)
      requires q.timeouts == queries[x].timeouts && InfoOk(log, x, q, hist[x].message, Rulebook())
      requires if x in loose then true else
                 && q.deadline == queries[x].deadline && q.server == queries[x].server
                 && Waiting(q, hist[x], nservers, tries, timeout, lastTimeoutProcessed)
      modifies this`queries
      ensures Inv(loose) && queries == old(queries)[x := q]
    {
      hide ListsOk, HistoryOk, ServersOk, QueryBase, Waiting, LogOk, InfoOk;
      InHistory(queries, hist, nextId, nservers, tries, timeout, lastTimeoutProcessed, loose, x);
      ListsUpdate(allQueries, byQid, byTimeout, toServer, queries, stolen, loose, x, q);
      ServersUpdate(servers, wires, queries, x, q);
      LogQuery(log, servers, wires, queries, hist, nservers, tries, Rulebook(), x, q);
      if x in loose {
        HistoryLoosen(queries, hist, nextId, nservers, tries, timeout, lastTimeoutProcessed, loose, x, q, hist[x]);
        assert hist[x := hist[x]] == hist && loose + {x} == loose;
      } else {
        HistorySettle(queries, hist, nextId, nservers, tries, timeout, lastTimeoutProcessed, loose, x, q);
        assert loose - {x} == loose;
      }
      queries := queries[x := q];
    }

    /** Opens a socket of server `s`. */
    method MarkOpen(s: nat, tcp: bool, ghost loose: set<Id>)
      requires Inv(loose) && s < nservers
      modifies this`servers
      ensures Inv(loose)
      ensures servers == old(servers)[s := if tcp then old(servers)[s].(tcpOpen := true)
              else old(servers)[s].(udpOpen := true)]
    {
      hide ListsOk, HistoryOk, LogOk;
      var sv := if tcp then servers[s].(tcpOpen := true) else servers[s].(udpOpen := true);
      assert wires[s := wires[s]] == wires;
      LogServers(log, servers, servers[s := sv], wires, queries, hist, nservers, tries, Rulebook());
      servers := servers[s := sv];
    }

    /** The record of a query that goes on the wire now. */
    ghost function Recorded(x: Id, wait: nat): (r: Record)
      requires x in queries && x in hist && queries[x].server < |hist[x].visits|
      reads this`queries, this`hist
    {
      var r := hist[x];
      var fates := if |r.fates| == queries[x].attempt then r.fates + [ByWire] else r.fates;
      Counted(r, queries[x].server, wait).(fates := fates)
    }

    /** What must hold for a query to be sent. */
    ghost predicate Sendable(x: Id)
      requires x in queries
      reads this`queries, this`hist, this`servers
    {
      && nservers > 0 && x in hist && OnCourse(queries[x], hist[x], nservers, tries)
      && Within(hist[x], queries[x].attempt, queries[x].attempt, nservers, timeout)
      && queries[x].attempt <= |hist[x].fates| <= queries[x].attempt + 1
      && Fresh(queries[x], servers)
    }

    /** The query has been handed over, to the connection or to the UDP socket: that goes into the log and into the
        record. */
    ghost method NoteSent(x: Id, q: Query, bytes: seq<byte>, wires1: seq<Wire>, wait: nat, loose: set<Id>)
      requires Inv(loose) && x in queries && x in loose && Sendable(x)
      requires Payload(queries[x], bytes) && wait <= FullWait(timeout, queries[x].attempt, nservers)
      requires q == queries[x].(info := q.info) && |q.info| == |queries[x].info| == |wires| == nservers
      requires queries[x].server < nservers && QueryBase(q, hist[x], nservers, tries, timeout)
      requires if q.usingTcp then
                 && var used := queries[x].info[q.server].(generation := q.info[q.server].generation);
                 && q.info == queries[x].info[q.server := used]
                 && wires1 == wires[q.server := wires[q.server].(frames := wires[q.server].frames + [bytes])]
               else q.info == queries[x].info && wires1 == wires
      modifies this`hist, this`log
      ensures queries[x].server < |old(hist)[x].visits| && hist == old(hist)[x := old(Recorded(x, wait))]
      ensures log == old(log) + [OnWire(x, q.server, q.usingTcp, bytes)]
      ensures LogOk(log, servers, wires1, queries[x := q], hist, nservers, tries, Rulebook())
      ensures HistoryOk(queries[x := q], hist, nextId, nservers, tries, timeout, lastTimeoutProcessed, loose)
      ensures Within(hist[x], q.attempt + 1, q.attempt, nservers, timeout) && |hist[x].fates| == q.attempt + 1
    {
      hide ListsOk, ServersOk, HistoryOk, LogOk, Within, Affordable, FullWait, Fresh;
      var r, old0 := hist[x], queries[x];
      InHistory(queries, hist, nextId, nservers, tries, timeout, lastTimeoutProcessed, loose, x);
      WithinVisits(r, q.attempt, q.attempt, nservers, timeout);
      var r1 := Recorded(x, wait);
      SentBase(old0, q, r, r1, wait, nservers, tries, timeout);
      FateNext(r, r1, q.attempt, q.server, nservers);
      LogSent(log, servers, wires, wires1, queries, hist, nservers, tries, Rulebook(), x, q.server, q.usingTcp, q, r1,
          wait);
      HistoryLoosen(queries, hist, nextId, nservers, tries, timeout, lastTimeoutProcessed, loose, x, q, r1);
      assert loose + {x} == loose;
      log := log + [OnWire(x, q.server, q.usingTcp, bytes)];
      hist := hist[x := r1];
    }

    /** Puts the query at the end of the queue of server `s`. */
    method Enqueue(x: Id, s: nat, ghost wait: nat, ghost loose: set<Id>)
      requires Inv(loose) && x in queries && x in loose && Sendable(x) && s == queries[x].server < nservers
      requires servers[s].tcpOpen && queries[x].usingTcp
      requires wait <= FullWait(timeout, queries[x].attempt, nservers)
      modifies this`servers, this`wires, this`queries, this`hist, this`log
      ensures Inv(loose) && x in queries && s < |old(hist)[x].visits| && hist == old(hist)[x := old(Recorded(x, wait))]
      ensures |queries[x].info| == |old(queries)[x].info|
      ensures queries == old(queries)[x := old(queries)[x].(info := queries[x].info)]
      ensures var used := old(queries)[x].info[s].(generation := servers[s].generation);
              queries[x].info == old(queries)[x].info[s := used]
      ensures SentOn(old(servers), servers, old(wires), wires, queries[x], x)
      ensures WentOut(old(log), log, queries[x], x) && OnCourse(queries[x], hist[x], nservers, tries)
      ensures Remembered(old(queries)[x], queries[x]) && Unmarked(queries[x])
      ensures Within(hist[x], queries[x].attempt + 1, queries[x].attempt, nservers, timeout)
              && |hist[x].fates| == queries[x].attempt + 1
    {
      hide ListsOk, HistoryOk, Within, Affordable, Waiting, ServersOk, LogOk, FullWait, Moved, Linked, Unlink;
      InHistory(queries, hist, nextId, nservers, tries, timeout, lastTimeoutProcessed, loose, x);
      ServersEnqueue(servers, wires, queries, x, s);
      ServersSizes(servers, wires, queries);
      var q := queries[x];
      ghost var wires1 := wires[s := wires[s].(frames := wires[s].frames + [q.tcpbuf])];
      var q1 := q.(info := q.info[s := q.info[s].(generation := servers[s].generation)]);
      ghost var before := servers;
      ListsUpdate(allQueries, byQid, byTimeout, toServer, queries, stolen, loose, x, q1);
      NoteSent(x, q1, q.tcpbuf, wires1, wait, loose);
      servers := servers[s := servers[s].(queue := servers[s].queue + [SendReq(q.tcpbuf, Some(x), false)])];
      LogServers(log, before, servers, wires1, queries[x := q1], hist, nservers, tries, Rulebook());
      wires := wires1;
      queries := queries[x := q1];
    }

    /** The server could not be reached, and the attempt has failed. */
    ghost predicate Missed(x: Id, old0: map<Id, Record>, log0: seq<Event>)
      reads this`queries, this`hist, this`log
    {
      && x in queries && x in old0 && nservers > 0
      && log == log0 + [Unreached(x, queries[x].server)]
      && hist == old0[x := old0[x].(fates := if |old0[x].fates| == queries[x].attempt then old0[x].fates + [NotReached]
                                             else old0[x].fates)]
    }

    ghost method NoteMissed(x: Id, loose: set<Id>)
      requires Inv(loose) && x in queries && x in loose && Sendable(x)
      modifies this`hist, this`log
      ensures Inv(loose) && Missed(x, old(hist), old(log))
    {
      hide ListsOk, ServersOk, HistoryOk, LogOk, Within, Affordable, Fresh;
      InHistory(queries, hist, nextId, nservers, tries, timeout, lastTimeoutProcessed, loose, x);
      var r, q := hist[x], queries[x];
      var r1 := r.(fates := if |r.fates| == q.attempt then r.fates + [NotReached] else r.fates);
      MissedNext(r, r1, q.attempt, q.server, nservers);
      BaseFates(q, r, r1.fates, nservers, tries, timeout);
      LogUnreached(log, servers, wires, queries, hist, nservers, tries, Rulebook(), x, q.server, r1);
      HistoryLoosen(queries, hist, nextId, nservers, tries, timeout, lastTimeoutProcessed, loose, x, q, r1);
      assert queries[x := q] == queries && loose + {x} == loose;
      log := log + [Unreached(x, q.server)];
      hist := hist[x := r1];
    }

    /** swrite on the UDP socket. */
    method WriteUdp(x: Id, ghost wait: nat, ghost loose: set<Id>) returns (written: bool)
      requires Inv(loose) && x in queries && x in loose && Sendable(x) && !queries[x].usingTcp
      requires wait <= FullWait(timeout, queries[x].attempt, nservers)
      modifies this`hist, this`log
      ensures Inv(loose)
      ensures written ==>
                && queries[x].server < |old(hist)[x].visits| && hist == old(hist)[x := old(Recorded(x, wait))]
                && WentOut(old(log), log, queries[x], x) && OnCourse(queries[x], hist[x], nservers, tries)
                && Within(hist[x], queries[x].attempt + 1, queries[x].attempt, nservers, timeout)
                && |hist[x].fates| == queries[x].attempt + 1
      ensures !written ==> Missed(x, old(hist), old(log))
    {
      hide ListsOk, HistoryOk, Within, Affordable, Waiting, ServersOk, LogOk, FullWait;
      InHistory(queries, hist, nextId, nservers, tries, timeout, lastTimeoutProcessed, loose, x);
      ServersSizes(servers, wires, queries);
      written := *;
      if written {
        assert queries[x := queries[x]] == queries;
        NoteSent(x, queries[x], queries[x].tcpbuf[2..], wires, wait, loose);
      } else {
        NoteMissed(x, loose);
      }
    }

    /** open_tcp_socket and open_udp_socket, if there is no socket yet. */
    method Connect(x: Id, tcp: bool, ghost loose: set<Id>) returns (connected: bool)
      requires Inv(loose) && x in queries && x in loose && Sendable(x) && queries[x].server < nservers
      modifies this`servers, this`hist, this`log
      ensures Inv(loose) && |servers| == |old(servers)| == nservers
      ensures connected ==>
                && hist == old(hist) && log == old(log) && Sendable(x)
                && (if tcp then servers[queries[x].server].tcpOpen else servers[queries[x].server].udpOpen)
      ensures forall i :: 0 <= i < |servers| ==> Opened(old(servers)[i], servers[i], [])
      ensures !connected ==> servers == old(servers) && Missed(x, old(hist), old(log))
      ensures !connected ==> if tcp then !servers[queries[x].server].tcpOpen else !servers[queries[x].server].udpOpen
    {
      hide ListsOk, HistoryOk, ServersOk, LogOk, Within, OnCourse;
      var s := queries[x].server;
      forall i | 0 <= i < |servers| ensures Opened(servers[i], servers[i], []) {}
      if if tcp then servers[s].tcpOpen else servers[s].udpOpen {
        return true;
      }
      connected := *;
      if connected {
        MarkOpen(s, tcp, loose);
      } else {
        NoteMissed(x, loose);
      }
    }

    /** calloc of the request. */
    method AllocateRequest(x: Id, ghost loose: set<Id>) returns (gotMemory: bool)
      requires Inv(loose)
      modifies this`log
      ensures Inv(loose) && log == old(log) + if gotMemory then [] else [NoRoom(x)]
    {
      hide ListsOk, HistoryOk, ServersOk, LogOk;
      ghost var before := log;
      gotMemory := Allocate(x);
      if !gotMemory {
        LogMore(before, NoRoom(x), servers, wires, queries, hist, nservers, tries, Rulebook());
      } else {
        assert log == before;
      }
    }

    /** skip_server for a server that was not reached just now. */
    method SkipMissed(x: Id, ghost hist0: map<Id, Record>, ghost log0: seq<Event>, ghost loose: set<Id>)
      requires Inv(loose) && x in queries && x in loose && Missed(x, hist0, log0) && queries[x].server < nservers
      requires OnCourse(queries[x], hist0[x], nservers, tries)
      modifies this`queries
      ensures Inv(loose) && Missed(x, hist0, log0) && queries[x].server < |old(queries)[x].info|
      ensures x in hist && OnCourse(queries[x], hist[x], nservers, tries)
      ensures queries == old(queries)[x := Marked(old(queries)[x], queries[x].server, nservers)]
    {
      hide ListsOk, HistoryOk, ServersOk, LogOk;
      assert log[|log| - 1] == Unreached(x, queries[x].server);
      SkipServer(x, queries[x].server, loose);
    }

    /** The part of ares__send_query that talks to the server: a TCP query is queued on its connection, a UDP query is
        written at once. A server that cannot be reached is skipped from then on. */
    method Transmit(x: Id, ghost wait: nat, ghost loose: set<Id>) returns (result: Transmission)
      requires Inv(loose) && x in queries && x in loose && Sendable(x)
      requires wait <= FullWait(timeout, queries[x].attempt, nservers)
      modifies this`servers, this`wires, this`queries, this`hist, this`log
      ensures Inv(loose) && x in queries && x in old(hist) && x in hist
      ensures nservers > 0 && |old(queries)[x].info| == nservers == |servers| == |old(servers)|
      ensures OnCourse(queries[x], hist[x], nservers, tries)
      ensures result == Sent ==>
                && queries[x].server < |old(hist)[x].visits| && hist == old(hist)[x := old(Recorded(x, wait))]
                && queries == old(queries)[x := old(queries)[x].(info := queries[x].info)]
                && Remembered(old(queries)[x], queries[x]) && Unmarked(queries[x])
                && SentOn(old(servers), servers, old(wires), wires, queries[x], x)
                && WentOut(old(log), log, queries[x], x)
                && Within(hist[x], queries[x].attempt + 1, queries[x].attempt, nservers, timeout)
                && |hist[x].fates| == queries[x].attempt + 1
      ensures result != Sent ==>
                && |servers| == |old(servers)| == nservers && wires == old(wires)
                && forall i :: 0 <= i < |servers| ==> Opened(old(servers)[i], servers[i], [])
      ensures result == Unsent ==>
                && Missed(x, old(hist), old(log)) && queries[x].server < |old(queries)[x].info|
                && queries == old(queries)[x := Marked(old(queries)[x], queries[x].server, nservers)]
                && queries[x].server < |old(servers)|
                && (queries[x].usingTcp ==> !old(servers)[queries[x].server].tcpOpen)
      ensures result == OutOfMemory ==>
                hist == old(hist) && queries == old(queries) && log == old(log) + [NoRoom(x)]
    {
      hide ListsOk, HistoryOk, Linked, QueryBase, ServersOk, Within, Affordable, LogOk, Recorded, SentOn, Opened, Fresh;
      hide Sendable, Missed, WentOut, OnCourse, Remembered;
      RememberedSame(queries[x]);
      SendableIs(x);
      SizesOf(x, loose);
      ServerOf(x, loose);
      ghost var servers0, wires0, hist0, log0 := servers, wires, hist, log;
      var connected := Connect(x, queries[x].usingTcp, loose);
      if !connected {
        SkipMissed(x, hist0, log0, loose);
        result := Unsent;
      } else if queries[x].usingTcp {
        ghost var servers1 := servers;
        var gotMemory := AllocateRequest(x, loose);
        if gotMemory {
          assert log == log0;
          Enqueue(x, queries[x].server, wait, loose);
          SentAfter(servers0, servers1, servers, wires0, wires, queries[x], x);
        }
        result := if gotMemory then Sent else OutOfMemory;
      } else {
        var written := WriteUdp(x, wait, loose);
        if written {
          UdpSentOn(servers0, servers, wires0, queries[x], x);
        } else {
          SkipMissed(x, hist0, log0, loose);
        }
        result := if written then Sent else Unsent;
      }
    }

    lemma ServerOf(x: Id, loose: set<Id>)
      requires Inv(loose) && x in queries
      ensures queries[x].server < nservers && |queries[x].tcpbuf| >= 2
    {
      hide ListsOk, HistoryOk, ServersOk, LogOk;
      InHistory(queries, hist, nextId, nservers, tries, timeout, lastTimeoutProcessed, loose, x);
    }

    /** The query has been sent: sets its deadline and puts it into its lists. */
    method Settle(x: Id, now: TimeVal, timeplus: nat, ghost loose: set<Id>)
      requires Inv(loose) && x in queries && x in loose && x in hist
      requires OnCourse(queries[x], hist[x], nservers, tries) && |hist[x].fates| == queries[x].attempt + 1
      requires Within(hist[x], queries[x].attempt + 1, queries[x].attempt, nservers, timeout)
      requires queries[x].server < |queries[x].info| && !queries[x].info[queries[x].server].skip
      requires now.Normal() && now.sec >= lastTimeoutProcessed
      modifies this`queries, this`stolen, this`byTimeout, this`toServer
      ensures Inv(loose - {x}) && x in queries
      ensures queries == old(queries)[x := old(queries)[x].(deadline := TimeAdd(now, timeplus))]
      ensures stolen == old(stolen) - {x}
      ensures Placed(old(byTimeout), byTimeout, x, Some(Bucket(queries[x].deadline)))
      ensures Placed(old(toServer), toServer, x, Some(queries[x].server))
    {
      hide ListsOk, HistoryOk, ServersOk, QueryBase, Within, LogOk;
      InHistory(queries, hist, nextId, nservers, tries, timeout, lastTimeoutProcessed, loose, x);
      BaseKeeps(queries[x], hist[x], nservers, tries, timeout);
      var q := queries[x].(deadline := TimeAdd(now, timeplus));
      TimeAddExact(now, timeplus);
      TimeAddLater(now, timeplus);
      Relink(x, q, loose);
    }

    /** Gives a loose query its final record and puts it into the lists that fit it. */
    method Relink(x: Id, q: Query, ghost loose: set<Id>)
      requires Inv(loose) && x in queries && x in loose && x in hist
      requires q == queries[x].(deadline := q.deadline) && q.server < nservers
      requires QueryBase(q, hist[x], nservers, tries, timeout)
               && Waiting(q, hist[x], nservers, tries, timeout, lastTimeoutProcessed)
      modifies this`queries, this`stolen, this`byTimeout, this`toServer
      ensures Inv(loose - {x})
      ensures queries == old(queries)[x := q] && stolen == old(stolen) - {x}
      ensures Placed(old(byTimeout), byTimeout, x, Some(Bucket(q.deadline)))
      ensures Placed(old(toServer), toServer, x, Some(q.server))
    {
      hide ListsOk, HistoryOk, ServersOk, Linked, Moved, QueryBase, Waiting, LogOk, InfoOk, Drop, Unlink, Rulebook;
      InHistory(queries, hist, nextId, nservers, tries, timeout, lastTimeoutProcessed, loose, x);
      ListsUpdate(allQueries, byQid, byTimeout, toServer, queries, stolen, loose, x, q);
      ServersUpdate(servers, wires, queries, x, q);
      LogLive(log, servers, wires, queries, hist, nservers, tries, Rulebook(), x);
      InfoSame(log, x, queries[x], q, hist[x].message, Rulebook());
      LogQuery(log, servers, wires, queries, hist, nservers, tries, Rulebook(), x, q);
      HistorySettle(queries, hist, nextId, nservers, tries, timeout, lastTimeoutProcessed, loose, x, q);
      queries := queries[x := q];
      ListsSizes(allQueries, byQid, byTimeout, toServer, queries, stolen, loose);
      ListsSettle(allQueries, byQid, byTimeout, toServer, queries, stolen, loose, x);
      byTimeout := Moved(byTimeout, x, Bucket(q.deadline));
      toServer := Moved(toServer, x, q.server);
      stolen := stolen - {x};
    }

    /** ares__send_query: puts the query on the wire to its server, once, or moves it on to the next one. Each attempt
        that is passed over has its excuse. */
    method SendQuery(x: Id, now: TimeVal, ghost loose: set<Id>)
      requires Inv(loose) && x in queries && x in loose && Sendable(x)
      requires now.Normal() && now.sec >= lastTimeoutProcessed
      modifies this`servers, this`generation, this`wires, this`queries, this`hist, this`stolen, this`log
      modifies this`allQueries, this`byQid, this`byTimeout, this`toServer
      ensures Inv(loose - {x}) && stolen == old(stolen) - {x} && x in old(hist)
      ensures Outcome(old(queries), old(hist), queries, hist, x, now, timeout, nservers, 0)
      ensures Newer(old(servers), servers)
      ensures x in queries ==> Mended(queries[x], servers) || BrokenAsBefore(old(queries)[x], queries[x], old(servers))
      ensures Placed(old(byTimeout), byTimeout, x, Deadline(queries, x))
      ensures Placed(old(toServer), toServer, x, Target(queries, x))
      ensures Attempted(old(log), log, queries, x)
      ensures Settled(old(servers), servers, old(wires), wires, old(generation), generation, queries, x, stayOpen)
      ensures Steady(old(log), log, old(servers), servers, queries, stayOpen)
      ensures Fair(old(queries)[x], old(servers), old(log), log, x, |old(hist)[x].fates|, hist[x], nservers,
                   x in queries)
      decreases nservers * tries - queries[x].attempt, 2
    {
      hide ListsOk, HistoryOk, ServersOk, QueryBase, Linked, Moved, Unlink, ConfigOk, Within, Affordable, Wait, Newer;
      hide Inv, MovedOn;
      hide LogOk, Fair, Attempted, SentOn, Settled, FullWait, Excused, Carried, Queued, OnCourse, Placed;
      hide Opened, Steady, Mended, NotThere, Fresh, WentOut;
      SendableIs(x);
      var random: nat := *;
      random := random % 8;
      var timeplus := Wait(timeout, queries[x].attempt, nservers, random);
      WaitBounds(timeout, queries[x].attempt, nservers, random);
      var result := Transmit(x, timeplus, loose);
      if result == Unsent {
        MissedSo(x, old(queries)[x], old(servers), servers, old(hist)[x], hist[x], old(log), log, queries[x],
            nservers, tries, timeout);
        MoveOn(x, now, loose, old(queries)[x], old(servers), old(hist)[x], old(log));
      } else if result == OutOfMemory {
        EndForMemory(x, loose, now, old(servers), old(log));
      } else {
        Await(x, now, random, loose, old(queries)[x], old(servers), old(wires), old(hist)[x], old(log));
      }
    }

    lemma SendableIs(x: Id)
      requires x in queries && Sendable(x)
      ensures nservers > 0 && x in hist && OnCourse(queries[x], hist[x], nservers, tries)
      ensures Within(hist[x], queries[x].attempt, queries[x].attempt, nservers, timeout)
      ensures queries[x].attempt <= |hist[x].fates| <= queries[x].attempt + 1 && Unmarked(queries[x])
    {
    }

    /** A usable server. */
    lemma UsableSendable(x: Id, s: nat)
      requires x in queries && x in hist && nservers > 0 && s < |servers| && s < |queries[x].info|
      requires queries[x].server == s == (hist[x].first + queries[x].attempt) % nservers
      requires queries[x].attempt < nservers * tries && |hist[x].fates| == queries[x].attempt
      requires Within(hist[x], queries[x].attempt, queries[x].attempt, nservers, timeout)
      requires Usable(queries[x], servers[s], s)
      ensures Sendable(x)
    {
      hide Within;
    }

    /** There is no memory for the request. */
    method EndForMemory(x: Id, ghost loose: set<Id>, now: TimeVal, ghost servers0: seq<Server>, ghost log0: seq<Event>)
      requires Inv(loose) && x in queries && x in loose && x in hist && log == log0 + [NoRoom(x)]
      requires nservers > 0 && |queries[x].info| == nservers == |servers0| == |servers|
      requires forall i :: 0 <= i < |servers| ==> Opened(servers0[i], servers[i], [])
      modifies this`servers, this`generation, this`wires, this`queries, this`hist, this`stolen, this`log
      modifies this`allQueries, this`byQid, this`byTimeout, this`toServer
      ensures Inv(loose - {x}) && stolen == old(stolen) - {x} && x !in queries
      ensures Outcome(old(queries), old(hist), queries, hist, x, now, timeout, nservers, 0)
      ensures Newer(servers0, servers)
      ensures Placed(old(byTimeout), byTimeout, x, None) && Placed(old(toServer), toServer, x, None)
      ensures Attempted(log0, log, queries, x)
      ensures Settled(servers0, servers, old(wires), wires, old(generation), generation, queries, x, stayOpen)
      ensures Steady(log0, log, servers0, servers, queries, stayOpen)
      ensures Fair(old(queries)[x], servers0, log0, log, x, |old(hist)[x].fates|, hist[x], nservers, false)
    {
      hide ListsOk, HistoryOk, ServersOk, QueryBase, Linked, Moved, Unlink, ConfigOk, Within, Affordable, Newer, LogOk;
      hide Fair, Attempted, Settled, Steady, Opened, AllDetached, AllWhole, RanOut, AllClosed;
      ghost var servers1, log1, q0, r0 := servers, log, queries[x], hist[x];
      assert log[|log0|] == NoRoom(x);
      EndQuery(x, NoMemory, loose);
      EndingAttempted(log1, log, queries, x);
      AttemptedAfter(log0, NoRoom(x), log, queries, x);
      EndedSettled(servers1, servers, old(wires), wires, old(generation), generation, queries, x, stayOpen);
      SettledAfter(servers0, servers1, servers, old(wires), wires, old(generation), generation, queries, x, stayOpen);
      OpenedNewer(servers0, servers1);
      NewerTwice(servers0, servers1, servers);
      assert log1[..|log0|] == log0;
      OpenedSteady(log0, log1, servers0, servers1, old(queries), stayOpen);
      SteadyTwice(log0, log1, log, servers0, servers1, servers, old(queries), queries, stayOpen);
      FairNone(q0, servers0, log0, log, x, r0, nservers, false);
      FairFates(q0, servers0, log0, log, x, r0, hist[x], nservers, false);
    }

    /** The query, which was as in `q0` and `r0`, is on the wire: it waits, with its deadline, for a random part of the
        doubled timeout. */
    method Await(x: Id, now: TimeVal, random: nat, ghost loose: set<Id>, ghost q0: Query, ghost servers0: seq<Server>,
        ghost wires0: seq<Wire>, ghost r0: Record, ghost log0: seq<Event>)
      requires Inv(loose) && x in queries && x in loose && x in hist && nservers > 0 && random < 8
      requires OnCourse(queries[x], hist[x], nservers, tries) && |hist[x].fates| == queries[x].attempt + 1
      requires Within(hist[x], queries[x].attempt + 1, queries[x].attempt, nservers, timeout)
      requires Unmarked(queries[x]) && |q0.info| == nservers == |servers0|
      requires queries[x] == q0.(info := queries[x].info) && Remembered(q0, queries[x]) && q0.server < |r0.visits|
      requires hist[x] == Counted(r0, q0.server, Wait(timeout, q0.attempt, nservers, random)).(fates := hist[x].fates)
      requires hist[x].fates == if |r0.fates| == q0.attempt then r0.fates + [ByWire] else r0.fates
      requires SentOn(servers0, servers, wires0, wires, queries[x], x) && WentOut(log0, log, queries[x], x)
      requires now.Normal() && now.sec >= lastTimeoutProcessed
      modifies this`queries, this`stolen, this`byTimeout, this`toServer
      ensures Inv(loose - {x}) && stolen == old(stolen) - {x} && x in queries
      ensures queries - {x} == old(queries) - {x} && MovedOn(q0, r0, queries, hist, x, now, timeout, nservers, 0)
      ensures Newer(servers0, servers) && (Mended(queries[x], servers) || BrokenAsBefore(q0, queries[x], servers0))
      ensures Placed(old(byTimeout), byTimeout, x, Deadline(queries, x))
      ensures Placed(old(toServer), toServer, x, Target(queries, x))
      ensures Attempted(log0, log, queries, x)
      ensures Settled(servers0, servers, wires0, wires, generation, generation, queries, x, stayOpen)
      ensures Steady(log0, log, servers0, servers, queries, stayOpen)
      ensures Fair(q0, servers0, log0, log, x, |r0.fates|, hist[x], nservers, true)
    {
      hide ListsOk, HistoryOk, ServersOk, QueryBase, Linked, Moved, Unlink, ConfigOk, Within, Affordable, Newer, LogOk;
      hide Fair, Attempted, Settled, Steady, SentOn, Wait, Placed, WentOut;
      ghost var q1 := queries[x];
      var timeplus := Wait(timeout, queries[x].attempt, nservers, random);
      Settle(x, now, timeplus, loose);
      SentAttempted(log0, log, q1, queries, x);
      SentSettled(servers0, servers, wires0, wires, generation, q1, queries, x, stayOpen);
      SentBegins(log0, log, q1, x);
      SentSteady(log0, log, servers0, servers, wires0, wires, q1, x, queries, stayOpen);
      SentFair(q0, servers0, log0, log, x, r0, hist[x], nservers);
    }

    /** The server of the query, which was as in `q0` and `r0`, was not reached just now. */
    method MoveOn(x: Id, now: TimeVal, ghost loose: set<Id>, ghost q0: Query, ghost servers0: seq<Server>,
        ghost r0: Record, ghost log0: seq<Event>)
      requires Inv(loose) && x in queries && x in loose && x in hist
      requires NotThere(x, q0, servers0, servers, r0, hist[x], log0, log, queries[x], nservers)
      requires OnCourse(queries[x], hist[x], nservers, tries) && |hist[x].fates| == queries[x].attempt + 1
      requires Within(hist[x], queries[x].attempt + 1, queries[x].attempt, nservers, timeout)
      requires now.Normal() && now.sec >= lastTimeoutProcessed
      modifies this`servers, this`generation, this`wires, this`queries, this`hist, this`stolen, this`log
      modifies this`allQueries, this`byQid, this`byTimeout, this`toServer
      ensures Inv(loose - {x}) && stolen == old(stolen) - {x}
      ensures queries - {x} == old(queries) - {x} && hist - {x} == old(hist) - {x}
      ensures MovedOn(q0, r0, queries, hist, x, now, timeout, nservers, 0)
      ensures Newer(servers0, servers)
      ensures x in queries ==> Mended(queries[x], servers)
      ensures Placed(old(byTimeout), byTimeout, x, Deadline(queries, x))
      ensures Placed(old(toServer), toServer, x, Target(queries, x))
      ensures Attempted(log0, log, queries, x)
      ensures Settled(servers0, servers, old(wires), wires, old(generation), generation, queries, x, stayOpen)
      ensures Steady(log0, log, servers0, servers, queries, stayOpen)
      ensures Fair(q0, servers0, log0, log, x, |r0.fates|, hist[x], nservers, x in queries)
      decreases nservers * tries - queries[x].attempt, 1
    {
      hide ListsOk, HistoryOk, ServersOk, QueryBase, Linked, Moved, Unlink, ConfigOk, Within, Affordable, Newer, Mended;
      hide LogOk, Fair, Attempted, Settled, Placed, MovedOn, NotThere, OnCourse;
      ghost var q1, servers1, r1, log1 := queries[x], servers, hist[x], log;
      NextServer(x, now, loose);
      MovedBefore(x, q0, servers0, servers1, r0, r1, log0, log1, q1, queries, hist, now, timeout, nservers);
      FairBefore(x, q0, servers0, servers1, r0, r1, log0, log1, log, q1, hist[x], nservers, x in queries);
      AttemptedBefore(x, q0, servers0, servers1, r0, r1, log0, log1, log, q1, queries, nservers);
      SettledBefore(x, q0, servers0, servers1, servers, r0, r1, log0, log1, log, q1, old(wires), wires, old(generation),
          generation, old(queries), queries, stayOpen, nservers);
    }

    /** Notes why server `s` is not used for the attempt that the query has come to. */
    ghost method PassOver(x: Id, s: nat, loose: set<Id>)
      requires Inv(loose) && x in queries && x in loose && x in hist && s < |servers| && s < |queries[x].info|
      requires !Usable(queries[x], servers[s], s) && nservers > 0 && s == (hist[x].first + |hist[x].fates|) % nservers
      modifies this`hist
      ensures Inv(loose) && x in old(hist) && x in hist && |hist[x].fates| == |old(hist)[x].fates| + 1
      ensures var f := hist[x].fates[|old(hist)[x].fates|];
              && hist == old(hist)[x := old(hist)[x].(fates := old(hist)[x].fates + [f])]
              && f != ByWire && f != NotReached && Excused(queries[x], servers[s], s, f, false)
    {
      hide ListsOk, ServersOk, HistoryOk, LogOk, Affordable, Within, RecordOk, Trouble, QueueOk, StreamOk;
      InHistory(queries, hist, nextId, nservers, tries, timeout, lastTimeoutProcessed, loose, x);
      LogLive(log, servers, wires, queries, hist, nservers, tries, Rulebook(), x);
      ServersAt(servers, wires, queries, s);
      var r, q := hist[x], queries[x];
      var f := Reason(log, servers, wires, queries, hist, nservers, tries, Rulebook(), x, s);
      RecordPassed(log, x, r, nservers, f, Rulebook());
      var r1 := r.(fates := r.fates + [f]);
      BaseFates(q, r, r1.fates, nservers, tries, timeout);
      LogRecord(log, servers, wires, queries, hist, nservers, tries, Rulebook(), x, r1);
      HistoryLoosen(queries, hist, nextId, nservers, tries, timeout, lastTimeoutProcessed, loose, x, q, r1);
      assert queries[x := q] == queries && loose + {x} == loose;
      hist := hist[x := r1];
    }

    /** next_server: tries the servers in turn until the attempts are used up. Each attempt after the present one is
        made, or its server could not be reached, is marked broken or to be skipped, or was sent the query on this very
        connection; only when this holds of all attempts is the query given up. */
    method NextServer(x: Id, now: TimeVal, ghost loose: set<Id>)
      requires Inv(loose) && x in queries && x in loose && x in hist
      requires OnCourse(queries[x], hist[x], nservers, tries) && |hist[x].fates| == queries[x].attempt + 1
      requires Within(hist[x], queries[x].attempt + 1, queries[x].attempt, nservers, timeout)
      requires now.Normal() && now.sec >= lastTimeoutProcessed
      modifies this`servers, this`generation, this`wires, this`queries, this`hist, this`stolen, this`log
      modifies this`allQueries, this`byQid, this`byTimeout, this`toServer
      ensures Inv(loose - {x}) && stolen == old(stolen) - {x}
      ensures Outcome(old(queries), old(hist), queries, hist, x, now, timeout, nservers, 1)
      ensures Newer(old(servers), servers)
      ensures x in queries ==> Mended(queries[x], servers)
      ensures Placed(old(byTimeout), byTimeout, x, Deadline(queries, x))
      ensures Placed(old(toServer), toServer, x, Target(queries, x))
      ensures Attempted(old(log), log, queries, x)
      ensures Settled(old(servers), servers, old(wires), wires, old(generation), generation, queries, x, stayOpen)
      ensures Steady(old(log), log, old(servers), servers, queries, stayOpen)
      ensures Fair(old(queries)[x], old(servers), old(log), log, x, |old(hist)[x].fates|, hist[x], nservers,
                   x in queries)
      decreases nservers * tries - queries[x].attempt, 0
    {
      hide ListsOk, HistoryOk, ServersOk, QueryBase, Linked, Moved, Unlink, ConfigOk, Within, Affordable, Wait, Newer;
      hide LogOk, Fair, Attempted, Settled, Carried, Excused, Placed, Steady, Sendable, MovedOn, Usable, Mended;
      SizesOf(x, loose);
      ghost var q0, r0 := queries[x], hist[x];
      NextAttempt(x, loose);
      FairNone(q0, servers, log, log, x, r0, nservers, false);
      var found, s := NextUsable(x, loose, q0, r0);
      if found {
        TryNow(x, s, now, loose, q0, r0);
      } else {
        GiveUp(x, now, loose, q0, r0);
      }
    }

    /** The query has come to an attempt beyond its last one, which it was at in `q0` and `r0`; all in between are
        passed over for good reasons. */
    ghost predicate Turning(x: Id, loose: set<Id>, q0: Query, r0: Record)
      reads this
    {
      && Inv(loose) && x in queries && x in hist && nservers > 0 && |q0.info| == nservers
      && queries[x] == q0.(attempt := queries[x].attempt, server := queries[x].server)
      && hist[x] == r0.(fates := hist[x].fates) && r0.fates <= hist[x].fates
      && q0.attempt < queries[x].attempt == |hist[x].fates| <= MaxAttempts(nservers, tries)
      && Fair(q0, servers, log, log, x, |r0.fates|, hist[x], nservers, false)
    }

    /** The loop of next_server, up to the first server that can be used. */
    method NextUsable(x: Id, ghost loose: set<Id>, ghost q0: Query, ghost r0: Record) returns (found: bool, s: nat)
      requires Turning(x, loose, q0, r0) && x in loose
      requires queries[x].server == (r0.first + (queries[x].attempt - 1)) % nservers
      modifies this`queries, this`hist
      ensures Turning(x, loose, q0, r0)
      ensures queries - {x} == old(queries) - {x} && hist - {x} == old(hist) - {x}
      ensures found ==>
                && s == queries[x].server == (r0.first + queries[x].attempt) % nservers
                && queries[x].attempt < nservers * tries
                && s < |servers| && s < |queries[x].info| && Usable(queries[x], servers[s], s)
      ensures !found ==> |hist[x].fates| == MaxAttempts(nservers, tries)
    {
      hide ListsOk, HistoryOk, ServersOk, QueryBase, ConfigOk, LogOk, Fair, Usable, Excused;
      s := 0;
      while queries[x].attempt < nservers * tries
        invariant Turning(x, loose, q0, r0)
        invariant queries - {x} == old(queries) - {x} && hist - {x} == old(hist) - {x}
        invariant queries[x].server == (r0.first + (queries[x].attempt - 1)) % nservers
        decreases nservers * tries - queries[x].attempt
      {
        s := TurnToNext(x, loose);
        if Usable(queries[x], servers[s], s) {
          return true, s;
        }
        PassBy(x, s, loose, q0, r0);
      }
      found := false;
    }

    /** The server is not used, and the next attempt is up. */
    method PassBy(x: Id, s: nat, ghost loose: set<Id>, ghost q0: Query, ghost r0: Record)
      requires Turning(x, loose, q0, r0) && x in loose && queries[x].attempt < nservers * tries
      requires s == queries[x].server == (r0.first + queries[x].attempt) % nservers
      requires s < |servers| && s < |queries[x].info| && !Usable(queries[x], servers[s], s)
      modifies this`queries, this`hist
      ensures Turning(x, loose, q0, r0)
      ensures queries == old(queries)[x := old(queries)[x].(attempt := old(queries)[x].attempt + 1)]
      ensures hist - {x} == old(hist) - {x}
    {
      hide ListsOk, HistoryOk, ServersOk, QueryBase, ConfigOk, LogOk, Fair, Usable, Excused;
      ghost var r1 := hist[x];
      PassOver(x, s, loose);
      FairAgain(q0, queries[x], servers, log, x, |r0.fates|, r1, hist[x], nservers, s);
      NextAttempt(x, loose);
    }

    /** The query, which was as in `q0` and `r0` at its last attempt, is sent to a usable server. */
    method TryNow(x: Id, s: nat, now: TimeVal, ghost loose: set<Id>, ghost q0: Query, ghost r0: Record)
      requires Inv(loose) && x in queries && x in loose && x in hist && nservers > 0
      requires s < |servers| && s < |queries[x].info| && Usable(queries[x], servers[s], s)
      requires queries[x] == q0.(attempt := queries[x].attempt, server := s) && |q0.info| == nservers
      requires hist[x] == r0.(fates := hist[x].fates) && r0.fates <= hist[x].fates
      requires q0.attempt < queries[x].attempt == |hist[x].fates| && queries[x].attempt < nservers * tries
      requires s == (r0.first + queries[x].attempt) % nservers
      requires Within(r0, q0.attempt + 1, q0.attempt, nservers, timeout)
      requires Fair(q0, servers, log, log, x, |r0.fates|, hist[x], nservers, false)
      requires now.Normal() && now.sec >= lastTimeoutProcessed
      modifies this`servers, this`generation, this`wires, this`queries, this`hist, this`stolen, this`log
      modifies this`allQueries, this`byQid, this`byTimeout, this`toServer
      ensures Inv(loose - {x}) && stolen == old(stolen) - {x}
      ensures queries - {x} == old(queries) - {x} && hist - {x} == old(hist) - {x}
      ensures MovedOn(q0, r0, queries, hist, x, now, timeout, nservers, 1)
      ensures Newer(old(servers), servers)
      ensures x in queries ==> Mended(queries[x], servers)
      ensures Placed(old(byTimeout), byTimeout, x, Deadline(queries, x))
      ensures Placed(old(toServer), toServer, x, Target(queries, x))
      ensures Attempted(old(log), log, queries, x)
      ensures Settled(old(servers), servers, old(wires), wires, old(generation), generation, queries, x, stayOpen)
      ensures Steady(old(log), log, old(servers), servers, queries, stayOpen)
      ensures Fair(q0, old(servers), old(log), log, x, |r0.fates|, hist[x], nservers, x in queries)
      decreases nservers * tries - queries[x].attempt, 3
    {
      hide ListsOk, HistoryOk, ServersOk, QueryBase, Linked, Moved, Unlink, ConfigOk, Within, Affordable, Newer, Mended;
      hide LogOk, Fair, Attempted, Settled, Carried, Placed, Steady, Sendable, MovedOn, Usable, BrokenAsBefore;
      WithinMore(r0, q0.attempt + 1, q0.attempt, queries[x].attempt, queries[x].attempt, nservers, timeout);
      WithinFates(r0, hist[x].fates, queries[x].attempt, queries[x].attempt, nservers, timeout);
      UsableSendable(x, s);
      ghost var q1, r1, servers1, log1 := queries[x], hist[x], servers, log;
      SendQuery(x, now, loose);
      MovedLater(q0, q1, r0, r1, queries, hist, x, now, timeout, nservers);
      AttemptedInner(log1, log, queries, x);
      FairLater(q0, q1, servers1, log1, log, x, r0, r1, hist[x], nservers, x in queries);
      UsableMended(q1, queries, x, servers1, servers, s);
    }

    /** All attempts of the query, which was as in `q0` and `r0` at its last one, have been made or passed over. */
    method GiveUp(x: Id, now: TimeVal, ghost loose: set<Id>, ghost q0: Query, ghost r0: Record)
      requires Inv(loose) && x in queries && x in loose && x in hist && nservers > 0
      requires queries[x] == q0.(attempt := queries[x].attempt, server := queries[x].server)
      requires hist[x] == r0.(fates := hist[x].fates) && r0.fates <= hist[x].fates
      requires |hist[x].fates| == MaxAttempts(nservers, tries)
      requires Fair(q0, servers, log, log, x, |r0.fates|, hist[x], nservers, false)
      modifies this`servers, this`generation, this`wires, this`queries, this`hist, this`stolen, this`log
      modifies this`allQueries, this`byQid, this`byTimeout, this`toServer
      ensures Inv(loose - {x}) && stolen == old(stolen) - {x} && x !in queries
      ensures queries - {x} == old(queries) - {x} && hist - {x} == old(hist) - {x}
      ensures MovedOn(q0, r0, queries, hist, x, now, timeout, nservers, 1)
      ensures Newer(old(servers), servers)
      ensures Placed(old(byTimeout), byTimeout, x, None) && Placed(old(toServer), toServer, x, None)
      ensures Attempted(old(log), log, queries, x)
      ensures Settled(old(servers), servers, old(wires), wires, old(generation), generation, queries, x, stayOpen)
      ensures Steady(old(log), log, old(servers), servers, queries, stayOpen)
      ensures Fair(q0, old(servers), old(log), log, x, |r0.fates|, hist[x], nservers, false)
    {
      hide ListsOk, HistoryOk, ServersOk, QueryBase, Linked, Moved, Unlink, ConfigOk, Within, Affordable, Newer, LogOk;
      hide Fair, Attempted, Settled, Steady, AllDetached, AllWhole, RanOut, AllClosed, Ending, Explained;
      AllTried(x, loose);
      ghost var servers1, log1, r1 := servers, log, hist[x];
      NoSuccess(x, loose);
      EndQuery(x, queries[x].error, loose);
      EndingAttempted(log1, log, queries, x);
      EndedSettled(servers1, servers, old(wires), wires, old(generation), generation, queries, x, stayOpen);
      EndingPlain(log1, log, x);
      EndedFair(q0, servers1, log1, log, x, r0, r1, nservers);
      FairSame(q0, servers1, log1, log, x, |r0.fates|, r1, hist[x], nservers);
    }

    /** The error of a query is none of the other reasons to end. */
    lemma NoSuccess(x: Id, loose: set<Id>)
      requires Inv(loose) && x in queries
      ensures queries[x].error == TimedOutStatus || queries[x].error == ConnectionRefused
    {
      hide ListsOk, HistoryOk, ServersOk, LogOk;
      InHistory(queries, hist, nextId, nservers, tries, timeout, lastTimeoutProcessed, loose, x);
    }

    /** The record of a query all of whose attempts have been made or passed over. */
    lemma AllTried(x: Id, loose: set<Id>)
      requires Inv(loose) && x in queries && x in hist && |hist[x].fates| == MaxAttempts(nservers, tries)
      ensures Explained(log, x, hist[x].(callbacks := [queries[x].error]), nservers, tries, Rulebook())
    {
      hide ListsOk, HistoryOk, ServersOk, LogOk, RecordOk, InfoOk;
      InHistory(queries, hist, nextId, nservers, tries, timeout, lastTimeoutProcessed, loose, x);
      LogLive(log, servers, wires, queries, hist, nservers, tries, Rulebook(), x);
    }

    lemma SizesOf(x: Id, loose: set<Id>)
      requires Inv(loose) && x in queries
      ensures |queries[x].info| == nservers == |servers| == |wires| && nservers > 0
    {
      hide ListsOk, HistoryOk, ServersOk, LogOk;
      InHistory(queries, hist, nextId, nservers, tries, timeout, lastTimeoutProcessed, loose, x);
      ServersSizes(servers, wires, queries);
    }

    method NextAttempt(x: Id, ghost loose: set<Id>)
      requires Inv(loose) && x in queries && x in loose
      modifies this`queries
      ensures Inv(loose) && queries == old(queries)[x := old(queries)[x].(attempt := old(queries)[x].attempt + 1)]
    {
      hide ListsOk, HistoryOk, ServersOk, QueryBase, LogOk, InfoOk;
      InHistory(queries, hist, nextId, nservers, tries, timeout, lastTimeoutProcessed, loose, x);
      BaseMoves(queries[x], hist[x], nservers, tries, timeout);
      LogLive(log, servers, wires, queries, hist, nservers, tries, Rulebook(), x);
      var q := queries[x].(attempt := queries[x].attempt + 1);
      InfoSame(log, x, queries[x], q, hist[x].message, Rulebook());
      Rewrite(x, q, loose);
    }

    /** Moves on to the next server. */
    method TurnToNext(x: Id, ghost loose: set<Id>) returns (s: nat)
      requires Inv(loose) && x in queries && x in loose && queries[x].attempt > 0
      requires queries[x].server == (hist[x].first + (queries[x].attempt - 1)) % nservers
      modifies this`queries
      ensures Inv(loose) && queries == old(queries)[x := old(queries)[x].(server := s)]
      ensures x in queries && x in hist && s == (hist[x].first + queries[x].attempt) % nservers
      ensures s < |servers| && s < |queries[x].info|
    {
      hide ListsOk, HistoryOk, ServersOk, QueryBase, LogOk, InfoOk;
      InHistory(queries, hist, nextId, nservers, tries, timeout, lastTimeoutProcessed, loose, x);
      s := (queries[x].server + 1) % nservers;
      NextIndex(hist[x].first + (queries[x].attempt - 1), nservers);
      BaseMoves(queries[x], hist[x], nservers, tries, timeout);
      LogLive(log, servers, wires, queries, hist, nservers, tries, Rulebook(), x);
      var q := queries[x].(server := s);
      InfoSame(log, x, queries[x], q, hist[x].message, Rulebook());
      Rewrite(x, q, loose);
    }

    lemma InvLoosen(x: Id)
      requires Inv({})
      ensures Inv({x})
    {
      hide Linked, Waiting, QueryBase, ServersOk, LogOk;
      ListsLoosen(allQueries, byQid, byTimeout, toServer, queries, stolen, {}, {x});
      assert {} + {x} == {x};
    }

    lemma LongEnough()
      requires ConfigOk()
      ensures nservers > 0 && timeout >= 2 && |servers| == nservers
    {
    }

    /** The list that HandleError walks holds the stolen queries. */
    lemma WalkedList()
      requires Inv({})
      ensures nservers > 0 && |toServer| == nservers + 1 && NoDup(toServer[nservers])
      ensures stolen <= queries.Keys && forall x :: x in toServer[nservers] <==> x in stolen
    {
      hide Linked, Waiting, ServersOk, LogOk;
      LinkedNoDup(toServer, ServerKey(queries, stolen, nservers), {}, nservers);
      forall x | x in toServer[nservers] ensures x in stolen {
        InHistory(queries, hist, nextId, nservers, tries, timeout, lastTimeoutProcessed, {}, x);
      }
      forall x | x in stolen ensures x in toServer[nservers] {
        ListsFind(allQueries, byQid, byTimeout, toServer, queries, stolen, {}, x);
      }
    }

    /** Swaps the list of server `w` with the empty list that is going to be walked. */
    method Steal(w: nat)
      requires Inv({}) && stolen == {} && w < nservers
      modifies this`toServer, this`stolen
      ensures Inv({}) && stolen == QueriesTo(queries, w)
    {
      hide ListsOk, ServersOk, Waiting, LogOk;
      forall x | x in queries ensures queries[x].server < nservers {
        InHistory(queries, hist, nextId, nservers, tries, timeout, lastTimeoutProcessed, {}, x);
      }
      hide HistoryOk;
      ListsSteal(allQueries, byQid, byTimeout, toServer, queries, w);
      toServer := Swap(toServer, nservers, w);
      stolen := QueriesTo(queries, w);
    }

    /** Moves a waiting query away from the server that gave trouble. */
    method MoveAway(x: Id, now: TimeVal)
      requires Inv({}) && x in queries && x in hist
      requires Trouble(log, x, queries[x].server, hist[x].message, Rulebook())
      requires now.Normal() && now.sec >= lastTimeoutProcessed
      modifies this`servers, this`generation, this`wires, this`queries, this`hist, this`stolen, this`log
      modifies this`allQueries, this`byQid, this`byTimeout, this`toServer
      ensures Inv({}) && stolen == old(stolen) - {x} && x in old(hist)
      ensures queries - {x} == old(queries) - {x} && hist - {x} == old(hist) - {x}
      ensures var q := old(queries)[x];
              && q.server < |q.info|
              && MovedOn(Marked(q, q.server, nservers), old(hist)[x], queries, hist, x, now, timeout, nservers, 1)
      ensures Placed(old(byTimeout), byTimeout, x, Deadline(queries, x))
      ensures Placed(old(toServer), toServer, x, Target(queries, x))
      ensures x in queries ==> queries[x].server < nservers
      ensures Newer(old(servers), servers) && Attempted(old(log), log, queries, x)
      ensures Inner(old(log), log) && Steady(old(log), log, old(servers), servers, queries, stayOpen)
    {
      hide ListsOk, HistoryOk, ServersOk, LogOk, QueryBase, Linked, Moved, Unlink, Within, Settled, Fair, Trouble;
      hide Attempted, Steady;
      InHistory(queries, hist, nextId, nservers, tries, timeout, lastTimeoutProcessed, {}, x);
      BaseKeeps(queries[x], hist[x], nservers, tries, timeout);
      InvLoosen(x);
      SkipServer(x, queries[x].server, {x});
      NextServer(x, now, {x});
      AttemptedInner(old(log), log, queries, x);
      assert {x} - {x} == {};
      if x in queries {
        InHistory(queries, hist, nextId, nservers, tries, timeout, lastTimeoutProcessed, {}, x);
        BaseKeeps(queries[x], hist[x], nservers, tries, timeout);
      }
    }

    /** One turn of the walk: takes the next node in hand and moves the first query of the stolen list on. */
    method MoveFirst(w: nat, x: Id, now: TimeVal, ghost qs: Queries, ghost h: map<Id, Record>, ghost due: set<Id>)
        returns (node: Option<Id>)
      requires Inv({}) && |toServer| == nservers + 1 && Some(x) == First(toServer[nservers])
      requires now.Normal() && now.sec >= lastTimeoutProcessed
      requires stolen <= due && due == QueriesTo(qs, w) && Reset(w) in log
      requires Progress(qs, h, queries, hist, MarkedAll(qs, w, nservers), due - stolen, now, timeout, nservers)
      modifies this`servers, this`generation, this`wires, this`queries, this`hist, this`stolen, this`log
      modifies this`allQueries, this`byQid, this`byTimeout, this`toServer
      ensures Inv({}) && |toServer| == nservers + 1 && node == First(toServer[nservers]) && stolen <= due
      ensures Progress(qs, h, queries, hist, MarkedAll(qs, w, nservers), due - stolen, now, timeout, nservers)
      ensures |toServer[nservers]| < |old(toServer)[nservers]| && Newer(old(servers), servers)
      ensures queries.Keys <= old(queries).Keys && old(queries) != map[]
      ensures Inner(old(log), log) && Steady(old(log), log, old(servers), servers, queries, stayOpen)
    {
      hide ListsOk, HistoryOk, ServersOk, LogOk, QueryBase, Linked, Moved, Unlink, MovedOn, Progress, Placed, Drop;
      hide Waiting, NoDup, Next, Carried, Outcome, ConfigOk, Closed, Steady, Inner, Attempted;
      WalkedList();
      ghost var list, qs1, h1, rest := toServer[nservers], queries, hist, due - stolen;
      NextAt(list, 0);
      DropAt(list, 0);
      node := Next(toServer[nservers], x);
      StillThere(qs, h, qs1, h1, MarkedAll(qs, w, nservers), rest, x, now, timeout, nservers);
      assert queries[x].server == w;
      InHistory(queries, hist, nextId, nservers, tries, timeout, lastTimeoutProcessed, {}, x);
      ghost var lists := toServer;
      MoveAway(x, now);
      FewerKeys(qs1, queries, x);
      PlacedAt(lists, toServer, x, Target(queries, x), nservers);
      MarkedAt(qs, w, nservers, x);
      ProgressStep(qs, h, qs1, h1, queries, hist, Marked(qs[x], w, nservers), MarkedAll(qs, w, nservers), rest, x, now,
          timeout, nservers);
      assert due - stolen == rest + {x};
    }

    /** The first part of handle_error. */
    method CloseReset(w: nat)
      requires Inv({}) && w < nservers
      modifies this`servers, this`generation, this`wires, this`log
      ensures Inv({}) && log == old(log) + [Reset(w)]
      ensures |old(servers)| == nservers && servers == old(servers)[w := Closed(old(servers)[w], generation)]
      ensures Newer(old(servers), servers)
              && (old(servers)[w].tcpOpen ==> servers[w].generation > old(servers)[w].generation)
      ensures Steady(old(log), log, old(servers), servers, queries, stayOpen)
    {
      hide ListsOk, HistoryOk, ServersOk, LogOk;
      LogMore(log, Reset(w), servers, wires, queries, hist, nservers, tries, Rulebook());
      log := log + [Reset(w)];
      CloseSockets(w, {});
      ResetSteady(old(log), old(servers), servers, w, queries, stayOpen);
    }

    /** handle_error: closes the connections of server `w` and moves every query that waits for it on to another one. */
    method HandleError(w: nat, now: TimeVal)
      requires Inv({}) && stolen == {} && w < nservers
      requires now.Normal() && now.sec >= lastTimeoutProcessed
      modifies this`servers, this`generation, this`wires, this`queries, this`hist, this`stolen, this`log
      modifies this`allQueries, this`byQid, this`byTimeout, this`toServer
      ensures Inv({}) && stolen == {} && toServer[nservers] == []
      ensures Progress(old(queries), old(hist), queries, hist, MarkedAll(old(queries), w, nservers),
              QueriesTo(old(queries), w),
                       now, timeout, nservers)
      ensures nservers > 1 ==> forall x :: x in queries && x in QueriesTo(old(queries), w) ==> queries[x].server != w
      ensures Newer(old(servers), servers) && Since(old(log), log, Reset(w)) && queries.Keys <= old(queries).Keys
      ensures old(servers)[w].tcpOpen ==> servers[w].generation > old(servers)[w].generation
      ensures Inner(old(log), log) && Steady(old(log), log, old(servers), servers, queries, stayOpen)
      ensures Onward(old(queries), old(hist), queries, hist) && NoneLate(old(queries), queries, now)
    {
      hide ListsOk, HistoryOk, ServersOk, LogOk, QueryBase, Linked, Moved, Unlink, MovedOn, Progress, Placed, Drop;
      hide Waiting;
      hide NoDup, Next, Carried, Outcome, ConfigOk, Closed, Newer, Onward, NoneLate, Alike, MarkedAll, Steady, Inner;
      hide Since;
      CloseReset(w);
      ghost var closed, log1 := servers, log;
      InnerSame(log1);
      NewerSame(closed);
      forall x | x in queries ensures |queries[x].info| == nservers {
        InHistory(queries, hist, nextId, nservers, tries, timeout, lastTimeoutProcessed, {}, x);
        BaseKeeps(queries[x], hist[x], nservers, tries, timeout);
      }
      Steal(w);
      ghost var due := stolen;
      NoProgress(queries, hist, nextId, nservers, tries, timeout, lastTimeoutProcessed, now);
      assert due - stolen == {};
      WalkedList();
      var node := First(toServer[nservers]);
      while node.Some?
        invariant Inv({}) && |toServer| == nservers + 1 && node == First(toServer[nservers]) && stolen <= due
        invariant due == QueriesTo(old(queries), w) && Newer(closed, servers) && Reset(w) in log
        invariant queries.Keys <= old(queries).Keys && Inner(log1, log)
        invariant Steady(old(log), log, old(servers), servers, queries, stayOpen)
        invariant Progress(old(queries), old(hist), queries, hist, MarkedAll(old(queries), w, nservers), due - stolen,
                  now, timeout, nservers)
        decreases |toServer[nservers]|
      {
        ghost var before, log2, qs2 := servers, log, queries;
        node := MoveFirst(w, node.value, now, old(queries), old(hist), due);
        NewerTwice(closed, before, servers);
        InnerTwice(log1, log2, log);
        InnerIn(log2, log, Reset(w));
        SteadyTwice(old(log), log2, log, old(servers), before, servers, qs2, queries, stayOpen);
      }
      ResetSince(old(log), log1, log, w);
      WalkedList();
      assert toServer[nservers] == [];
      assert stolen == {} by { assert forall x :: x in stolen <==> x in toServer[nservers]; }
      assert due - stolen == due;
      NewerAt(closed, servers, w);
      NewerTwice(old(servers), closed, servers);
      forall x | nservers > 1 && x in queries && x in due ensures queries[x].server != w {
        NotSentBack(old(queries), old(hist), queries, hist, due, x, w, now, timeout, nservers);
      }
      LongEnough();
      BasesAlike(old(queries), w, nservers);
      ProgressOnward(old(queries), old(hist), queries, hist, MarkedAll(old(queries), w, nservers), due, now, timeout,
          nservers);
      ProgressNoneLate(old(queries), old(hist), queries, hist, MarkedAll(old(queries), w, nservers), due, now, timeout,
          nservers);
    }

    /** The query's time is up: notes that and moves it on. */
    method TimeOut(x: Id, now: TimeVal)
      requires Inv({}) && stolen == {} && x in queries
      requires now.Normal() && now.sec >= lastTimeoutProcessed
      modifies this`servers, this`generation, this`wires, this`queries, this`hist, this`stolen, this`log
      modifies this`allQueries, this`byQid, this`byTimeout, this`toServer
      ensures Inv({}) && stolen == {} && x in old(hist)
      ensures queries - {x} == old(queries) - {x} && hist - {x} == old(hist) - {x}
      ensures MovedOn(Overdue(old(queries)[x]), old(hist)[x], queries, hist, x, now, timeout, nservers, 1)
      ensures Placed(old(byTimeout), byTimeout, x, Deadline(queries, x)) && Newer(old(servers), servers)
      ensures Attempted(old(log) + [CameDue(x)], log, queries, x)
      ensures Inner(old(log), log) && Steady(old(log), log, old(servers), servers, queries, stayOpen)
    {
      hide ListsOk, HistoryOk, ServersOk, LogOk, Linked, Moved, Unlink, Placed, Within, Settled, Fair, Attempted;
      hide Steady;
      NoteDue(x);
      ghost var log1, qs1 := log, queries;
      InvLoosen(x);
      NextServer(x, now, {x});
      AttemptedInner(log1, log, queries, x);
      InnerOne(old(log), CameDue(x));
      InnerTwice(old(log), log1, log);
      DueSteady(old(log), x, old(servers), qs1, stayOpen);
      SteadyTwice(old(log), log1, log, old(servers), old(servers), servers, qs1, queries, stayOpen);
      assert {x} - {x} == {};
    }

    /** Notes that the time of the query is up. */
    method NoteDue(x: Id)
      requires Inv({}) && x in queries
      modifies this`queries, this`log
      ensures Inv({}) && x in queries && x in hist && queries == old(queries)[x := Overdue(old(queries)[x])]
      ensures log == old(log) + [CameDue(x)]
      ensures Waiting(queries[x], hist[x], nservers, tries, timeout, lastTimeoutProcessed)
    {
      hide ListsOk, HistoryOk, ServersOk, LogOk, Within, OnCourse;
      InHistory(queries, hist, nextId, nservers, tries, timeout, lastTimeoutProcessed, {}, x);
      var q := Overdue(queries[x]);
      ListsUpdate(allQueries, byQid, byTimeout, toServer, queries, stolen, {}, x, q);
      ServersUpdate(servers, wires, queries, x, q);
      DueBase(queries[x], hist[x], nservers, tries, timeout, lastTimeoutProcessed);
      HistorySettle(queries, hist, nextId, nservers, tries, timeout, lastTimeoutProcessed, {}, x, q);
      LogDue(log, servers, wires, queries, hist, nservers, tries, Rulebook(), x, q);
      assert {} - {x} == {};
      queries := queries[x := q];
      log := log + [CameDue(x)];
    }

    /** The queries whose time is up. */
    ghost function ExpiredQueries(now: TimeVal): set<Id>
      reads this
    {
      set x | x in queries && Expired(queries[x], now)
    }

    /** What is known about bucket `b`: only live queries, each once. */
    lemma BucketList(b: nat)
      requires Inv({}) && b < TIMEOUT_TABLE_SIZE
      ensures nservers > 0 && timeout >= 2 && |byTimeout| == TIMEOUT_TABLE_SIZE && NoDup(byTimeout[b])
      ensures forall x :: x in byTimeout[b] ==> x in queries
      ensures forall x :: x in queries && Bucket(queries[x].deadline) == b ==> x in byTimeout[b]
    {
      hide Linked, HistoryOk, ServersOk, LogOk;
      LinkedNoDup(byTimeout, WheelKey(queries), {}, b);
      forall x | x in queries && Bucket(queries[x].deadline) == b ensures x in byTimeout[b] {
        ListsFind(allQueries, byQid, byTimeout, toServer, queries, stolen, {}, x);
      }
      hide ListsOk;
    }

    /** One overdue query of the bucket that is being walked moves on. */
    method TimeOutOne(x: Id, now: TimeVal, ghost qs: Queries, ghost h: map<Id, Record>, ghost due: set<Id>)
      requires Inv({}) && stolen == {} && x in queries && Expired(queries[x], now)
      requires now.Normal() && now.sec >= lastTimeoutProcessed
      requires ExpiredQueries(now) <= due <= qs.Keys
      requires Progress(qs, h, queries, hist, Overdues(qs), due - ExpiredQueries(now), now, timeout, nservers)
      modifies this`servers, this`generation, this`wires, this`queries, this`hist, this`stolen, this`log
      modifies this`allQueries, this`byQid, this`byTimeout, this`toServer
      ensures Inv({}) && stolen == {} && ExpiredQueries(now) == old(ExpiredQueries(now)) - {x}
      ensures forall y :: y in ExpiredQueries(now) ==> y in old(queries) && queries[y] == old(queries)[y]
      ensures Progress(qs, h, queries, hist, Overdues(qs), due - ExpiredQueries(now), now, timeout, nservers)
      ensures Placed(old(byTimeout), byTimeout, x, Deadline(queries, x)) && Newer(old(servers), servers)
      ensures queries.Keys <= old(queries).Keys && old(queries) != map[]
      ensures Inner(old(log), log) && Steady(old(log), log, old(servers), servers, queries, stayOpen)
    {
      hide ListsOk, HistoryOk, ServersOk, LogOk, Linked, Moved, Unlink, MovedOn, Progress, Placed, Overdues, Expired;
      hide Deadline, Overdue, Steady, Inner, Newer, Attempted;
      LongEnough();
      ghost var qs1, h1, late := queries, hist, ExpiredQueries(now);
      StillThere(qs, h, qs1, h1, Overdues(qs), due - late, x, now, timeout, nservers);
      TimeOut(x, now);
      OverduesAt(qs, x);
      ProgressStep(qs, h, qs1, h1, queries, hist, Overdue(qs1[x]), Overdues(qs), due - late, x, now, timeout, nservers);
      if x in queries {
        NotDueAgain(Overdue(qs1[x]), h1[x], queries, hist, x, now, timeout, nservers, 1);
      }
      SameElsewhere(qs1, queries, x);
      assert ExpiredQueries(now) == late - {x};
      assert due - ExpiredQueries(now) == due - late + {x};
    }

    /** What the walk over the buckets keeps. */
    ghost predicate Walking(qs0: Queries, servers0: seq<Server>, log0: seq<Event>)
      reads this
    {
      && Inv({}) && stolen == {} && queries.Keys <= qs0.Keys
      && Newer(servers0, servers) && Inner(log0, log) && Steady(log0, log, servers0, servers, queries, stayOpen)
    }

    lemma WalkingSame()
      requires Inv({}) && stolen == {}
      ensures Walking(queries, servers, log)
    {
      hide ListsOk, HistoryOk, ServersOk, LogOk, Newer, Inner, Steady;
      NewerSame(servers);
      InnerSame(log);
      SteadySame(log, servers, queries, stayOpen);
    }

    lemma WalkingTwice(qs0: Queries, servers0: seq<Server>, log0: seq<Event>, qs1: Queries, servers1: seq<Server>,
        log1: seq<Event>)
      requires Walking(qs1, servers1, log1) && qs1.Keys <= qs0.Keys
      requires Newer(servers0, servers1) && Inner(log0, log1) && Steady(log0, log1, servers0, servers1, qs1, stayOpen)
      ensures Walking(qs0, servers0, log0)
    {
      hide ListsOk, HistoryOk, ServersOk, LogOk, Newer, Inner, Steady, Inv;
      NewerTwice(servers0, servers1, servers);
      InnerTwice(log0, log1, log);
      SteadyTwice(log0, log1, log, servers0, servers1, servers, qs1, queries, stayOpen);
    }

    /** Walks one bucket, always with the next node in hand. A query that is sent again leaves the bucket or goes to
        its end, and is not due then. */
    method WalkBucket(b: nat, now: TimeVal, ghost qs: Queries, ghost h: map<Id, Record>, ghost due: set<Id>)
      requires Inv({}) && stolen == {} && b < TIMEOUT_TABLE_SIZE
      requires now.Normal() && now.sec >= lastTimeoutProcessed
      requires ExpiredQueries(now) <= due <= qs.Keys
      requires Progress(qs, h, queries, hist, Overdues(qs), due - ExpiredQueries(now), now, timeout, nservers)
      modifies this`servers, this`generation, this`wires, this`queries, this`hist, this`stolen, this`log
      modifies this`allQueries, this`byQid, this`byTimeout, this`toServer
      ensures Inv({}) && stolen == {}
      ensures ExpiredQueries(now) <= old(ExpiredQueries(now))
      ensures forall x :: x in ExpiredQueries(now) ==>
                x in old(queries) && queries[x] == old(queries)[x] && Bucket(queries[x].deadline) != b
      ensures Progress(qs, h, queries, hist, Overdues(qs), due - ExpiredQueries(now), now, timeout, nservers)
      ensures queries.Keys <= old(queries).Keys && Newer(old(servers), servers)
      ensures Inner(old(log), log) && Steady(old(log), log, old(servers), servers, queries, stayOpen)
    {
      hide ListsOk, HistoryOk, ServersOk, LogOk, Progress, Overdues, Expired, NoDup, Next, Steady, Inner, Newer, Inv;
      WalkingSame();
      BucketList(b);
      ghost var p: nat := 0;
      var node := First(byTimeout[b]);
      while node.Some?
        invariant Walking(old(queries), old(servers), old(log))
        invariant Late(b, p, old(queries), old(ExpiredQueries(now)), now)
        invariant node == if p < |byTimeout[b]| then Some(byTimeout[b][p]) else None
        invariant Progress(qs, h, queries, hist, Overdues(qs), due - ExpiredQueries(now), now, timeout, nservers)
        decreases ExpiredQueries(now), |byTimeout[b]| - p
      {
        BucketList(b);
        var x := node.value;
        NextAt(byTimeout[b], p);
        node := Next(byTimeout[b], x);
        if Expired(queries[x], now) {
          TimeOutHere(b, p, x, now, qs, h, due, old(queries), old(ExpiredQueries(now)), old(servers), old(log));
          p := if node == None then |byTimeout[b]| else p;
        } else {
          p := p + 1;
        }
      }
      BucketList(b);
    }

    /** The queries that are still overdue have not been touched; none of them is among the first `p` of bucket `b`. */
    ghost predicate Late(b: nat, p: nat, qs0: Queries, late: set<Id>, now: TimeVal)
      reads this
    {
      && b < |byTimeout| == TIMEOUT_TABLE_SIZE && p <= |byTimeout[b]|
      && (forall i :: 0 <= i < p ==> byTimeout[b][i] !in ExpiredQueries(now))
      && ExpiredQueries(now) <= late
      && forall x :: x in ExpiredQueries(now) ==> x in qs0 && queries[x] == qs0[x]
    }

    method TimeOutHere(b: nat, ghost p: nat, x: Id, now: TimeVal, ghost qs: Queries, ghost h: map<Id, Record>,
        ghost due: set<Id>, ghost qs0: Queries, ghost late: set<Id>, ghost servers0: seq<Server>,
        ghost log0: seq<Event>)
      requires Walking(qs0, servers0, log0) && Late(b, p, qs0, late, now) && now.Normal()
      requires now.sec >= lastTimeoutProcessed
      requires p < |byTimeout[b]| && x == byTimeout[b][p] && NoDup(byTimeout[b]) && x in queries
      requires Expired(queries[x], now)
      requires ExpiredQueries(now) <= due <= qs.Keys && nservers > 0
      requires Progress(qs, h, queries, hist, Overdues(qs), due - ExpiredQueries(now), now, timeout, nservers)
      modifies this`servers, this`generation, this`wires, this`queries, this`hist, this`stolen, this`log
      modifies this`allQueries, this`byQid, this`byTimeout, this`toServer
      ensures Walking(qs0, servers0, log0) && Late(b, p, qs0, late, now)
      ensures p < |old(byTimeout)[b]| - 1 ==> p < |byTimeout[b]| && byTimeout[b][p] == old(byTimeout)[b][p + 1]
      ensures p == |old(byTimeout)[b]| - 1 ==>
                forall i :: 0 <= i < |byTimeout[b]| ==> byTimeout[b][i] !in ExpiredQueries(now)
      ensures ExpiredQueries(now) == old(ExpiredQueries(now)) - {x}
      ensures Progress(qs, h, queries, hist, Overdues(qs), due - ExpiredQueries(now), now, timeout, nservers)
    {
      hide ListsOk, HistoryOk, ServersOk, LogOk, Progress, Overdues, Expired, NoDup, Steady, Inner, Newer, Inv;
      hide Placed, Drop;
      ghost var list, lists, qs1, servers1, log1 := byTimeout[b], byTimeout, queries, servers, log;
      TimeOutOne(x, now, qs, h, due);
      WalkingTwice(qs0, servers0, log0, qs1, servers1, log1);
      PlacedAt(lists, byTimeout, x, Deadline(queries, x), b);
      DropAt(list, p);
    }

    /** process_timeouts: walks the buckets of the seconds that have passed since the last time. */
    method ProcessTimeouts(now: TimeVal)
      requires Inv({}) && stolen == {}
      requires now.Normal() && now.sec >= lastTimeoutProcessed
      modifies this`servers, this`generation, this`wires, this`queries, this`hist, this`stolen, this`log
      modifies this`allQueries, this`byQid, this`byTimeout, this`toServer, this`lastTimeoutProcessed
      ensures Inv({}) && stolen == {} && lastTimeoutProcessed == now.sec
      ensures Progress(old(queries), old(hist), queries, hist, Overdues(old(queries)),
                       old(ExpiredQueries(now)), now, timeout, nservers)
      ensures ExpiredQueries(now) == {} && Onward(old(queries), old(hist), queries, hist)
      ensures queries.Keys <= old(queries).Keys && Newer(old(servers), servers)
      ensures Inner(old(log), log) && Steady(old(log), log, old(servers), servers, queries, stayOpen)
    {
      hide ListsOk, HistoryOk, ServersOk, LogOk, QueryBase, Linked, Moved, Unlink, MovedOn, Progress, Placed, Onward;
      hide Alike, Overdues, Steady, Inner, Newer;
      WalkingSame();
      ghost var due := ExpiredQueries(now);
      forall x | x in due ensures queries[x].deadline.sec >= lastTimeoutProcessed {
        InHistory(queries, hist, nextId, nservers, tries, timeout, lastTimeoutProcessed, {}, x);
      }
      NoProgress(queries, hist, nextId, nservers, tries, timeout, lastTimeoutProcessed, now);
      assert due - ExpiredQueries(now) == {};
      var t := lastTimeoutProcessed;
      while t <= now.sec
        invariant lastTimeoutProcessed <= t && lastTimeoutProcessed == old(lastTimeoutProcessed)
        invariant Walking(old(queries), old(servers), old(log)) && ExpiredQueries(now) <= due
        invariant Progress(old(queries), old(hist), queries, hist, Overdues(old(queries)),
                           due - ExpiredQueries(now), now, timeout, nservers)
        invariant forall x :: x in ExpiredQueries(now) ==> queries[x].deadline.sec >= t
        decreases now.sec - t
      {
        ghost var before, log1, qs1 := servers, log, queries;
        WalkBucket(t % TIMEOUT_TABLE_SIZE, now, old(queries), old(hist), due);
        WalkingTwice(old(queries), old(servers), old(log), qs1, before, log1);
        t := t + 1;
      }
      assert ExpiredQueries(now) == {};
      assert due - {} == due;
      BasesAlike(old(queries), 0, nservers);
      ProgressOnward(old(queries), old(hist), queries, hist, Overdues(old(queries)), due, now, timeout, nservers);
      WheelTurned(queries, hist, nextId, nservers, tries, timeout, lastTimeoutProcessed, now);
      lastTimeoutProcessed := now.sec;
    }

    /** process_broken_connections: queries move on only if there is something to mend. */
    method ProcessBrokenConnections(now: TimeVal)
      requires Inv({}) && stolen == {}
      requires now.Normal() && now.sec >= lastTimeoutProcessed
      modifies this`servers, this`generation, this`wires, this`queries, this`hist, this`stolen, this`log
      modifies this`allQueries, this`byQid, this`byTimeout, this`toServer
      ensures Inv({}) && stolen == {} && Newer(old(servers), servers) && queries.Keys <= old(queries).Keys
      ensures Inner(old(log), log) && Steady(old(log), log, old(servers), servers, queries, stayOpen)
      ensures Onward(old(queries), old(hist), queries, hist) && NoneLate(old(queries), queries, now)
      ensures (forall s :: 0 <= s < nservers ==> !old(servers)[s].broken) ==>
                servers == old(servers) && queries == old(queries) && hist == old(hist) && log == old(log)
      ensures forall s :: 0 <= s < nservers && old(servers)[s].broken ==>
              servers[s].generation > old(servers)[s].generation
    {
      hide ListsOk, HistoryOk, ServersOk, LogOk, Progress, Onward, NoneLate, StreamOk, Steady, Inner;
      NewerSame(servers);
      InnerSame(log);
      SteadySame(log, servers, queries, stayOpen);
      OnwardSame(queries, hist, nextId, nservers, tries, timeout, lastTimeoutProcessed, {});
      NoneLateSame(queries, now);
      ghost var all := forall s :: 0 <= s < nservers ==> !servers[s].broken;
      for i := 0 to nservers
        invariant Inv({}) && stolen == {} && Newer(old(servers), servers) && queries.Keys <= old(queries).Keys
        invariant Inner(old(log), log) && Steady(old(log), log, old(servers), servers, queries, stayOpen)
        invariant Onward(old(queries), old(hist), queries, hist) && NoneLate(old(queries), queries, now)
        invariant all ==> servers == old(servers) && queries == old(queries) && hist == old(hist) && log == old(log)
        invariant forall s :: 0 <= s < i && old(servers)[s].broken ==>
                  servers[s].generation > old(servers)[s].generation
      {
        if servers[i].broken {
          ghost var qs, h, before, log1 := queries, hist, servers, log;
          ServersAt(servers, wires, queries, i);
          HandleError(i, now);
          NewerTwice(old(servers), before, servers);
          InnerTwice(old(log), log1, log);
          SteadyTwice(old(log), log1, log, old(servers), before, servers, qs, queries, stayOpen);
          OnwardTwice(old(queries), old(hist), qs, h, queries, hist);
          NoneLateTwice(old(queries), qs, queries, now);
        }
      }
    }

    /** advance_tcp_send_queue: the socket of server `i` has taken the next `count` bytes. */
    method AdvanceSendQueue(i: nat, count: nat)
      requires Inv({}) && i < nservers && !servers[i].broken && count <= |Pending(servers[i].queue)|
      modifies this`servers, this`wires
      ensures Inv({}) && |wires| == |old(wires)| == nservers
      ensures old(Pending(servers[i].queue)) == old(Pending(servers[i].queue))[..count] + Pending(servers[i].queue)
      ensures wires == old(wires)[i := old(wires)[i].(written := old(wires)[i].written
              + old(Pending(servers[i].queue))[..count])]
      ensures servers == old(servers)[i := old(servers)[i].(queue := servers[i].queue)]
    {
      hide ListsOk, HistoryOk, ServersOk, LogOk, QueueOk, Pending, StreamOk;
      ServersAt(servers, wires, queries, i);
      ghost var was, all, taken := servers[i], Pending(servers[i].queue), [];
      var left := count;
      while left > 0
        invariant 0 <= left <= count && |taken| == count - left && wires == old(wires)
        invariant |servers| == nservers && servers == old(servers)[i := was.(queue := servers[i].queue)]
        invariant QueueOk(servers[i], i, queries) && all == taken + Pending(servers[i].queue)
        decreases left
      {
        PendingUnfold(servers[i].queue);
        var e := servers[i].queue[0];
        if left >= |e.data| {
          PopQueue(servers[i], i, queries);
          NotEmptyEntry(servers[i], i, queries);
          left := left - |e.data|;
          Regroup(taken, e.data, Pending(servers[i].queue[1..]));
          taken := taken + e.data;
          servers := servers[i := servers[i].(queue := servers[i].queue[1..])];
        } else {
          ShrinkQueue(servers[i], i, queries, left);
          Regroup(taken, e.data[..left], Pending(servers[i].queue[0 := e.(data := e.data[left..])]));
          taken := taken + e.data[..left];
          servers := servers[i := servers[i].(queue := servers[i].queue[0 := e.(data := e.data[left..])])];
          left := 0;
        }
      }
      assert taken == all[..count];
      ghost var w := wires[i].(written := wires[i].written + taken);
      StreamAdvances(was, servers[i], wires[i], taken);
      ServersReplace(old(servers), wires, queries, i, servers[i], w);
      ServersSizes(old(servers), wires, queries);
      LogServers(log, old(servers), servers, wires, queries, hist, nservers, tries, Rulebook());
      LogWire(log, servers, wires, queries, hist, nservers, tries, Rulebook(), i, w);
      wires := wires[i := w];
    }

    /** writev and swrite on the TCP socket of server `i`: how many bytes were taken, or an error. */
    method WriteSocket(i: nat, offered: nat) returns (count: int, again: bool)
      modifies this`log
      ensures count <= offered
      ensures log == old(log)
                + [if count >= 0 then Wrote(i, count) else if again then WouldBlock(i) else WriteFailed(i)]
    {
      count, again := *, *;
      count := if count <= offered then count else offered;
      log := log + [if count >= 0 then Wrote(i, count) else if again then WouldBlock(i) else WriteFailed(i)];
    }

    /** write_tcp_data for one server that is ready for writing: there is nothing to write, or the socket takes the next
        bytes, or it would block, or it fails and the queries of the server move on. */
    method WriteTcp(i: nat, now: TimeVal) returns (done: Writing)
      requires Inv({}) && stolen == {} && i < nservers
      requires now.Normal() && now.sec >= lastTimeoutProcessed
      modifies this`servers, this`generation, this`wires, this`queries, this`hist, this`stolen, this`log
      modifies this`allQueries, this`byQid, this`byTimeout, this`toServer
      ensures Inv({}) && stolen == {}
      ensures Onward(old(queries), old(hist), queries, hist) && NoneLate(old(queries), queries, now)
      ensures queries.Keys <= old(queries).Keys && Newer(old(servers), servers) && Reads(log) == Reads(old(log))
      ensures Steady(old(log), log, old(servers), servers, queries, stayOpen)
      ensures !done.Failed? ==> queries == old(queries) && hist == old(hist)
      ensures done.Idle? ==>
                && servers == old(servers) && wires == old(wires) && |servers| == nservers
                && if Writable(servers[i]) then log == old(log) + [WouldBlock(i)] else log == old(log)
      ensures done.Took? ==>
                && |old(servers)| == |old(wires)| == nservers && Writable(old(servers)[i])
                && log == old(log) + [Wrote(i, done.count)]
                && var all := old(Pending(servers[i].queue));
                   && done.count <= |all|
                   && wires == old(wires)[i := old(wires)[i].(written := old(wires)[i].written + all[..done.count])]
                   && servers == old(servers)[i := old(servers)[i].(queue := servers[i].queue)]
                   && Pending(servers[i].queue) == all[done.count..]
      ensures done.Failed? ==>
                && nservers > 0 && Since(old(log), log, WriteFailed(i)) && Since(old(log), log, Reset(i))
                && Progress(old(queries), old(hist), queries, hist, MarkedAll(old(queries), i, nservers),
                            QueriesTo(old(queries), i), now, timeout, nservers)
    {
      hide ListsOk, HistoryOk, ServersOk, LogOk, Progress, Pending, Onward, NoneLate, MarkedAll, Steady, Newer, Inner;
      hide Since, Reads;
      OnwardSame(queries, hist, nextId, nservers, tries, timeout, lastTimeoutProcessed, {});
      NoneLateSame(queries, now);
      ServersSizes(servers, wires, queries);
      NewerSame(servers);
      if servers[i].queue == [] || !servers[i].tcpOpen || servers[i].broken {
        SteadySame(log, servers, queries, stayOpen);
        return Idle;
      }
      var gotMemory: bool := *;
      // with memory for the vector everything is offered to the socket, otherwise only the first entry
      PendingUnfold(servers[i].queue);
      var offered := if gotMemory then |Pending(servers[i].queue)| else |servers[i].queue[0].data|;
      var count, again := WriteSocket(i, offered);
      NoteWriting(old(log), i);
      ghost var log1 := log;
      if count < 0 {
        if again {
          return Idle;
        }
        HandleError(i, now);
        ReadsInner(log1, log);
        SteadyTwice(old(log), log1, log, old(servers), old(servers), servers, old(queries), queries, stayOpen);
        FailedSince(old(log), log1, log, i);
        return Failed;
      }
      ghost var all := Pending(servers[i].queue);
      AdvanceSendQueue(i, count);
      TookSteady(log, old(servers), servers, i, queries, stayOpen);
      SteadyTwice(old(log), log1, log, old(servers), old(servers), servers, old(queries), queries, stayOpen);
      LaterPart(all, count, Pending(servers[i].queue));
      done := Took(count);
    }

    /** The log after writing is a log of this channel, and nothing was read. */
    lemma NoteWriting(log0: seq<Event>, i: nat)
      requires ConfigOk() && LogOk(log0, servers, wires, queries, hist, nservers, tries, Rulebook())
      requires log != [] && log == log0 + [log[|log| - 1]]
      requires var e := log[|log| - 1]; e.Wrote? || e.WouldBlock? || e.WriteFailed?
      ensures LogOk(log, servers, wires, queries, hist, nservers, tries, Rulebook()) && Reads(log) == Reads(log0)
      ensures Steady(log0, log, servers, servers, queries, stayOpen)
    {
      hide LogOk;
      var e := log[|log| - 1];
      LogMore(log0, e, servers, wires, queries, hist, nservers, tries, Rulebook());
      ReadsMore(log0, e);
      assert log[..|log0|] == log0;
    }

    /** Finds the query an answer belongs to, in the bucket of its query ID. */
    method FindQuery(abuf: seq<byte>) returns (hit: Option<Id>)
      requires Inv({}) && |abuf| >= HFIXEDSZ
      ensures hit.Some? ==> hit.value in queries && Answers(queries[hit.value], abuf)
      ensures hit == None ==> forall x :: x in queries ==> !Answers(queries[x], abuf)
    {
      hide HistoryOk, ServersOk, Linked, LogOk;
      var id := Qid(abuf);
      forall x | x in queries && queries[x].qid == id ensures x in byQid[id % QID_TABLE_SIZE] {
        ListsFind(allQueries, byQid, byTimeout, toServer, queries, stolen, {}, x);
      }
      LinkedNoDup(byQid, QidKey(queries), {}, id % QID_TABLE_SIZE);
      var list := byQid[id % QID_TABLE_SIZE];
      var i := 0;
      while i < |list|
        invariant 0 <= i <= |list|
        invariant forall j :: 0 <= j < i ==> list[j] in queries && !Answers(queries[list[j]], abuf)
      {
        var x := list[i];
        assert x in list;
        InHistory(queries, hist, nextId, nservers, tries, timeout, lastTimeoutProcessed, {}, x);
        if queries[x].qid == id && sameQuestions(queries[x].tcpbuf[2..], abuf) {
          return Some(x);
        }
        i := i + 1;
      }
      hit := None;
    }

    /** The answer carries the query's ID and its question. */
    predicate Answers(q: Query, abuf: seq<byte>)
      requires |abuf| >= 2
    {
      q.qid == Qid(abuf) && |q.tcpbuf| >= 2 && sameQuestions(q.tcpbuf[2..], abuf)
    }

    /** Sends a query again, over TCP, because the answer that came by UDP was truncated. */
    method SwitchToTcp(x: Id, now: TimeVal)
      requires Inv({}) && stolen == {} && x in queries && !queries[x].usingTcp
      requires now.Normal() && now.sec >= lastTimeoutProcessed
      modifies this`servers, this`generation, this`wires, this`queries, this`hist, this`stolen, this`log
      modifies this`allQueries, this`byQid, this`byTimeout, this`toServer
      ensures Inv({}) && stolen == {} && x in old(hist)
      ensures queries - {x} == old(queries) - {x} && hist - {x} == old(hist) - {x}
      ensures MovedOn(old(queries)[x].(usingTcp := true), old(hist)[x].(switched := true), queries, hist, x, now,
              timeout, nservers, 0)
      ensures Newer(old(servers), servers) && Attempted(old(log), log, queries, x)
      ensures Inner(old(log), log) && Steady(old(log), log, old(servers), servers, queries, stayOpen)
    {
      hide ListsOk, HistoryOk, ServersOk, LogOk, Linked, Moved, Unlink, Placed, MovedOn, Sendable, Fair, Settled;
      hide Attempted, Steady;
      UseTcp(x);
      SendQuery(x, now, {x});
      AttemptedInner(old(log), log, queries, x);
      assert {x} - {x} == {};
    }

    method UseTcp(x: Id)
      requires Inv({}) && x in queries && !queries[x].usingTcp
      modifies this`queries, this`hist
      ensures Inv({x}) && x in old(hist)
      ensures queries == old(queries)[x := old(queries)[x].(usingTcp := true)]
      ensures hist == old(hist)[x := old(hist)[x].(switched := true)]
      ensures Sendable(x)
    {
      hide ListsOk, HistoryOk, Linked, Within, Affordable, LogOk, InfoOk, RecordOk;
      InvLoosen(x);
      InHistory(queries, hist, nextId, nservers, tries, timeout, lastTimeoutProcessed, {}, x);
      var q := queries[x].(usingTcp := true);
      ghost var r := hist[x].(switched := true);
      WithinSwitched(hist[x], q.attempt, nservers, timeout);
      AffordableSwitched(hist[x], nservers, tries, timeout);
      ListsUpdate(allQueries, byQid, byTimeout, toServer, queries, stolen, {x}, x, q);
      ServersUpdate(servers, wires, queries, x, q);
      HistoryLoosen(queries, hist, nextId, nservers, tries, timeout, lastTimeoutProcessed, {x}, x, q, r);
      LogLive(log, servers, wires, queries, hist, nservers, tries, Rulebook(), x);
      InfoSame(log, x, queries[x], q, r.message, Rulebook());
      LogQuery(log, servers, wires, queries, hist, nservers, tries, Rulebook(), x, q);
      SameRecord(log, x, hist[x], r, nservers, Rulebook());
      LogRecord(log, servers, wires, queries[x := q], hist, nservers, tries, Rulebook(), x, r);
      assert {x} + {x} == {x};
      queries := queries[x := q];
      hist := hist[x := r];
    }

    /** process_answer, for a message that was read just now. Returns the query it was for. An answer that is accepted
        leaves the connections and the queued bytes of all other queries as they are, unless memory runs out. */
    method ProcessAnswer(abuf: seq<byte>, w: nat, tcp: bool, now: TimeVal) returns (ghost hit: Option<Id>)
      requires Inv({}) && stolen == {} && w < nservers
      requires log != [] && log[|log| - 1] == Arrived(w, tcp, abuf)
      requires now.Normal() && now.sec >= lastTimeoutProcessed
      modifies this`servers, this`generation, this`wires, this`queries, this`hist, this`stolen, this`log
      modifies this`allQueries, this`byQid, this`byTimeout, this`toServer
      ensures Inv({}) && stolen == {} && queries.Keys <= old(queries).Keys && Newer(old(servers), servers)
      ensures Inner(old(log), log) && Steady(old(log), log, old(servers), servers, queries, stayOpen)
      ensures hit == None ==>
                queries == old(queries) && hist == old(hist) && log == old(log) && servers == old(servers)
      ensures hit == None && |abuf| >= HFIXEDSZ ==> forall x :: x in queries ==> !Answers(queries[x], abuf)
      ensures hit.Some? ==>
                var x := hit.value;
                && |abuf| >= HFIXEDSZ && x in old(queries) && x in old(hist) && old(Answers(queries[x], abuf))
                && queries - {x} == old(queries) - {x} && hist - {x} == old(hist) - {x}
                && Answered(old(queries)[x], old(hist)[x], queries, hist, x,
                            Judge(abuf, tcp, ignoreTc, noCheckResp), w, now, timeout, nservers)
                && (Judge(abuf, tcp, ignoreTc, noCheckResp) == Acceptable && (queries != map[] || stayOpen) ==>
                      && AllDetached(old(servers), servers, x, true)
                      && wires == old(wires) && generation == old(generation)
                      && (!RanOut(old(log), log, x) ==> AllWhole(old(servers), servers)))
    {
      hide ListsOk, HistoryOk, ServersOk, LogOk, Linked, Moved, Unlink, Placed, MovedOn, Answers, QueryBase, Waiting;
      hide Within, Affordable, Trouble, Explained, Steady, Inner, Newer, AllDetached, AllWhole, RanOut, Ending;
      hide Attempted;
      NewerSame(servers);
      InnerSame(log);
      SteadySame(log, servers, queries, stayOpen);
      if |abuf| < HFIXEDSZ {
        return None;
      }
      var found := FindQuery(abuf);
      hit := found;
      if found == None {
        return;
      }
      var x := found.value;
      var verdict := Judge(abuf, tcp, ignoreTc, noCheckResp);
      InHistory(queries, hist, nextId, nservers, tries, timeout, lastTimeoutProcessed, {}, x);
      JudgedSo(x, abuf, w, tcp);
      ghost var qs := queries;
      if verdict == Truncated {
        if !queries[x].usingTcp {
          SwitchToTcp(x, now);
        }
      } else if verdict == Refused {
        if queries[x].server == w {
          MoveAway(x, now);
        } else {
          SkipServer(x, w, {});
          SteadySame(log, servers, queries, stayOpen);
        }
      } else {
        EndQuery(x, Success, {});
        EndingPlain(old(log), log, x);
        assert {} - {x} == {};
      }
      FewerKeys(qs, queries, x);
    }

    /** What the message that was read just now is a reason for. */
    lemma JudgedSo(x: Id, abuf: seq<byte>, w: nat, tcp: bool)
      requires Inv({}) && x in queries && |abuf| >= HFIXEDSZ && Answers(queries[x], abuf)
      requires log != [] && log[|log| - 1] == Arrived(w, tcp, abuf)
      ensures x in hist
      ensures Judge(abuf, tcp, ignoreTc, noCheckResp) == Refused ==> Trouble(log, x, w, hist[x].message, Rulebook())
      ensures Judge(abuf, tcp, ignoreTc, noCheckResp) == Acceptable ==>
                Explained(log, x, hist[x].(callbacks := [Success]), nservers, tries, Rulebook())
    {
      hide ListsOk, HistoryOk, ServersOk, LogOk, Waiting, Within, Affordable;
      InHistory(queries, hist, nextId, nservers, tries, timeout, lastTimeoutProcessed, {}, x);
      assert queries[x].tcpbuf[2..] == hist[x].message;
      assert Fits(abuf, hist[x].message, Rulebook());
      var i := |log| - 1;
      assert Judge(abuf, tcp, ignoreTc, noCheckResp) == Refused ==> Refuses(log[i], w, hist[x].message, Rulebook());
      assert Judge(abuf, tcp, ignoreTc, noCheckResp) == Acceptable ==> Accepts(log[i], hist[x].message, Rulebook());
    }

    /** ares_send: submits a query. It is refused for its length, or for want of memory, or it is put on the wire to the
        server whose turn it is, or to one of the next. */
    method Send(qbuf: seq<byte>, now: TimeVal) returns (x: Id)
      requires Inv({}) && stolen == {}
      requires now.Normal() && now.sec >= lastTimeoutProcessed
      modifies this`servers, this`generation, this`wires, this`queries, this`hist, this`stolen, this`log
      modifies this`allQueries, this`byQid, this`byTimeout, this`toServer, this`nextId, this`lastServer
      ensures Inv({}) && stolen == {} && x == old(nextId) && nextId == old(nextId) + 1 && x in hist
      ensures queries - {x} == old(queries) && hist - {x} == old(hist) && hist[x].message == qbuf
      ensures |qbuf| < HFIXEDSZ || |qbuf| >= 65536 ==>
                x !in queries && hist[x].callbacks == [BadQuery] && log == old(log) && servers == old(servers)
      ensures x in queries ==>
                && queries[x].tcpbuf[2..] == qbuf && queries[x].qid == Qid(qbuf) && hist[x].sends == 1
                && hist[x].since == lastTimeoutProcessed
                && queries[x].usingTcp == (useVc || |qbuf| > PACKETSZ)
                && Attempted(old(log), log, queries, x)
      ensures x !in queries && HFIXEDSZ <= |qbuf| < 65536 ==>
                || (hist[x].callbacks == [NoMemory] && NoRoom(x) in log)
                || (hist[x].callbacks == [ConnectionRefused] && |hist[x].fates| == MaxAttempts(nservers, tries))
      ensures log != old(log) + [NoRoom(x)] && HFIXEDSZ <= |qbuf| < 65536 ==>
                && hist[x].first == old(lastServer)
                && nservers > 0 && lastServer == if rotate then (old(lastServer) + 1) % nservers else old(lastServer)
      ensures Onward(old(queries), old(hist), queries, hist) && Inner(old(log), log)
    {
      hide ListsOk, HistoryOk, ServersOk, LogOk, Linked, Moved, Unlink, Placed, QueryBase, Waiting, Within;
      hide Affordable, Fresh, OnCourse, Onward, Sendable, Settled, Fair, Attempted, Steady, Inner;
      x := nextId;
      ghost var qs, h := queries, hist;
      OnwardSame(queries, hist, nextId, nservers, tries, timeout, lastTimeoutProcessed, {});
      OnwardKeys(qs, h);
      InnerSame(log);
      if |qbuf| < HFIXEDSZ || |qbuf| >= 65536 {
        Refuse(qbuf, BadQuery);
        AddedOnward(qs, h, queries, hist, x);
        return;
      }
      var gotMemory := AllocateRequest(x, {});
      if !gotMemory {
        InnerOne(old(log), NoRoom(x));
        assert log[|log| - 1] == NoRoom(x);
        Refuse(qbuf, NoMemory);
        AddedOnward(qs, h, queries, hist, x);
        return;
      }
      assert log == old(log);
      Submit(qbuf, now);
    }

    /** The part of ares_send for a query that is accepted. */
    method Submit(qbuf: seq<byte>, now: TimeVal)
      requires Inv({}) && stolen == {} && HFIXEDSZ <= |qbuf| < 65536
      requires now.Normal() && now.sec >= lastTimeoutProcessed
      modifies this`servers, this`generation, this`wires, this`queries, this`hist, this`stolen, this`log
      modifies this`allQueries, this`byQid, this`byTimeout, this`toServer, this`nextId, this`lastServer
      ensures Inv({}) && stolen == {} && nextId == old(nextId) + 1
      ensures var x := old(nextId);
              && x in hist && queries - {x} == old(queries) && hist - {x} == old(hist) && hist[x].message == qbuf
              && (x in queries ==>
                    && queries[x].tcpbuf[2..] == qbuf && queries[x].qid == Qid(qbuf) && hist[x].sends == 1
                    && hist[x].since == lastTimeoutProcessed
                    && queries[x].usingTcp == (useVc || |qbuf| > PACKETSZ))
              && (x !in queries ==>
                    || (hist[x].callbacks == [NoMemory] && NoRoom(x) in log)
                    || (hist[x].callbacks == [ConnectionRefused] && |hist[x].fates| == MaxAttempts(nservers, tries)))
              && hist[x].first == old(lastServer) && Attempted(old(log), log, queries, x)
      ensures nservers > 0 && lastServer == if rotate then (old(lastServer) + 1) % nservers else old(lastServer)
      ensures Onward(old(queries), old(hist), queries, hist) && Inner(old(log), log)
    {
      hide ListsOk, HistoryOk, ServersOk, LogOk, Linked, Moved, Unlink, Placed, QueryBase, Waiting, Within;
      hide Affordable, Fresh, OnCourse, Onward, Sendable, Settled, Fair, Attempted, Steady, Inner, ConfigOk;
      var x := nextId;
      ghost var qs, h := queries, hist;
      OnwardSame(queries, hist, nextId, nservers, tries, timeout, lastTimeoutProcessed, {});
      OnwardKeys(qs, h);
      Register(qbuf);
      SendQuery(x, now, {x});
      assert {x} - {x} == {};
      OnwardSame(queries, hist, nextId, nservers, tries, timeout, lastTimeoutProcessed, {});
      OnwardKeys(queries, hist);
      AddedOnward(qs, h, queries, hist, x);
      AttemptedInner(old(log), log, queries, x);
      WhyEnded(x);
    }

    /** What the log says about a query that has ended. */
    lemma WhyEnded(x: Id)
      requires Inv({}) && x in hist
      ensures x !in queries ==> Explained(log, x, hist[x], nservers, tries, Rulebook())
    {
      hide ListsOk, HistoryOk, ServersOk, Explained;
    }

    /** The callback for a query that is not accepted. */
    method Refuse(qbuf: seq<byte>, status: Status)
      requires Inv({}) && stolen == {}
      requires if status == BadQuery then |qbuf| < HFIXEDSZ || |qbuf| >= 65536
               else status == NoMemory && NoRoom(nextId) in log
      modifies this`hist, this`nextId
      ensures Inv({}) && nextId == old(nextId) + 1
      ensures old(nextId) !in queries && old(nextId) !in old(hist)
      ensures var r := NothingSent(0, nservers, lastTimeoutProcessed, qbuf);
              hist == old(hist)[old(nextId) := r.(callbacks := [status])]
    {
      hide ListsOk, ServersOk, Within, Affordable, OnCourse, QueryBase, Waiting, LogOk;
      assert nextId !in queries;
      ghost var r := NothingSent(0, nservers, lastTimeoutProcessed, qbuf);
      NothingSentWithin(0, nservers, lastTimeoutProcessed, qbuf, tries, timeout);
      AffordableEnds(r, [status], nservers, tries, timeout);
      LogNew(log, servers, wires, queries, hist, nservers, tries, Rulebook(), nextId, r.(callbacks := [status]));
      hist := hist[nextId := r.(callbacks := [status])];
      nextId := nextId + 1;
    }

    /** Sets the query up and puts it into the list of all queries and the bucket of its ID. */
    method Register(qbuf: seq<byte>)
      requires Inv({}) && stolen == {} && HFIXEDSZ <= |qbuf| < 65536
      modifies this`queries, this`hist, this`allQueries, this`byQid, this`nextId, this`lastServer
      ensures var x := old(nextId);
              && Inv({x}) && nextId == x + 1 && x !in old(queries) && x !in old(hist)
              && x in queries && x in hist
              && queries - {x} == old(queries) && hist - {x} == old(hist)
              && queries[x].tcpbuf[2..] == qbuf && queries[x].qid == Qid(qbuf)
              && queries[x].error == ConnectionRefused && queries[x].server == old(lastServer)
              && queries[x].attempt == 0 && queries[x].usingTcp == (useVc || |qbuf| > PACKETSZ)
              && hist[x].message == qbuf && hist[x].first == old(lastServer) && hist[x].sends == 0
              && hist[x].since == lastTimeoutProcessed && hist[x].fates == [] && Sendable(x)
              && nservers > 0 && lastServer == if rotate then (old(lastServer) + 1) % nservers else old(lastServer)
    {
      hide ListsOk, HistoryOk, ServersOk, LogOk, Linked, QueryBase, NewQuery, Within, Affordable;
      var x := nextId;
      NewId(queries, hist, nextId, nservers, tries, timeout, lastTimeoutProcessed);
      var q := NewQuery(qbuf, lastServer, nservers, useVc || |qbuf| > PACKETSZ);
      NewQueryStarts(qbuf, lastServer, nservers, useVc || |qbuf| > PACKETSZ, lastTimeoutProcessed, tries, timeout);
      FreshAt(servers, wires, queries, q);
      Enter(x, q, qbuf);
      if rotate {
        lastServer := (lastServer + 1) % nservers;
      }
    }

    /** Links a new query into the list of all queries and the bucket of its ID. */
    method Enter(x: Id, q: Query, ghost qbuf: seq<byte>)
      requires Inv({}) && stolen == {} && x == nextId && x !in queries && x !in hist
      requires QueryBase(q, NothingSent(lastServer, nservers, lastTimeoutProcessed, qbuf), nservers, tries, timeout)
      requires q.timeouts == 0 && forall s :: 0 <= s < |q.info| ==> q.info[s] == ServerInfo(false, 0)
      modifies this`queries, this`hist, this`allQueries, this`byQid, this`nextId
      ensures Inv({x}) && nextId == x + 1
      ensures queries == old(queries)[x := q]
      ensures hist == old(hist)[x := NothingSent(lastServer, nservers, lastTimeoutProcessed, qbuf)]
    {
      hide ListsOk, HistoryOk, Linked, QueryBase, Link, LogOk;
      ListsSizes(allQueries, byQid, byTimeout, toServer, queries, {}, {});
      ghost var r := NothingSent(lastServer, nservers, lastTimeoutProcessed, qbuf);
      HistoryAdd(queries, hist, nextId, nservers, tries, timeout, lastTimeoutProcessed, {}, q, r);
      ListsAdd(allQueries, byQid, byTimeout, toServer, queries, {}, x, q);
      LogNew(log, servers, wires, queries, hist, nservers, tries, Rulebook(), x, r);
      assert {} + {x} == {x};
      allQueries := allQueries + [x];
      byQid := Link(byQid, x, q.qid % QID_TABLE_SIZE);
      queries := queries[x := q];
      hist := hist[x := r];
      nextId := nextId + 1;
    }

    /** processfds: one pass over the sockets, some of which are `writable`, and on which there is `tcpIn` and `udpIn`
        to read, with arbitrary outcomes. What is there is read, unless the connection was closed or broken before its
        turn, and what is queued is offered, unless a write failed before. Afterwards nothing is overdue, a query that
        was overdue has been sent again in this pass or has had its callback, and what was broken has been replaced. */
    method ProcessFds(now: TimeVal, writable: set<nat>, tcpIn: seq<Incoming>, udpIn: seq<Incoming>)
        returns (ghost tcpServed: seq<bool>, ghost udpServed: seq<bool>)
      requires Inv({}) && stolen == {} && |tcpIn| == |udpIn| == nservers
      requires now.Normal() && now.sec >= lastTimeoutProcessed
      modifies this`servers, this`generation, this`wires, this`queries, this`hist, this`stolen, this`log
      modifies this`allQueries, this`byQid, this`byTimeout, this`toServer, this`lastTimeoutProcessed
      ensures Inv({}) && stolen == {} && lastTimeoutProcessed == now.sec && Begins(old(log), log)
      ensures Onward(old(queries), old(hist), queries, hist) && ExpiredQueries(now) == {}
      ensures forall x :: x in old(ExpiredQueries(now)) && x in queries ==>
                x in old(hist) && x in hist && hist[x].sends > old(hist)[x].sends
      ensures |tcpServed| == |udpServed| == nservers == |servers| == |old(servers)|
      ensures Reads(log) == Reads(old(log)) + ReadFromAll(tcpIn, tcpServed, true, nservers)
                            + ReadFromAll(udpIn, udpServed, false, nservers)
      ensures queries != map[] || stayOpen ==> forall i :: 0 <= i < nservers ==>
                && Served(tcpServed[i], old(servers)[i], i, true, old(log), log)
                && Served(udpServed[i], old(servers)[i], i, false, old(log), log)
      ensures forall i :: i in writable && i < nservers && Writable(old(servers)[i]) ==>
                Offered(i, old(log), log) || exists j :: Since(old(log), log, WriteFailed(j))
      ensures forall i :: 0 <= i < nservers && old(servers)[i].broken ==>
                servers[i].generation > old(servers)[i].generation
    {
      hide ListsOk, HistoryOk, ServersOk, LogOk, Progress, Answered, Answers, Onward, NoneLate, Expired, MarkedAll;
      hide Steady, Newer, Inner, Served, Offered, Since, Reads, ReadFromAll;
      ghost var qs, h, servers0, log0 := queries, hist, servers, log;
      WriteAll(now, writable);
      ghost var qs1, h1, servers1, log1 := queries, hist, servers, log;
      tcpServed := ReadAll(true, tcpIn, now);
      OnwardTwice(qs, h, qs1, h1, queries, hist);
      ghost var qs2, h2, servers2, log2 := queries, hist, servers, log;
      udpServed := ReadAll(false, udpIn, now);
      OnwardTwice(qs, h, qs2, h2, queries, hist);
      ghost var qs3, h3, servers3, log3 := queries, hist, servers, log;
      ProcessTimeouts(now);
      OnwardTwice(qs, h, qs3, h3, queries, hist);
      ghost var qs4, h4, servers4, log4 := queries, hist, servers, log;
      forall x | x in qs4 ensures !Expired(qs4[x], now) {
        assert x !in ExpiredQueries(now);
      }
      ProcessBrokenConnections(now);
      OnwardTwice(qs, h, qs4, h4, queries, hist);
      NoneLateNone(qs4, queries, now);
      forall x | x in qs && Expired(qs[x], now) && x in queries
        ensures x in h && x in hist && hist[x].sends > h[x].sends
      {
        DueWasSent(qs, h, queries, hist, x, now);
      }
      ReadsInner(log3, log4);
      ReadsInner(log4, log);
      PassServed(log0, log1, log2, log3, log4, log, servers0, servers1, servers2, servers3, servers4, servers, qs1, qs2,
          qs3, qs4, queries, stayOpen, tcpServed, udpServed);
      PassOffered(log0, log1, log2, log3, log4, log, servers0, writable);
      PassNewer(servers0, servers1, servers2, servers3, servers4, servers);
    }

    /** write_tcp_data. */
    method WriteAll(now: TimeVal, writable: set<nat>)
      requires Inv({}) && stolen == {}
      requires now.Normal() && now.sec >= lastTimeoutProcessed
      modifies this`servers, this`generation, this`wires, this`queries, this`hist, this`stolen, this`log
      modifies this`allQueries, this`byQid, this`byTimeout, this`toServer
      ensures Inv({}) && stolen == {} && queries.Keys <= old(queries).Keys && Newer(old(servers), servers)
      ensures Onward(old(queries), old(hist), queries, hist) && Reads(log) == Reads(old(log))
      ensures Steady(old(log), log, old(servers), servers, queries, stayOpen)
      ensures |servers| == |old(servers)| == nservers
      ensures forall i :: i in writable && i < nservers && Writable(old(servers)[i]) ==>
                Offered(i, old(log), log) || exists j :: Since(old(log), log, WriteFailed(j))
    {
      hide ListsOk, HistoryOk, ServersOk, LogOk, Onward, Steady, Newer, Since, Reads, Offered, Writable;
      PassingSame();
      for i := 0 to nservers
        invariant Passing(old(queries), old(hist), old(servers), old(log)) && Reads(log) == Reads(old(log))
        invariant OfferedSoFar(writable, i, old(servers), servers, old(log), log)
      {
        WriteNext(i, now, writable, old(queries), old(hist), old(servers), old(log));
      }
    }

    /** What a pass over the sockets keeps. */
    ghost predicate Passing(qs0: Queries, h0: map<Id, Record>, servers0: seq<Server>, log0: seq<Event>)
      reads this
    {
      && Inv({}) && stolen == {} && queries.Keys <= qs0.Keys && |servers| == |servers0| == nservers
      && Onward(qs0, h0, queries, hist) && Newer(servers0, servers)
      && Steady(log0, log, servers0, servers, queries, stayOpen)
    }

    lemma PassingSame()
      requires Inv({}) && stolen == {}
      ensures Passing(queries, hist, servers, log)
    {
      hide ListsOk, HistoryOk, ServersOk, LogOk, Onward, Steady, Newer;
      OnwardSame(queries, hist, nextId, nservers, tries, timeout, lastTimeoutProcessed, {});
      NewerSame(servers);
      SteadySame(log, servers, queries, stayOpen);
      SizesNow();
    }

    lemma PassingTwice(qs0: Queries, h0: map<Id, Record>, servers0: seq<Server>, log0: seq<Event>, qs1: Queries,
        h1: map<Id, Record>, servers1: seq<Server>, log1: seq<Event>)
      requires Passing(qs1, h1, servers1, log1) && qs1.Keys <= qs0.Keys && |servers1| == |servers0|
      requires Onward(qs0, h0, qs1, h1) && Newer(servers0, servers1)
      requires Steady(log0, log1, servers0, servers1, qs1, stayOpen)
      ensures Passing(qs0, h0, servers0, log0) && Begins(log0, log1) && Begins(log1, log)
    {
      hide ListsOk, HistoryOk, ServersOk, LogOk, Onward, Steady, Newer, Inv;
      OnwardTwice(qs0, h0, qs1, h1, queries, hist);
      NewerTwice(servers0, servers1, servers);
      SteadyTwice(log0, log1, log, servers0, servers1, servers, qs1, queries, stayOpen);
      SteadyBegins(log0, log1, servers0, servers1, qs1, stayOpen);
      SteadyBegins(log1, log, servers1, servers, queries, stayOpen);
    }

    method WriteNext(i: nat, now: TimeVal, writable: set<nat>, ghost qs0: Queries, ghost h0: map<Id, Record>,
        ghost servers0: seq<Server>, ghost log0: seq<Event>)
      requires Passing(qs0, h0, servers0, log0) && i < nservers && Reads(log) == Reads(log0)
      requires OfferedSoFar(writable, i, servers0, servers, log0, log)
      requires now.Normal() && now.sec >= lastTimeoutProcessed
      modifies this`servers, this`generation, this`wires, this`queries, this`hist, this`stolen, this`log
      modifies this`allQueries, this`byQid, this`byTimeout, this`toServer
      ensures Passing(qs0, h0, servers0, log0) && Reads(log) == Reads(log0)
      ensures OfferedSoFar(writable, i + 1, servers0, servers, log0, log)
    {
      hide ListsOk, HistoryOk, ServersOk, LogOk, Onward, Steady, Newer, Since, Reads, Offered, Writable, NoneLate;
      hide OfferedSoFar, Inv;
      ghost var qs1, h1, servers1, log1 := queries, hist, servers, log;
      var done := Idle;
      if i in writable {
        done := WriteTcp(i, now);
        SizesNow();
      } else {
        PassingSame();
      }
      PassingTwice(qs0, h0, servers0, log0, qs1, h1, servers1, log1);
      OfferedSoFarNext(writable, i, servers0, servers1, servers, log0, log1, log, done);
    }

    lemma SizesNow()
      requires Inv({})
      ensures |servers| == nservers == |wires|
    {
      hide ListsOk, HistoryOk, ServersOk, LogOk;
      ServersSizes(servers, wires, queries);
    }

    /** read_tcp_data and read_udp_packets, as far as the queries are concerned; tells which sockets were read. */
    method ReadAll(tcp: bool, incoming: seq<Incoming>, now: TimeVal) returns (ghost served: seq<bool>)
      requires Inv({}) && stolen == {} && |incoming| == nservers
      requires now.Normal() && now.sec >= lastTimeoutProcessed
      modifies this`servers, this`generation, this`wires, this`queries, this`hist, this`stolen, this`log
      modifies this`allQueries, this`byQid, this`byTimeout, this`toServer
      ensures Inv({}) && stolen == {} && queries.Keys <= old(queries).Keys && Newer(old(servers), servers)
      ensures Onward(old(queries), old(hist), queries, hist)
      ensures Steady(old(log), log, old(servers), servers, queries, stayOpen)
      ensures |served| == nservers == |servers| == |old(servers)|
      ensures Reads(log) == Reads(old(log)) + ReadFromAll(incoming, served, tcp, nservers)
      ensures forall i :: 0 <= i < nservers && served[i] && incoming[i].failed ==> Since(old(log), log, Reset(i))
      ensures queries != map[] || stayOpen ==> forall i :: 0 <= i < nservers ==>
                Served(served[i], old(servers)[i], i, tcp, old(log), log)
    {
      hide ListsOk, HistoryOk, ServersOk, LogOk, Onward, Steady, Newer, Since, Reads, ReadFromAll, Served;
      PassingSame();
      ReadSoFarNone(incoming, tcp, servers, log, queries, stayOpen);
      served := [];
      for i := 0 to nservers
        invariant Passing(old(queries), old(hist), old(servers), old(log))
        invariant ReadSoFar(incoming, served, tcp, i, old(servers), old(log), log, queries, stayOpen)
      {
        ghost var readable := ReadNext(i, tcp, incoming, served, now, old(queries), old(hist), old(servers), old(log));
        served := served + [readable];
      }
    }

    method ReadNext(i: nat, tcp: bool, incoming: seq<Incoming>, ghost served: seq<bool>, now: TimeVal,
        ghost qs0: Queries, ghost h0: map<Id, Record>, ghost servers0: seq<Server>, ghost log0: seq<Event>)
      returns (ghost readable: bool)
      requires Passing(qs0, h0, servers0, log0) && i < nservers == |incoming|
      requires ReadSoFar(incoming, served, tcp, i, servers0, log0, log, queries, stayOpen)
      requires now.Normal() && now.sec >= lastTimeoutProcessed
      modifies this`servers, this`generation, this`wires, this`queries, this`hist, this`stolen, this`log
      modifies this`allQueries, this`byQid, this`byTimeout, this`toServer
      ensures Passing(qs0, h0, servers0, log0)
      ensures ReadSoFar(incoming, served + [readable], tcp, i + 1, servers0, log0, log, queries, stayOpen)
    {
      hide ListsOk, HistoryOk, ServersOk, LogOk, Onward, Steady, Newer, Since, Reads, Readable, Inv, ReadSoFar;
      hide ReadFrom;
      ghost var qs1, h1, servers1, log1 := queries, hist, servers, log;
      readable := Readable(servers[i], tcp);
      if Readable(servers[i], tcp) {
        ReadSocket(i, tcp, incoming[i], now);
        SizesNow();
      } else {
        PassingSame();
        assert Reads(log) + [] == Reads(log);
      }
      PassingTwice(qs0, h0, servers0, log0, qs1, h1, servers1, log1);
      ReadSoFarNext(incoming, served, readable, tcp, i, servers0, servers1, log0, log1, log, qs1, queries, stayOpen);
    }

    /** Reads what there is from one socket. */
    method ReadSocket(i: nat, tcp: bool, c: Incoming, now: TimeVal)
      requires Inv({}) && stolen == {} && i < nservers
      requires now.Normal() && now.sec >= lastTimeoutProcessed
      modifies this`servers, this`generation, this`wires, this`queries, this`hist, this`stolen, this`log
      modifies this`allQueries, this`byQid, this`byTimeout, this`toServer
      ensures Inv({}) && stolen == {} && queries.Keys <= old(queries).Keys && Newer(old(servers), servers)
      ensures Onward(old(queries), old(hist), queries, hist)
      ensures Steady(old(log), log, old(servers), servers, queries, stayOpen)
      ensures Reads(log) == Reads(old(log)) + ReadFrom(c, i, tcp)
      ensures c.failed ==> Since(old(log), log, Reset(i))
    {
      hide ListsOk, HistoryOk, ServersOk, LogOk, Onward, Steady, Newer, Since, Reads, Answered, Progress, Inv;
      PassingSame();
      ghost var all := seq(|c.messages|, k requires 0 <= k < |c.messages| => Arrived(i, tcp, c.messages[k]));
      for k := 0 to |c.messages|
        invariant Passing(old(queries), old(hist), old(servers), old(log))
        invariant Reads(log) == Reads(old(log)) + all[..k]
      {
        ghost var qs1, h1, servers1, log1 := queries, hist, servers, log;
        ghost var hit := ReadOne(c.messages[k], i, tcp, now);
        SizesNow();
        PassingTwice(old(queries), old(hist), old(servers), old(log), qs1, h1, servers1, log1);
        assert all[..k + 1] == all[..k] + [all[k]];
        Regroup(Reads(old(log)), all[..k], [all[k]]);
      }
      assert all[..|all|] == all;
      if c.failed {
        ReadError(i, tcp, now, old(queries), old(hist), old(servers), old(log));
        Regroup(Reads(old(log)), all, [ReadFailed(i, tcp)]);
      } else {
        assert all + [] == all;
      }
    }

    /** A read from the socket has failed. */
    method ReadError(i: nat, tcp: bool, now: TimeVal, ghost qs0: Queries, ghost h0: map<Id, Record>,
        ghost servers0: seq<Server>, ghost log0: seq<Event>)
      requires Passing(qs0, h0, servers0, log0) && i < nservers
      requires now.Normal() && now.sec >= lastTimeoutProcessed
      modifies this`servers, this`generation, this`wires, this`queries, this`hist, this`stolen, this`log
      modifies this`allQueries, this`byQid, this`byTimeout, this`toServer
      ensures Passing(qs0, h0, servers0, log0)
      ensures Reads(log) == Reads(old(log)) + [ReadFailed(i, tcp)] && Since(log0, log, Reset(i))
    {
      hide ListsOk, HistoryOk, ServersOk, LogOk, Onward, Steady, Newer, Since, Reads, Progress, Inner, Inv;
      ghost var qs1, h1, servers1, log1 := queries, hist, servers, log;
      Note(ReadFailed(i, tcp));
      ghost var log2 := log;
      HandleError(i, now);
      SizesNow();
      ReadsInner(log2, log);
      SteadyTwice(log1, log2, log, servers1, servers1, servers, qs1, queries, stayOpen);
      PassingTwice(qs0, h0, servers0, log0, qs1, h1, servers1, log1);
      SinceTwice(log0, log1, log, Reset(i));
      SteadyBegins(log1, log2, servers1, servers1, qs1, stayOpen);
      SteadyBegins(log2, log, servers1, servers, queries, stayOpen);
      SinceTwice(log1, log2, log, Reset(i));
    }

    /** Something was read. */
    ghost method Note(e: Event)
      requires Inv({}) && (e.Arrived? || e.ReadFailed?)
      modifies this`log
      ensures Inv({}) && log == old(log) + [e] && Reads(log) == Reads(old(log)) + [e]
      ensures Steady(old(log), log, servers, servers, queries, stayOpen)
    {
      hide ListsOk, HistoryOk, ServersOk, LogOk;
      LogMore(log, e, servers, wires, queries, hist, nservers, tries, Rulebook());
      ReadsMore(log, e);
      log := log + [e];
      assert log[..|old(log)|] == old(log);
    }

    /** Reads one message. */
    method ReadOne(abuf: seq<byte>, i: nat, tcp: bool, now: TimeVal) returns (ghost hit: Option<Id>)
      requires Inv({}) && stolen == {} && i < nservers
      requires now.Normal() && now.sec >= lastTimeoutProcessed
      modifies this`servers, this`generation, this`wires, this`queries, this`hist, this`stolen, this`log
      modifies this`allQueries, this`byQid, this`byTimeout, this`toServer
      ensures Inv({}) && stolen == {} && queries.Keys <= old(queries).Keys && Newer(old(servers), servers)
      ensures Onward(old(queries), old(hist), queries, hist)
      ensures Steady(old(log), log, old(servers), servers, queries, stayOpen)
      ensures Reads(log) == Reads(old(log)) + [Arrived(i, tcp, abuf)]
      ensures hit == None && |abuf| >= HFIXEDSZ ==> forall x :: x in queries ==> !Answers(queries[x], abuf)
      ensures hit.Some? ==>
                var x := hit.value;
                && |abuf| >= HFIXEDSZ && x in old(queries) && x in old(hist) && old(Answers(queries[x], abuf))
                && Answered(old(queries)[x], old(hist)[x], queries, hist, x,
                            Judge(abuf, tcp, ignoreTc, noCheckResp), i, now, timeout, nservers)
    {
      hide ListsOk, HistoryOk, ServersOk, LogOk, Progress, Answered, Answers, Onward, Steady, Newer, Inner, AllDetached;
      hide AllWhole, RanOut, Reads;
      OnwardSame(queries, hist, nextId, nservers, tries, timeout, lastTimeoutProcessed, {});
      Note(Arrived(i, tcp, abuf));
      ghost var log1 := log;
      hit := ProcessAnswer(abuf, i, tcp, now);
      ReadsInner(log1, log);
      SteadyTwice(old(log), log1, log, old(servers), old(servers), servers, old(queries), queries, stayOpen);
      if hit.Some? {
        OnwardKeys(old(queries), old(hist));
        AnsweredOnward(old(queries), old(hist), queries, hist, hit.value, Judge(abuf, tcp, ignoreTc, noCheckResp), i,
            now, timeout, nservers);
      }
    }

    // --------------------------------------------------------------------
    // From the submission to the callback
    // --------------------------------------------------------------------

    /** Whatever may have happened on the sockets. */
    method AnyInput() returns (writable: set<nat>, tcpIn: seq<Incoming>, udpIn: seq<Incoming>)
      ensures |tcpIn| == |udpIn| == nservers
    {
      writable, tcpIn, udpIn := *, *, *;
      if |tcpIn| != nservers {
        tcpIn := seq(nservers, _ => Incoming([], false));
      }
      if |udpIn| != nservers {
        udpIn := seq(nservers, _ => Incoming([], false));
      }
    }

    /** What an application may do at any time: submit queries and serve the sockets, any number of times. */
    method Meanwhile()
      requires Inv({}) && stolen == {}
      modifies this`servers, this`generation, this`wires, this`queries, this`hist, this`stolen, this`log
      modifies this`allQueries, this`byQid, this`byTimeout, this`toServer, this`lastTimeoutProcessed
      modifies this`nextId, this`lastServer
      ensures Inv({}) && stolen == {} && Onward(old(queries), old(hist), queries, hist)
    {
      hide ListsOk, HistoryOk, ServersOk, LogOk, Onward;
      OnwardSame(queries, hist, nextId, nservers, tries, timeout, lastTimeoutProcessed, {});
      var calls: int := *;
      for i := 0 to if calls < 0 then 0 else calls
        invariant Inv({}) && stolen == {} && Onward(old(queries), old(hist), queries, hist)
      {
        var now: TimeVal := *;
        if now.Normal() && now.sec >= lastTimeoutProcessed {
          ghost var qs, h := queries, hist;
          var submit: bool := *;
          if submit {
            var qbuf: seq<byte> := *;
            var _ := Send(qbuf, now);
          } else {
            var writable, tcpIn, udpIn := AnyInput();
            ghost var _, _ := ProcessFds(now, writable, tcpIn, udpIn);
          }
          OnwardTwice(old(queries), old(hist), qs, h, queries, hist);
        }
      }
    }

    /** Serves the sockets at an arbitrary time past the deadline of the query `x`. */
    method ServeLate(x: Id)
      requires Inv({}) && stolen == {} && x in queries && x in hist && hist[x].since >= 1
      modifies this`servers, this`generation, this`wires, this`queries, this`hist, this`stolen, this`log
      modifies this`allQueries, this`byQid, this`byTimeout, this`toServer, this`lastTimeoutProcessed
      ensures Inv({}) && stolen == {} && Onward(old(queries), old(hist), queries, hist)
      ensures x in queries ==> x in hist && Effort(queries[x]) > Effort(old(queries)[x])
    {
      hide ListsOk, HistoryOk, ServersOk, LogOk, Onward, Within, Affordable, OnCourse, QueryBase;
      InHistory(queries, hist, nextId, nservers, tries, timeout, lastTimeoutProcessed, {}, x);
      var deadline := queries[x].deadline;
      var now: TimeVal := *;
      if !now.Normal() || !TimedOut(now, deadline) {
        now := deadline;
      }
      assert x in ExpiredQueries(now);
      ghost var qs, h := queries, hist;
      var writable, tcpIn, udpIn := AnyInput();
      ghost var _, _ := ProcessFds(now, writable, tcpIn, udpIn);
      if x in queries {
        SentEffort(qs, h, queries, hist, x);
      }
    }

    /** A query is submitted, and the application goes on serving the channel as long as the query is alive, each time
        past its deadline, with whatever else it does in between, and with arbitrary sockets. The query ends, with one
        callback, within nservers * tries rounds and one for the switch to TCP. */
    method Resolve(qbuf: seq<byte>, start: TimeVal) returns (x: Id, ghost rounds: nat)
      requires Inv({}) && stolen == {}
      requires start.Normal() && start.sec >= lastTimeoutProcessed >= 1
      modifies this`servers, this`generation, this`wires, this`queries, this`hist, this`stolen, this`log
      modifies this`allQueries, this`byQid, this`byTimeout, this`toServer, this`lastTimeoutProcessed
      modifies this`nextId, this`lastServer
      ensures Inv({}) && stolen == {} && x == old(nextId)
      ensures x !in queries && x in hist && |hist[x].callbacks| == 1
      ensures rounds <= MaxAttempts(nservers, tries) + 1
    {
      hide ListsOk, HistoryOk, ServersOk, LogOk, Onward;
      x := Send(qbuf, start);
      rounds := 0;
      while x in queries
        invariant Inv({}) && stolen == {} && x in hist && rounds <= MaxAttempts(nservers, tries) + 1
        invariant x in queries ==> hist[x].since >= 1 && rounds <= Effort(queries[x])
        decreases MaxAttempts(nservers, tries) + 1 - rounds
      {
        EffortBound(Moment(queries, hist, nextId, lastTimeoutProcessed), x, nservers, tries, timeout);
        ghost var qs, h := queries, hist;
        Meanwhile();
        StillFurther(qs, h, queries, hist, x);
        if x in queries {
          ghost var qs1, h1 := queries, hist;
          ServeLate(x);
          StillFurther(qs1, h1, queries, hist, x);
        }
        rounds := rounds + 1;
      }
      GoneEnded(queries, hist, nextId, nservers, tries, timeout, lastTimeoutProcessed, x);
    }
  }
}
