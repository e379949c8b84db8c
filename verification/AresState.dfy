/** The records of a channel and what must hold of them together.
    Models struct query, struct send_request and struct server_state of ares_private.h. */
module AresState {
  import opened AresIndex
  import opened AresTime
  import opened Bytes
  import opened Options

  const QID_TABLE_SIZE := 2048
  const TIMEOUT_TABLE_SIZE := 1024

  datatype Status = Success | NoMemory | TimedOutStatus | ConnectionRefused | BadQuery

  datatype ServerInfo = ServerInfo(skip: bool, generation: nat)

  datatype Query = Query( qid: nat, tcpbuf: seq<byte>, deadline: TimeVal, attempt: nat, server: nat,
      info: seq<ServerInfo>, usingTcp: bool, error: Status, timeouts: nat)

  datatype SendReq = SendReq(data: seq<byte>, owner: Option<Id>, ownStorage: bool)

  datatype Server = Server(udpOpen: bool, tcpOpen: bool, queue: seq<SendReq>, generation: nat, broken: bool)

  type Queries = map<Id, Query>

  /** What became of an attempt: it was put on the wire, its server could not be reached, or its server was passed over
      because it was marked broken, was marked to be skipped, or had been sent the query on this very connection. */
  datatype Fate = ByWire | NotReached | WasBroken | WasMarked | WasUsed

  /** What has happened to a query: the server it was first meant for, how often it was put on the wire, in all and to
      each server, the milliseconds it was given to wait for answers in all, whether it changed from UDP to TCP, the
      callbacks made for it, the second up to which timeouts had been processed when it was submitted, the message, and
      what became of each attempt. */
  datatype Record = Record(first: nat, sends: nat, visits: seq<nat>, waited: nat, switched: bool,
      callbacks: seq<Status>, since: int, message: seq<byte>, fates: seq<Fate>)

  /** What was queued on a TCP connection since it was opened, query by query, the bytes the socket took, and the length
      of the log when it was opened. */
  datatype Wire = Wire(frames: seq<seq<byte>>, written: seq<byte>, start: nat)

  /** What can happen at the sockets, in memory allocation, and to the servers. */
  datatype Event =
    | OnWire(x: Id, s: nat, tcp: bool, bytes: seq<byte>)  // written to the UDP socket, or queued on the connection
    | Unreached(x: Id, s: nat)                            // no socket for the server, or writing to it failed
    | NoRoom(x: Id)                                       // no memory for the query
    | CameDue(x: Id)                                      // its time was up
    | Cut(s: nat)                                         // the server was marked broken
    | Reset(s: nat)                                       // its sockets are closed because of an error
    | Arrived(s: nat, tcp: bool, abuf: seq<byte>)         // a message was read
    | ReadFailed(s: nat, tcp: bool)
    | Wrote(s: nat, count: nat)                           // the TCP socket took so many bytes
    | WouldBlock(s: nat)
    | WriteFailed(s: nat)

  /** A message with its length in front, section 4.2.2 of RFC 1035. */
  function Framing(m: seq<byte>): seq<byte> { [|m| / 256 % 256, |m| % 256] + m }

  /** The first two bytes, the high one first, are the number of those behind them. */
  lemma {:induction false} FramingRead(m: seq<byte>)
    requires |m| < 0x1_0000
    ensures |Framing(m)| == 2 + |m| && Framing(m)[2..] == m
    ensures (Framing(m)[0] as int) * 256 + Framing(m)[1] == |m|
  {
  }

  // ------------------------------------------------------------------------
  // Lists
  // ------------------------------------------------------------------------

  function Bucket(deadline: TimeVal): nat { deadline.sec % TIMEOUT_TABLE_SIZE }

  ghost function AllKey(qs: Queries): map<Id, nat> { map x | x in qs :: 0 }

  ghost function QidKey(qs: Queries): map<Id, nat> { map x | x in qs :: qs[x].qid % QID_TABLE_SIZE }

  ghost function WheelKey(qs: Queries): map<Id, nat> { map x | x in qs :: Bucket(qs[x].deadline) }

  /** A stolen query is in the extra list behind those of the servers. */
  ghost function ServerKey(qs: Queries, stolen: set<Id>, n: nat): map<Id, nat> {
    map x | x in qs :: if x in stolen then n else qs[x].server
  }

  /** Every live query is in the list of all queries, in the bucket of its query ID, in the bucket of its deadline
      and in the list of its server, once each, and no list holds anything else. A loose query, on its way to
      another server, may still be in the old bucket and server list, or in none. */
  ghost predicate ListsOk(all: seq<Id>, byQid: Lists, byTimeout: Lists, toServer: Lists, qs: Queries,
      stolen: set<Id>, loose: set<Id>) {
    && |byQid| == QID_TABLE_SIZE && |byTimeout| == TIMEOUT_TABLE_SIZE && |toServer| >= 1
    && Linked([all], AllKey(qs), {})
    && Linked(byQid, QidKey(qs), {})
    && Linked(byTimeout, WheelKey(qs), loose)
    && Linked(toServer, ServerKey(qs, stolen, |toServer| - 1), loose)
  }

  /** Where a query's node goes when it is sent: to the end of bucket `b`. */
  function Moved(lists: Lists, x: Id, b: nat): Lists
    requires b < |lists|
  {
    Link(Unlink(lists, x), x, b)
  }

  lemma {:induction false} ListsLoosen(all: seq<Id>, byQid: Lists, byTimeout: Lists, toServer: Lists, qs: Queries,
      stolen: set<Id>, loose: set<Id>, more: set<Id>)
    requires ListsOk(all, byQid, byTimeout, toServer, qs, stolen, loose)
    ensures ListsOk(all, byQid, byTimeout, toServer, qs, stolen, loose + more)
  {
    hide AllKey, QidKey, WheelKey, ServerKey;
  }

  lemma {:induction false} KeysUpdate(qs: Queries, stolen: set<Id>, n: nat, x: Id, q: Query)
    requires x in qs && q.qid == qs[x].qid
    ensures var qs' := qs[x := q];
            && AllKey(qs') == AllKey(qs)
            && QidKey(qs') == QidKey(qs)
            && WheelKey(qs') == WheelKey(qs)[x := Bucket(q.deadline)]
            && ServerKey(qs', stolen, n) == ServerKey(qs, stolen, n)[x := if x in stolen then n else q.server]
  {
  }

  lemma {:induction false} LooseKey(lists: Lists, key: map<Id, nat>, loose: set<Id>, x: Id, k: nat)
    requires Linked(lists, key, loose) && x in key && (x in loose || key[x] == k)
    ensures Linked(lists, key[x := k], loose)
  {
  }

  /** A loose query may change; another one only where no list depends on it. */
  lemma {:induction false} ListsUpdate(all: seq<Id>, byQid: Lists, byTimeout: Lists, toServer: Lists, qs: Queries,
      stolen: set<Id>, loose: set<Id>, x: Id, q: Query)
    requires ListsOk(all, byQid, byTimeout, toServer, qs, stolen, loose)
    requires x in qs && q.qid == qs[x].qid
    requires x in loose || (q.deadline == qs[x].deadline && q.server == qs[x].server)
    ensures ListsOk(all, byQid, byTimeout, toServer, qs[x := q], stolen, loose)
  {
    hide Linked;
    var n := |toServer| - 1;
    KeysUpdate(qs, stolen, n, x, q);
    hide AllKey, QidKey, WheelKey, ServerKey;
    LooseKey(byTimeout, WheelKey(qs), loose, x, Bucket(q.deadline));
    LooseKey(toServer, ServerKey(qs, stolen, n), loose, x, if x in stolen then n else q.server);
  }

  lemma {:induction false} KeysFree(qs: Queries, stolen: set<Id>, n: nat, x: Id)
    ensures AllKey(qs - {x}) == AllKey(qs) - {x}
    ensures QidKey(qs - {x}) == QidKey(qs) - {x}
    ensures WheelKey(qs - {x}) == WheelKey(qs) - {x}
    ensures ServerKey(qs - {x}, stolen - {x}, n) == ServerKey(qs, stolen, n) - {x}
  {
  }

  lemma {:induction false} ListsFree(all: seq<Id>, byQid: Lists, byTimeout: Lists, toServer: Lists, qs: Queries,
      stolen: set<Id>, loose: set<Id>, x: Id)
    requires ListsOk(all, byQid, byTimeout, toServer, qs, stolen, loose)
    ensures ListsOk(Drop(all, x), Unlink(byQid, x), Unlink(byTimeout, x), Unlink(toServer, x),
                    qs - {x}, stolen - {x}, loose - {x})
  {
    hide Linked, AllKey, QidKey, WheelKey, ServerKey;
    var n := |toServer| - 1;
    KeysFree(qs, stolen, n, x);
    UnlinkLinked([all], AllKey(qs), {}, x);
    assert Unlink([all], x) == [Drop(all, x)];
    assert {} - {x} == {};
    UnlinkLinked(byQid, QidKey(qs), {}, x);
    UnlinkLinked(byTimeout, WheelKey(qs), loose, x);
    UnlinkLinked(toServer, ServerKey(qs, stolen, n), loose, x);
  }

  lemma {:induction false} KeysSettle(qs: Queries, stolen: set<Id>, n: nat, x: Id)
    requires x in qs
    ensures x in WheelKey(qs) && WheelKey(qs) == WheelKey(qs)[x := Bucket(qs[x].deadline)]
    ensures x in ServerKey(qs, stolen, n)
            && ServerKey(qs, stolen - {x}, n) == ServerKey(qs, stolen, n)[x := qs[x].server]
  {
  }

  lemma {:induction false} ListsSettle(all: seq<Id>, byQid: Lists, byTimeout: Lists, toServer: Lists, qs: Queries,
      stolen: set<Id>, loose: set<Id>, x: Id)
    requires ListsOk(all, byQid, byTimeout, toServer, qs, stolen, loose)
    requires x in qs && qs[x].server < |toServer| - 1
    ensures ListsOk(all, byQid, Moved(byTimeout, x, Bucket(qs[x].deadline)), Moved(toServer, x, qs[x].server),
                    qs, stolen - {x}, loose - {x})
    ensures |Moved(toServer, x, qs[x].server)| == |toServer|
  {
    hide Linked, AllKey, QidKey, WheelKey, ServerKey;
    var n := |toServer| - 1;
    KeysSettle(qs, stolen, n, x);
    RelinkLinked(byTimeout, WheelKey(qs), loose, x, Bucket(qs[x].deadline));
    RelinkLinked(toServer, ServerKey(qs, stolen, n), loose, x, qs[x].server);
  }

  lemma {:induction false} KeyAdd(qs: Queries, x: Id, q: Query, key: map<Id, nat>, key': map<Id, nat>, k: nat)
    requires x !in qs && key.Keys == qs.Keys && key'.Keys == qs.Keys + {x}
    requires forall y :: y in key ==> key'[y] == key[y]
    requires key'[x] == k
    ensures x !in key && key' == key[x := k]
  {
  }

  lemma {:induction false} KeysAdd(qs: Queries, n: nat, x: Id, q: Query)
    requires x !in qs
    ensures x !in AllKey(qs) && x !in QidKey(qs) && x !in WheelKey(qs) && x !in ServerKey(qs, {}, n)
    ensures AllKey(qs[x := q]) == AllKey(qs)[x := 0]
    ensures QidKey(qs[x := q]) == QidKey(qs)[x := q.qid % QID_TABLE_SIZE]
    ensures WheelKey(qs[x := q]) == WheelKey(qs)[x := Bucket(q.deadline)]
    ensures ServerKey(qs[x := q], {}, n) == ServerKey(qs, {}, n)[x := q.server]
  {
    KeyAdd(qs, x, q, AllKey(qs), AllKey(qs[x := q]), 0);
    KeyAdd(qs, x, q, QidKey(qs), QidKey(qs[x := q]), q.qid % QID_TABLE_SIZE);
    KeyAdd(qs, x, q, WheelKey(qs), WheelKey(qs[x := q]), Bucket(q.deadline));
    KeyAdd(qs, x, q, ServerKey(qs, {}, n), ServerKey(qs[x := q], {}, n), q.server);
  }

  lemma {:induction false} ListsAdd(all: seq<Id>, byQid: Lists, byTimeout: Lists, toServer: Lists, qs: Queries,
      loose: set<Id>, x: Id, q: Query)
    requires ListsOk(all, byQid, byTimeout, toServer, qs, {}, loose)
    requires x !in qs
    ensures ListsOk(all + [x], Link(byQid, x, q.qid % QID_TABLE_SIZE), byTimeout, toServer,
                    qs[x := q], {}, loose + {x})
  {
    hide AllKey, QidKey, WheelKey, ServerKey;
    var qs', n := qs[x := q], |toServer| - 1;
    KeysAdd(qs, n, x, q);
    LinkLinked([all], AllKey(qs), {}, x, 0);
    assert Link([all], x, 0) == [all + [x]];
    assert {} - {x} == {};
    LinkLinked(byQid, QidKey(qs), {}, x, q.qid % QID_TABLE_SIZE);
  }

  /** The queries that are linked to a server. */
  ghost function QueriesTo(qs: Queries, w: nat): set<Id> { set x | x in qs && qs[x].server == w }

  lemma {:induction false} ListsSteal(all: seq<Id>, byQid: Lists, byTimeout: Lists, toServer: Lists, qs: Queries,
      w: nat)
    requires ListsOk(all, byQid, byTimeout, toServer, qs, {}, {})
    requires w < |toServer| - 1 && forall x :: x in qs ==> qs[x].server < |toServer| - 1
    ensures ListsOk(all, byQid, byTimeout, Swap(toServer, |toServer| - 1, w), qs, QueriesTo(qs, w), {})
  {
    hide Linked, AllKey, QidKey, WheelKey;
    var n := |toServer| - 1;
    SwapLinked(toServer, ServerKey(qs, {}, n), ServerKey(qs, QueriesTo(qs, w), n), n, w);
  }

  /** Without queries there is nothing in the list of all of them. */
  lemma NoQueries(all: seq<Id>, byQid: Lists, byTimeout: Lists, toServer: Lists, qs: Queries, stolen: set<Id>,
      loose: set<Id>)
    requires ListsOk(all, byQid, byTimeout, toServer, qs, stolen, loose)
    ensures qs == map[] ==> all == []
  {
    if all != [] {
      assert all[0] in [all][0];
      assert all[0] in AllKey(qs);
    }
  }

  /** A query that is not loose stands in its lists. */
  lemma {:induction false} ListsFind(all: seq<Id>, byQid: Lists, byTimeout: Lists, toServer: Lists, qs: Queries,
      stolen: set<Id>, loose: set<Id>, x: Id)
    requires ListsOk(all, byQid, byTimeout, toServer, qs, stolen, loose)
    requires x in qs
    ensures x in all
    ensures x in byQid[qs[x].qid % QID_TABLE_SIZE]
    ensures x !in loose ==> x in byTimeout[Bucket(qs[x].deadline)]
    ensures x !in loose && x in stolen ==> x in toServer[|toServer| - 1]
    ensures x !in loose && x !in stolen ==> qs[x].server < |toServer| && x in toServer[qs[x].server]
  {
    assert x in [all][AllKey(qs)[x]];
    assert QidKey(qs)[x] == qs[x].qid % QID_TABLE_SIZE;
    assert WheelKey(qs)[x] == Bucket(qs[x].deadline);
    hide Distinct;
  }

  // ------------------------------------------------------------------------
  // TCP send queues
  // ------------------------------------------------------------------------

  ghost predicate Framed(b: seq<byte>) {
    |b| >= 2 && (b[0] as int) * 256 + b[1] == |b| - 2
  }

  ghost predicate IsSuffix(a: seq<byte>, b: seq<byte>) {
    |a| <= |b| && a == b[|b| - |a|..]
  }

  /** The bytes that are still to be sent. */
  function Pending(queue: seq<SendReq>): seq<byte> {
    if queue == [] then [] else queue[0].data + Pending(queue[1..])
  }

  /** An entry that still points into its query's buffer: the query is alive and was sent over this connection. */
  ghost predicate OwnedOk(e: SendReq, generation: nat, s: nat, qs: Queries)
    requires e.owner.Some?
  {
    var x := e.owner.value;
    && !e.ownStorage
    && x in qs && qs[x].usingTcp
    && IsSuffix(e.data, qs[x].tcpbuf)
    && s < |qs[x].info| && qs[x].info[s].generation == generation
  }

  /** No entry points into a freed query, and none has lost its bytes unless the connection is marked broken.
      A query is queued at most once on one connection. */
  ghost predicate QueueOk(sv: Server, s: nat, qs: Queries) {
    && sv.generation >= 1
    && (sv.queue != [] || sv.broken ==> sv.tcpOpen)
    && (forall j :: 0 <= j < |sv.queue| && sv.queue[j].owner.Some? ==> OwnedOk(sv.queue[j], sv.generation, s, qs))
    && (forall i, j :: 0 <= i < j < |sv.queue| && sv.queue[i].owner.Some? ==> sv.queue[i].owner != sv.queue[j].owner)
    && (!sv.broken ==> forall j :: 0 <= j < |sv.queue| ==>
          sv.queue[j].data != [] && (sv.queue[j].owner.Some? || sv.queue[j].ownStorage))
  }

  /** Only framed queries are queued; the socket took a prefix of them, in order, and unless the connection
      is marked broken the queue holds exactly the rest. */
  ghost predicate StreamOk(sv: Server, w: Wire) {
    && (forall j :: 0 <= j < |w.frames| ==> Framed(w.frames[j]))
    && w.written <= Flat(w.frames)
    && (!sv.broken ==> w.written + Pending(sv.queue) == Flat(w.frames))
  }

  ghost predicate ServersOk(servers: seq<Server>, wires: seq<Wire>, qs: Queries) {
    && |wires| == |servers|
    && forall s :: 0 <= s < |servers| ==> QueueOk(servers[s], s, qs) && StreamOk(servers[s], wires[s])
  }

  lemma PendingUnfold(queue: seq<SendReq>)
    ensures queue == [] ==> Pending(queue) == []
    ensures queue != [] ==> Pending(queue) == queue[0].data + Pending(queue[1..])
  {
  }

  lemma {:induction false} PendingConcat(a: seq<SendReq>, b: seq<SendReq>)
    ensures Pending(a + b) == Pending(a) + Pending(b)
  {
    hide Pending;
    PendingUnfold(a);
    if a == [] {
      assert a + b == b;
    } else {
      PendingConcat(a[1..], b);
      PendingUnfold(a + b);
      assert (a + b)[1..] == a[1..] + b;
    }
  }

  /** Taking the first entry off the queue. */
  lemma {:induction false} PopQueue(sv: Server, s: nat, qs: Queries)
    requires QueueOk(sv, s, qs) && !sv.broken && sv.queue != []
    ensures QueueOk(sv.(queue := sv.queue[1..]), s, qs)
    ensures Pending(sv.queue) == sv.queue[0].data + Pending(sv.queue[1..])
  {
    var t := sv.queue[1..];
    forall j | 0 <= j < |t| ensures t[j] == sv.queue[j + 1] {}
    hide OwnedOk;
  }

  lemma {:induction false} PendingShrinks(queue: seq<SendReq>, n: nat)
    requires queue != [] && n < |queue[0].data|
    ensures var e := queue[0];
            Pending(queue) == e.data[..n] + Pending(queue[0 := e.(data := e.data[n..])])
  {
    hide Pending;
    var e := queue[0];
    var shorter := queue[0 := e.(data := e.data[n..])];
    PendingUnfold(queue);
    PendingUnfold(shorter);
    assert shorter[1..] == queue[1..];
    assert e.data == e.data[..n] + e.data[n..];
  }

  lemma OwnedShrinks(e: SendReq, n: nat, generation: nat, s: nat, qs: Queries)
    requires e.owner.Some? && OwnedOk(e, generation, s, qs) && n <= |e.data|
    ensures OwnedOk(e.(data := e.data[n..]), generation, s, qs)
  {
  }

  /** Taking the first bytes off the first entry. */
  lemma {:induction false} ShrinkQueue(sv: Server, s: nat, qs: Queries, n: nat)
    requires QueueOk(sv, s, qs) && !sv.broken && sv.queue != [] && n < |sv.queue[0].data|
    ensures var e := sv.queue[0];
            var sv' := sv.(queue := sv.queue[0 := e.(data := e.data[n..])]);
            && QueueOk(sv', s, qs)
            && Pending(sv.queue) == e.data[..n] + Pending(sv'.queue)
  {
    hide Pending, OwnedOk;
    var e := sv.queue[0];
    var queue := sv.queue[0 := e.(data := e.data[n..])];
    PendingShrinks(sv.queue, n);
    if e.owner.Some? {
      OwnedShrinks(e, n, sv.generation, s, qs);
    }
  }

  /** Changing a query without touching its buffer or the generations it was sent in. */
  lemma {:induction false} ServersUpdate(servers: seq<Server>, wires: seq<Wire>, qs: Queries, x: Id, q: Query)
    requires ServersOk(servers, wires, qs) && x in qs
    requires q.tcpbuf == qs[x].tcpbuf && |q.info| == |qs[x].info| && (qs[x].usingTcp ==> q.usingTcp)
    requires forall s :: 0 <= s < |q.info| ==> q.info[s].generation == qs[x].info[s].generation
    ensures ServersOk(servers, wires, qs[x := q])
  {
    hide StreamOk;
    forall s | 0 <= s < |servers| ensures QueueOk(servers[s], s, qs[x := q]) && StreamOk(servers[s], wires[s]) {
      assert QueueOk(servers[s], s, qs);
      QueueUpdate(servers[s], s, qs, x, q);
    }
  }

  lemma {:induction false} QueueUpdate(sv: Server, s: nat, qs: Queries, x: Id, q: Query)
    requires QueueOk(sv, s, qs) && x in qs
    requires q.tcpbuf == qs[x].tcpbuf && |q.info| == |qs[x].info| && (qs[x].usingTcp ==> q.usingTcp)
    requires s < |q.info| ==> q.info[s].generation == qs[x].info[s].generation
    ensures QueueOk(sv, s, qs[x := q])
  {
    forall j | 0 <= j < |sv.queue| && sv.queue[j].owner.Some?
      ensures OwnedOk(sv.queue[j], sv.generation, s, qs[x := q])
    {
      assert OwnedOk(sv.queue[j], sv.generation, s, qs);
    }
  }

  /** ares__close_sockets: nothing queued, nothing broken, and a new generation if there was a connection. */
  function Closed(sv: Server, generation: nat): Server {
    Server(false, false, [], if sv.tcpOpen then generation else sv.generation, false)
  }

  /** One server changes and the queries do not. */
  lemma {:induction false} ServersReplace(servers: seq<Server>, wires: seq<Wire>, qs: Queries, s: nat, sv: Server,
      w: Wire)
    requires ServersOk(servers, wires, qs) && s < |servers|
    requires QueueOk(sv, s, qs) && StreamOk(sv, w)
    ensures ServersOk(servers[s := sv], wires[s := w], qs)
  {
    hide StreamOk, QueueOk;
  }

  lemma ServersSizes(servers: seq<Server>, wires: seq<Wire>, qs: Queries)
    requires ServersOk(servers, wires, qs)
    ensures |wires| == |servers|
  {
  }

  /** The server has not gone back to an earlier connection, and one that was broken is so until it is closed. */
  /** No generation beyond the last one given. */
  ghost predicate UpTo(servers: seq<Server>, generation: nat) {
    forall s :: 0 <= s < |servers| ==> servers[s].generation <= generation
  }

  ghost predicate NewerServer(sv: Server, sv': Server) {
    sv'.generation >= sv.generation && (sv'.generation == sv.generation && sv.broken ==> sv'.broken)
  }

  ghost predicate Newer(servers: seq<Server>, servers': seq<Server>) {
    |servers'| == |servers| && forall s :: 0 <= s < |servers| ==> NewerServer(servers[s], servers'[s])
  }

  lemma NewerSame(servers: seq<Server>)
    ensures Newer(servers, servers)
  {
  }

  lemma NewerAt(servers: seq<Server>, servers': seq<Server>, s: nat)
    requires Newer(servers, servers') && s < |servers|
    ensures |servers'| == |servers| && NewerServer(servers[s], servers'[s])
  {
  }

  lemma NewerTwice(a: seq<Server>, b: seq<Server>, c: seq<Server>)
    requires Newer(a, b) && Newer(b, c)
    ensures Newer(a, c)
  {
  }

  /** The query's server is not marked broken. */
  ghost predicate Mended(q: Query, servers: seq<Server>) {
    q.server < |servers| && !servers[q.server].broken
  }

  /** The query has stayed with its server, which was marked broken already. */
  ghost predicate BrokenAsBefore(q: Query, q': Query, servers: seq<Server>) {
    q'.server == q.server && q.server < |servers| && servers[q.server].broken
  }

  ghost predicate AllClosed(servers: seq<Server>) {
    forall s :: 0 <= s < |servers| ==> !servers[s].udpOpen && !servers[s].tcpOpen && servers[s].queue == []
  }

  lemma ClosedOk(sv: Server, s: nat, qs: Queries, generation: nat, start: nat)
    requires QueueOk(sv, s, qs) && generation >= 1
    ensures QueueOk(Closed(sv, generation), s, qs) && StreamOk(Closed(sv, generation), Wire([], [], start))
  {
  }

  /** Queues the query `x` on the connection of server `s`, to which it has not been sent. */
  lemma {:induction false} ServersEnqueue(servers: seq<Server>, wires: seq<Wire>, qs: Queries, x: Id, s: nat)
    requires ServersOk(servers, wires, qs) && x in qs && s < |servers| && s < |qs[x].info|
    requires servers[s].tcpOpen && qs[x].usingTcp && Framed(qs[x].tcpbuf)
    requires qs[x].info[s].generation != servers[s].generation
    ensures var sv, q := servers[s], qs[x];
            ServersOk(
              servers[s := sv.(queue := sv.queue + [SendReq(q.tcpbuf, Some(x), false)])],
              wires[s := wires[s].(frames := wires[s].frames + [q.tcpbuf])],
              qs[x := q.(info := q.info[s := q.info[s].(generation := sv.generation)])])
  {
    var sv, q, w := servers[s], qs[x], wires[s];
    var q' := q.(info := q.info[s := q.info[s].(generation := sv.generation)]);
    var sv' := sv.(queue := sv.queue + [SendReq(q.tcpbuf, Some(x), false)]);
    var w' := w.(frames := w.frames + [q.tcpbuf]);
    assert QueueOk(sv, s, qs) && StreamOk(sv, w);
    EnqueueStream(sv, w, x, q.tcpbuf);
    hide StreamOk;
    forall t | 0 <= t < |servers| && t != s
      ensures QueueOk(servers[t], t, qs[x := q']) && StreamOk(servers[t], wires[t])
    {
      assert QueueOk(servers[t], t, qs);
      QueueUpdate(servers[t], t, qs, x, q');
    }
    hide QueueOk;
  }

  lemma {:induction false} EnqueueStream(sv: Server, w: Wire, x: Id, buf: seq<byte>)
    requires StreamOk(sv, w) && Framed(buf)
    ensures StreamOk(sv.(queue := sv.queue + [SendReq(buf, Some(x), false)]), w.(frames := w.frames + [buf]))
  {
    hide Pending, Flat;
    var e := SendReq(buf, Some(x), false);
    PendingConcat(sv.queue, [e]);
    PendingOne(e);
    FlatSnoc(w.frames, buf);
    if !sv.broken {
      assert w.written + (Pending(sv.queue) + buf) == w.written + Pending(sv.queue) + buf;
    }
  }

  lemma {:induction false} PendingOne(e: SendReq)
    ensures Pending([e]) == e.data
  {
    assert [e][1..] == [];
  }

  // ------------------------------------------------------------------------
  // A query ends while it is queued
  // ------------------------------------------------------------------------

  /** One entry after end_query has looked at it: an entry of `x` loses its owner, and keeps its bytes
      in storage of its own if the query succeeded and the copy could be made. */
  ghost predicate DetachedEntry(e: SendReq, e': SendReq, x: Id, ok: bool) {
    if e.owner == Some(x) then
      e' == SendReq([], None, false) || (ok && e' == SendReq(e.data, None, true))
    else e' == e
  }

  /** A server after end_query has looked at its queue. */
  ghost predicate DetachedServer(sv: Server, sv': Server, x: Id, ok: bool) {
    && sv' == sv.(queue := sv'.queue, broken := sv'.broken)
    && |sv'.queue| == |sv.queue|
    && (forall j :: 0 <= j < |sv.queue| ==> DetachedEntry(sv.queue[j], sv'.queue[j], x, ok))
    && (sv'.broken <==> sv.broken || exists j ::
         0 <= j < |sv.queue| && sv.queue[j].owner == Some(x) && !sv'.queue[j].ownStorage)
  }

  lemma {:induction false} DetachedKeeps(a: seq<SendReq>, b: seq<SendReq>, x: Id)
    requires |a| == |b|
    requires forall j :: 0 <= j < |a| ==> DetachedEntry(a[j], b[j], x, true)
    requires forall j :: 0 <= j < |a| && a[j].owner == Some(x) ==> b[j].ownStorage
    ensures Pending(a) == Pending(b)
  {
    if a == [] {
    } else {
      assert DetachedEntry(a[0], b[0], x, true);
      forall j | 0 <= j < |a| - 1 ensures DetachedEntry(a[1..][j], b[1..][j], x, true) {
        assert DetachedEntry(a[j + 1], b[j + 1], x, true);
      }
      DetachedKeeps(a[1..], b[1..], x);
    }
  }

  lemma {:induction false} DetachQueue(sv: Server, sv': Server, s: nat, qs: Queries, x: Id, ok: bool)
    requires QueueOk(sv, s, qs) && DetachedServer(sv, sv', x, ok)
    ensures QueueOk(sv', s, qs) && QueueOk(sv', s, qs - {x})
  {
    forall j | 0 <= j < |sv.queue|
      ensures DetachedEntry(sv.queue[j], sv'.queue[j], x, ok)
      ensures sv'.queue[j].owner.Some? ==>
                OwnedOk(sv'.queue[j], sv'.generation, s, qs) && OwnedOk(sv'.queue[j], sv'.generation, s, qs - {x})
    {
      assert DetachedEntry(sv.queue[j], sv'.queue[j], x, ok);
      if sv'.queue[j].owner.Some? {
        assert OwnedOk(sv.queue[j], sv.generation, s, qs);
      }
    }
    hide OwnedOk;
  }

  lemma {:induction false} DetachStream(sv: Server, sv': Server, w: Wire, x: Id, ok: bool)
    requires StreamOk(sv, w) && DetachedServer(sv, sv', x, ok)
    ensures StreamOk(sv', w)
  {
    if !sv'.broken {
      forall j | 0 <= j < |sv.queue|
        ensures DetachedEntry(sv.queue[j], sv'.queue[j], x, true)
        ensures sv.queue[j].owner == Some(x) ==> sv'.queue[j].ownStorage
      {
        assert DetachedEntry(sv.queue[j], sv'.queue[j], x, ok);
      }
      DetachedKeeps(sv.queue, sv'.queue, x);
    }
  }

  /** Nothing queued points into the query `x`. */
  ghost predicate Unowned(servers: seq<Server>, x: Id) {
    forall s, j :: 0 <= s < |servers| && 0 <= j < |servers[s].queue| ==> servers[s].queue[j].owner != Some(x)
  }

  lemma {:induction false} ServersFree(servers: seq<Server>, wires: seq<Wire>, qs: Queries, x: Id)
    requires ServersOk(servers, wires, qs) && Unowned(servers, x)
    ensures ServersOk(servers, wires, qs - {x})
  {
    hide StreamOk;
    forall s | 0 <= s < |servers| ensures QueueOk(servers[s], s, qs - {x}) && StreamOk(servers[s], wires[s]) {
      assert QueueOk(servers[s], s, qs);
      forall j | 0 <= j < |servers[s].queue| && servers[s].queue[j].owner.Some?
        ensures OwnedOk(servers[s].queue[j], servers[s].generation, s, qs - {x})
      {
        assert OwnedOk(servers[s].queue[j], servers[s].generation, s, qs);
      }
    }
  }
}
