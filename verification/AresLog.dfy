/** What happens at the sockets of a channel and in its memory, as a log, and what the records of the queries have to do
    with it. Specifies ares_process.c, ares_send.c and ares__close_sockets.c. */
module AresLog {
  import opened AresIndex
  import opened AresTime
  import opened AresState
  import opened AresBudget
  import opened AresHistory
  import opened Bytes
  import opened Options
  import opened Sequences

  /** How answers are compared with questions, and which of them are passed on. */
  datatype Rules = Rules(same: (seq<byte>, seq<byte>) -> bool, ignoreTc: bool, noCheckResp: bool)

  // ------------------------------------------------------------------------
  // Counting
  // ------------------------------------------------------------------------

  /** What can be counted in a log: transmissions of a query, transmissions to a server, failures to reach a server, and
      how often the time was up. */
  datatype Kind = SendOf(x: Id) | SendTo(x: Id, s: nat) | FailureAt(x: Id, s: nat) | DueOf(x: Id)

  predicate Matches(e: Event, k: Kind) {
    match k
    case SendOf(x) => e.OnWire? && e.x == x
    case SendTo(x, s) => e.OnWire? && e.x == x && e.s == s
    case FailureAt(x, s) => e == Unreached(x, s)
    case DueOf(x) => e == CameDue(x)
  }

  ghost function Tally(log: seq<Event>, k: Kind): nat {
    if log == [] then 0
    else
      var i := |log| - 1;
      Tally(log[..i], k) + if Matches(log[i], k) then 1 else 0
  }

  /** How many attempts for server `s` had that fate. */
  ghost function Times(fates: seq<Fate>, first: nat, n: nat, s: nat, f: Fate): nat
    requires n > 0
  {
    if fates == [] then 0
    else
      var i := |fates| - 1;
      Times(fates[..i], first, n, s, f) + if (first + i) % n == s && fates[i] == f then 1 else 0
  }

  /** What was queued on the connection of server `s` since the log was `start` events long. */
  ghost function FramesTo(log: seq<Event>, s: nat, start: nat): seq<seq<byte>> {
    if |log| <= start then []
    else
      var i := |log| - 1;
      FramesTo(log[..i], s, start) + if log[i].OnWire? && log[i].tcp && log[i].s == s then [log[i].bytes] else []
  }

  lemma TallyMore(log: seq<Event>, e: Event, k: Kind)
    ensures Tally(log + [e], k) == Tally(log, k) + if Matches(e, k) then 1 else 0
  {
    assert (log + [e])[..|log|] == log;
  }

  lemma TimesMore(fates: seq<Fate>, g: Fate, first: nat, n: nat, s: nat, f: Fate)
    requires n > 0
    ensures Times(fates + [g], first, n, s, f)
            == Times(fates, first, n, s, f) + if (first + |fates|) % n == s && g == f then 1 else 0
  {
    assert (fates + [g])[..|fates|] == fates;
  }

  lemma FramesMore(log: seq<Event>, e: Event, s: nat, start: nat)
    requires start <= |log|
    ensures FramesTo(log + [e], s, start)
            == FramesTo(log, s, start) + if e.OnWire? && e.tcp && e.s == s then [e.bytes] else []
  {
    assert (log + [e])[..|log|] == log;
  }

  /** `log` is a beginning of `more`. */
  ghost predicate Begins(log: seq<Event>, more: seq<Event>) {
    |log| <= |more| && more[..|log|] == log
  }

  /** Events that are not about the transmission of a query or its time. */
  predicate Plain(e: Event) {
    !e.OnWire? && !e.Unreached? && !e.CameDue?
  }

  ghost predicate PlainMore(log: seq<Event>, more: seq<Event>) {
    Begins(log, more) && forall j :: |log| <= j < |more| ==> Plain(more[j])
  }

  /** The last event of a longer log, and the log before it. */
  lemma PlainLast(log: seq<Event>, more: seq<Event>) returns (before: seq<Event>, e: Event)
    requires PlainMore(log, more) && |log| < |more|
    ensures more == before + [e] && PlainMore(log, before) && Plain(e) && |before| == |more| - 1
  {
    var i := |more| - 1;
    before, e := more[..i], more[i];
    assert before[..|log|] == more[..|log|];
  }

  // ------------------------------------------------------------------------
  // What the log explains
  // ------------------------------------------------------------------------

  /** The message asks the question that the answer repeats, under the same ID. */
  predicate Fits(abuf: seq<byte>, message: seq<byte>, rules: Rules) {
    |abuf| >= HFIXEDSZ && |message| >= 2 && Qid(message) == Qid(abuf) && rules.same(message, abuf)
  }

  /** An answer arrived to the message, and it is passed on. */
  predicate Accepts(e: Event, message: seq<byte>, rules: Rules) {
    e.Arrived? && Fits(e.abuf, message, rules) && Judge(e.abuf, e.tcp, rules.ignoreTc, rules.noCheckResp) == Acceptable
  }

  /** An answer arrived to the message in which server `s` refuses to answer. */
  predicate Refuses(e: Event, s: nat, message: seq<byte>, rules: Rules) {
    && e.Arrived? && e.s == s && Fits(e.abuf, message, rules)
    && Judge(e.abuf, e.tcp, rules.ignoreTc, rules.noCheckResp) == Refused
  }

  /** Why server `s` is not to be tried again for the query: it could not be reached, its sockets were closed because of
      an error, or it refused to answer. */
  ghost predicate Trouble(log: seq<Event>, x: Id, s: nat, message: seq<byte>, rules: Rules) {
    Unreached(x, s) in log || Reset(s) in log || exists i :: 0 <= i < |log| && Refuses(log[i], s, message, rules)
  }

  /** Why an attempt did not go on the wire; failures to reach a server are counted. */
  ghost predicate FateOk(log: seq<Event>, x: Id, r: Record, s: nat, f: Fate, rules: Rules) {
    match f
    case ByWire => true
    case NotReached => true
    case WasBroken => Cut(s) in log
    case WasMarked => Trouble(log, x, s, r.message, rules)
    case WasUsed => OnWire(x, s, true, Framing(r.message)) in log
  }

  /** The counts of a record are those of the log; each attempt has a transmission, a failure, or its reason there. */
  ghost predicate RecordOk(log: seq<Event>, x: Id, r: Record, n: nat, rules: Rules)
    requires n > 0
  {
    && |r.visits| == n && Tally(log, SendOf(x)) == r.sends
    && (forall s :: 0 <= s < n ==>
         && Tally(log, SendTo(x, s)) == r.visits[s]
         && Times(r.fates, r.first, n, s, ByWire) <= r.visits[s]
         && Times(r.fates, r.first, n, s, NotReached) <= Tally(log, FailureAt(x, s)))
    && (forall k :: 0 <= k < |r.fates| ==> FateOk(log, x, r, (r.first + k) % n, r.fates[k], rules))
  }

  /** Why a query has ended as it has: with an answer that arrived for it, for want of memory, because the message is no
      query, or after all attempts, and then with a timeout exactly if its time was up at least once. */
  ghost predicate Explained(log: seq<Event>, x: Id, r: Record, n: nat, tries: nat, rules: Rules) {
    && |r.callbacks| == 1
    && match r.callbacks[0]
       case Success => exists i :: 0 <= i < |log| && Accepts(log[i], r.message, rules)
       case NoMemory => NoRoom(x) in log
       case BadQuery => |r.message| < HFIXEDSZ || |r.message| >= 65536
       case TimedOutStatus => |r.fates| == MaxAttempts(n, tries) && Tally(log, DueOf(x)) > 0
       case ConnectionRefused => |r.fates| == MaxAttempts(n, tries) && Tally(log, DueOf(x)) == 0
  }

  /** Marks and generations of a live query have their reasons in the log. */
  ghost predicate InfoOk(log: seq<Event>, x: Id, q: Query, message: seq<byte>, rules: Rules) {
    forall s :: 0 <= s < |q.info| ==>
      && (q.info[s].skip ==> Trouble(log, x, s, message, rules))
      && (q.info[s].generation > 0 ==> OnWire(x, s, true, Framing(message)) in log)
  }

  ghost predicate WiresOk(log: seq<Event>, wires: seq<Wire>, n: nat) {
    |wires| == n && forall s :: 0 <= s < n ==>
      wires[s].start <= |log| && wires[s].frames == FramesTo(log, s, wires[s].start)
  }

  ghost predicate RecordsOk(log: seq<Event>, hist: map<Id, Record>, n: nat, rules: Rules) {
    n > 0 && forall x <- hist :: RecordOk(log, x, hist[x], n, rules)
  }

  /** What is put on the wire for a query is its message. */
  ghost predicate EventOk(e: Event, hist: map<Id, Record>, n: nat) {
    && (e.OnWire? ==>
          && e.x in hist && e.s < n
          && e.bytes == if e.tcp then Framing(hist[e.x].message) else hist[e.x].message)
    && (e.Unreached? ==> e.x in hist)
    && (e.CameDue? ==> e.x in hist)
  }

  ghost predicate EventsOk(log: seq<Event>, hist: map<Id, Record>, n: nat) {
    forall i :: 0 <= i < |log| ==> EventOk(log[i], hist, n)
  }

  ghost predicate LiveOk(log: seq<Event>, qs: Queries, hist: map<Id, Record>, rules: Rules) {
    forall x <- qs ::
      && x in hist && qs[x].timeouts == Tally(log, DueOf(x))
      && InfoOk(log, x, qs[x], hist[x].message, rules)
  }

  ghost predicate EndsOk(log: seq<Event>, qs: Queries, hist: map<Id, Record>, n: nat, tries: nat, rules: Rules) {
    forall x <- hist :: x !in qs ==> Explained(log, x, hist[x], n, tries, rules)
  }

  ghost predicate BreaksOk(log: seq<Event>, servers: seq<Server>) {
    forall s :: 0 <= s < |servers| && servers[s].broken ==> Cut(s) in log
  }

  ghost predicate LogOk(log: seq<Event>, servers: seq<Server>, wires: seq<Wire>, qs: Queries, hist: map<Id, Record>,
      n: nat, tries: nat, rules: Rules) {
    && WiresOk(log, wires, n) && RecordsOk(log, hist, n, rules) && EventsOk(log, hist, n)
    && LiveOk(log, qs, hist, rules) && EndsOk(log, qs, hist, n, tries, rules) && BreaksOk(log, servers)
  }

  // ------------------------------------------------------------------------
  // One more event
  // ------------------------------------------------------------------------

  /** The event is about the transmission or the time of the query. */
  predicate About(e: Event, x: Id) {
    (e.OnWire? || e.Unreached? || e.CameDue?) && e.x == x
  }

  lemma TroubleMore(log: seq<Event>, e: Event, x: Id, s: nat, message: seq<byte>, rules: Rules)
    requires Trouble(log, x, s, message, rules)
    ensures Trouble(log + [e], x, s, message, rules)
  {
    if i :| 0 <= i < |log| && Refuses(log[i], s, message, rules) {
      assert (log + [e])[i] == log[i];
    }
  }

  lemma {:induction false} RecordMore(log: seq<Event>, e: Event, x: Id, r: Record, n: nat, rules: Rules)
    requires n > 0 && RecordOk(log, x, r, n, rules) && !About(e, x)
    ensures RecordOk(log + [e], x, r, n, rules)
  {
    hide Trouble, Times, Tally;
    TallyMore(log, e, SendOf(x));
    forall s | 0 <= s < n
      ensures Tally(log + [e], SendTo(x, s)) == Tally(log, SendTo(x, s))
      ensures Tally(log + [e], FailureAt(x, s)) == Tally(log, FailureAt(x, s))
    {
      TallyMore(log, e, SendTo(x, s));
      TallyMore(log, e, FailureAt(x, s));
    }
    forall k | 0 <= k < |r.fates| ensures FateOk(log + [e], x, r, (r.first + k) % n, r.fates[k], rules) {
      FateMore(log, e, x, r, (r.first + k) % n, r.fates[k], rules);
    }
  }

  lemma FateMore(log: seq<Event>, e: Event, x: Id, r: Record, s: nat, f: Fate, rules: Rules)
    requires FateOk(log, x, r, s, f, rules)
    ensures FateOk(log + [e], x, r, s, f, rules)
  {
    hide Trouble;
    if f == WasMarked {
      TroubleMore(log, e, x, s, r.message, rules);
    }
  }

  lemma {:induction false} ExplainedMore(log: seq<Event>, e: Event, x: Id, r: Record, n: nat, tries: nat, rules: Rules)
    requires Explained(log, x, r, n, tries, rules) && e != CameDue(x)
    ensures Explained(log + [e], x, r, n, tries, rules)
  {
    hide Tally, Accepts;
    TallyMore(log, e, DueOf(x));
    if i :| 0 <= i < |log| && Accepts(log[i], r.message, rules) {
      assert (log + [e])[i] == log[i];
    }
  }

  lemma {:induction false} InfoMore(log: seq<Event>, e: Event, x: Id, q: Query, message: seq<byte>, rules: Rules)
    requires InfoOk(log, x, q, message, rules)
    ensures InfoOk(log + [e], x, q, message, rules)
  {
    hide Trouble;
    forall s | 0 <= s < |q.info| && q.info[s].skip ensures Trouble(log + [e], x, s, message, rules) {
      TroubleMore(log, e, x, s, message, rules);
    }
  }

  lemma {:induction false} WiresMore(log: seq<Event>, e: Event, wires: seq<Wire>, n: nat)
    requires WiresOk(log, wires, n) && !e.OnWire?
    ensures WiresOk(log + [e], wires, n)
  {
    hide FramesTo;
    forall s | 0 <= s < n ensures FramesTo(log + [e], s, wires[s].start) == FramesTo(log, s, wires[s].start) {
      FramesMore(log, e, s, wires[s].start);
    }
  }

  /** A plain event changes nothing. */
  lemma {:induction false} LogMore(log: seq<Event>, e: Event, servers: seq<Server>, wires: seq<Wire>, qs: Queries,
      hist: map<Id, Record>, n: nat, tries: nat, rules: Rules)
    requires LogOk(log, servers, wires, qs, hist, n, tries, rules) && Plain(e)
    ensures LogOk(log + [e], servers, wires, qs, hist, n, tries, rules)
  {
    hide WiresOk, RecordOk, Explained, InfoOk, EventOk, Tally;
    WiresMore(log, e, wires, n);
    forall x <- hist ensures RecordOk(log + [e], x, hist[x], n, rules) {
      RecordMore(log, e, x, hist[x], n, rules);
    }
    forall x <- qs
      ensures Tally(log + [e], DueOf(x)) == Tally(log, DueOf(x)) && InfoOk(log + [e], x, qs[x], hist[x].message, rules)
    {
      TallyMore(log, e, DueOf(x));
      InfoMore(log, e, x, qs[x], hist[x].message, rules);
    }
    forall x <- hist | x !in qs ensures Explained(log + [e], x, hist[x], n, tries, rules) {
      ExplainedMore(log, e, x, hist[x], n, tries, rules);
    }
    assert EventOk(e, hist, n) by { PlainEvent(e, hist, n); }
  }

  lemma PlainEvent(e: Event, hist: map<Id, Record>, n: nat)
    requires Plain(e)
    ensures EventOk(e, hist, n)
  {
  }

  /** Nor do several. */
  lemma {:induction false} LogPlain(log: seq<Event>, more: seq<Event>, servers: seq<Server>, wires: seq<Wire>,
      qs: Queries, hist: map<Id, Record>, n: nat, tries: nat, rules: Rules)
    requires LogOk(log, servers, wires, qs, hist, n, tries, rules) && PlainMore(log, more)
    ensures LogOk(more, servers, wires, qs, hist, n, tries, rules)
    decreases |more|
  {
    hide LogOk, PlainMore;
    if |more| > |log| {
      var before, e := PlainLast(log, more);
      LogPlain(log, before, servers, wires, qs, hist, n, tries, rules);
      LogMore(before, e, servers, wires, qs, hist, n, tries, rules);
    } else {
      PlainAll(log, more);
    }
  }

  lemma PlainAll(log: seq<Event>, more: seq<Event>)
    requires PlainMore(log, more)
    ensures |more| >= |log| && (|more| == |log| ==> more == log)
  {
  }

  // ------------------------------------------------------------------------
  // One change of the state
  // ------------------------------------------------------------------------

  lemma LogServers(log: seq<Event>, servers: seq<Server>, servers': seq<Server>, wires: seq<Wire>, qs: Queries,
      hist: map<Id, Record>, n: nat, tries: nat, rules: Rules)
    requires LogOk(log, servers, wires, qs, hist, n, tries, rules) && |servers'| == |servers|
    requires forall s :: 0 <= s < |servers| && servers'[s].broken ==> servers[s].broken || Cut(s) in log
    ensures LogOk(log, servers', wires, qs, hist, n, tries, rules)
  {
    hide WiresOk, RecordsOk, EventsOk, LiveOk, EndsOk;
  }

  lemma LogWire(log: seq<Event>, servers: seq<Server>, wires: seq<Wire>, qs: Queries, hist: map<Id, Record>,
      n: nat, tries: nat, rules: Rules, i: nat, w: Wire)
    requires LogOk(log, servers, wires, qs, hist, n, tries, rules) && i < n
    requires |wires| == n && (w == wires[i].(written := w.written) || w == Wire([], [], |log|))
    ensures LogOk(log, servers, wires[i := w], qs, hist, n, tries, rules)
  {
    hide RecordsOk, EventsOk, LiveOk, EndsOk, BreaksOk;
  }

  lemma LogQuery(log: seq<Event>, servers: seq<Server>, wires: seq<Wire>, qs: Queries, hist: map<Id, Record>,
      n: nat, tries: nat, rules: Rules, x: Id, q: Query)
    requires LogOk(log, servers, wires, qs, hist, n, tries, rules) && x in qs && x in hist
    requires q.timeouts == qs[x].timeouts && InfoOk(log, x, q, hist[x].message, rules)
    ensures LogOk(log, servers, wires, qs[x := q], hist, n, tries, rules)
  {
    hide WiresOk, RecordsOk, EventsOk, BreaksOk, InfoOk, Explained, Tally;
  }

  lemma LogRecord(log: seq<Event>, servers: seq<Server>, wires: seq<Wire>, qs: Queries, hist: map<Id, Record>,
      n: nat, tries: nat, rules: Rules, x: Id, r: Record)
    requires LogOk(log, servers, wires, qs, hist, n, tries, rules) && x in qs && x in hist && n > 0
    requires r.message == hist[x].message && RecordOk(log, x, r, n, rules)
    ensures LogOk(log, servers, wires, qs, hist[x := r], n, tries, rules)
  {
    hide WiresOk, RecordOk, BreaksOk, InfoOk, Explained, Tally;
    forall i | 0 <= i < |log| ensures EventOk(log[i], hist[x := r], n) {
      assert EventOk(log[i], hist, n);
    }
  }

  /** The query has ended. */
  lemma LogEnd(log: seq<Event>, servers: seq<Server>, wires: seq<Wire>, qs: Queries, hist: map<Id, Record>,
      n: nat, tries: nat, rules: Rules, x: Id, r: Record)
    requires LogOk(log, servers, wires, qs, hist, n, tries, rules) && x in qs && x in hist
    requires r == hist[x].(callbacks := r.callbacks) && Explained(log, x, r, n, tries, rules)
    ensures LogOk(log, servers, wires, qs - {x}, hist[x := r], n, tries, rules)
  {
    hide WiresOk, BreaksOk, InfoOk, Explained, Tally, Trouble;
    assert RecordOk(log, x, r, n, rules) by { SameRecord(log, x, hist[x], r, n, rules); }
    hide RecordOk;
    forall i | 0 <= i < |log| ensures EventOk(log[i], hist[x := r], n) {
      assert EventOk(log[i], hist, n);
    }
  }

  lemma SameRecord(log: seq<Event>, x: Id, r: Record, r': Record, n: nat, rules: Rules)
    requires n > 0 && RecordOk(log, x, r, n, rules)
    requires r' == r.(callbacks := r'.callbacks, switched := r'.switched, waited := r'.waited)
    ensures RecordOk(log, x, r', n, rules)
  {
    hide Tally, Times, Trouble;
    forall k | 0 <= k < |r.fates| ensures FateOk(log, x, r', (r.first + k) % n, r.fates[k], rules) {
      assert FateOk(log, x, r, (r.first + k) % n, r.fates[k], rules);
    }
  }

  /** Nothing in the log is about a query that is not known. */
  lemma {:induction false} NoneAbout(log: seq<Event>, hist: map<Id, Record>, n: nat, x: Id, k: Kind)
    requires EventsOk(log, hist, n) && x !in hist && k.x == x
    ensures Tally(log, k) == 0
    decreases |log|
  {
    if log == [] {
    } else {
      var i := |log| - 1;
      assert EventOk(log[i], hist, n);
      forall j | 0 <= j < i ensures EventOk(log[..i][j], hist, n) {
        assert EventOk(log[j], hist, n);
      }
      NoneAbout(log[..i], hist, n, x, k);
    }
  }

  /** A record of a query about which nothing has happened. */
  lemma {:induction false} NewRecord(log: seq<Event>, hist: map<Id, Record>, n: nat, rules: Rules, x: Id, r: Record)
    requires n > 0 && EventsOk(log, hist, n) && x !in hist
    requires r.sends == 0 && r.visits == seq(n, _ => 0) && r.fates == []
    ensures RecordOk(log, x, r, n, rules) && Tally(log, DueOf(x)) == 0
  {
    hide EventsOk, Tally;
    NoneAbout(log, hist, n, x, SendOf(x));
    NoneAbout(log, hist, n, x, DueOf(x));
    forall s | 0 <= s < n ensures Tally(log, SendTo(x, s)) == 0 {
      NoneAbout(log, hist, n, x, SendTo(x, s));
    }
  }

  /** A new query: it is live, or it is refused. */
  lemma {:induction false} LogNew(log: seq<Event>, servers: seq<Server>, wires: seq<Wire>, qs: Queries,
      hist: map<Id, Record>, n: nat, tries: nat, rules: Rules, x: Id, r: Record)
    requires LogOk(log, servers, wires, qs, hist, n, tries, rules) && x !in hist
    requires r.sends == 0 && r.visits == seq(n, _ => 0) && r.fates == []
    ensures Explained(log, x, r, n, tries, rules) ==> LogOk(log, servers, wires, qs, hist[x := r], n, tries, rules)
    ensures forall q: Query :: q.timeouts == 0 && InfoOk(log, x, q, r.message, rules) ==>
              LogOk(log, servers, wires, qs[x := q], hist[x := r], n, tries, rules)
  {
    hide WiresOk, BreaksOk, InfoOk, Explained, Tally, RecordOk, EventOk;
    NewRecord(log, hist, n, rules, x, r);
    forall i | 0 <= i < |log| ensures EventOk(log[i], hist[x := r], n) {
      assert EventOk(log[i], hist, n);
      EventKnown(log[i], hist, n, x, r);
    }
  }

  lemma EventKnown(e: Event, hist: map<Id, Record>, n: nat, x: Id, r: Record)
    requires EventOk(e, hist, n) && x !in hist
    ensures EventOk(e, hist[x := r], n)
  {
  }

  /** A channel on which nothing has happened. */
  lemma LogStart(servers: seq<Server>, wires: seq<Wire>, n: nat, tries: nat, rules: Rules)
    requires n > 0 && |wires| == n && forall s :: 0 <= s < n ==> wires[s] == Wire([], [], 0)
    requires forall s :: 0 <= s < |servers| ==> !servers[s].broken
    ensures LogOk([], servers, wires, map[], map[], n, tries, rules)
  {
  }

  /** What the log says about a live query. */
  lemma LogLive(log: seq<Event>, servers: seq<Server>, wires: seq<Wire>, qs: Queries, hist: map<Id, Record>,
      n: nat, tries: nat, rules: Rules, x: Id)
    requires LogOk(log, servers, wires, qs, hist, n, tries, rules) && x in qs
    ensures x in hist && InfoOk(log, x, qs[x], hist[x].message, rules) && qs[x].timeouts == Tally(log, DueOf(x))
    ensures n > 0 && |wires| == n && RecordOk(log, x, hist[x], n, rules)
  {
  }

  lemma InfoSame(log: seq<Event>, x: Id, q: Query, q': Query, message: seq<byte>, rules: Rules)
    requires InfoOk(log, x, q, message, rules) && q'.info == q.info
    ensures InfoOk(log, x, q', message, rules)
  {
  }

  /** The query may be marked not to go to a server that gave trouble. */
  lemma InfoMarked(log: seq<Event>, x: Id, q: Query, s: nat, message: seq<byte>, rules: Rules)
    requires InfoOk(log, x, q, message, rules) && s < |q.info| && Trouble(log, x, s, message, rules)
    ensures InfoOk(log, x, q.(info := q.info[s := q.info[s].(skip := true)]), message, rules)
  {
    hide Trouble;
  }

  // ------------------------------------------------------------------------
  // Events about one query
  // ------------------------------------------------------------------------

  /** An event about the query `x`, which is live, changes the query and its record. */
  lemma {:induction false} LogAbout(log: seq<Event>, e: Event, servers: seq<Server>, wires: seq<Wire>,
      wires': seq<Wire>, qs: Queries, hist: map<Id, Record>, n: nat, tries: nat, rules: Rules, x: Id, q: Query,
      r: Record)
    requires LogOk(log, servers, wires, qs, hist, n, tries, rules) && x in qs && x in hist
    requires About(e, x) && EventOk(e, hist, n) && WiresOk(log + [e], wires', n) && n > 0
    requires r.message == hist[x].message && RecordOk(log + [e], x, r, n, rules)
    requires q.timeouts == Tally(log + [e], DueOf(x)) && InfoOk(log + [e], x, q, r.message, rules)
    ensures LogOk(log + [e], servers, wires', qs[x := q], hist[x := r], n, tries, rules)
  {
    hide WiresOk, RecordOk, Explained, InfoOk, EventOk, Tally;
    forall y <- hist | y != x ensures RecordOk(log + [e], y, hist[y], n, rules) {
      RecordMore(log, e, y, hist[y], n, rules);
    }
    forall y <- qs | y != x
      ensures Tally(log + [e], DueOf(y)) == Tally(log, DueOf(y)) && InfoOk(log + [e], y, qs[y], hist[y].message, rules)
    {
      TallyMore(log, e, DueOf(y));
      InfoMore(log, e, y, qs[y], hist[y].message, rules);
    }
    forall y <- hist | y !in qs ensures Explained(log + [e], y, hist[y], n, tries, rules) {
      ExplainedMore(log, e, y, hist[y], n, tries, rules);
    }
    forall i | 0 <= i < |log + [e]| ensures EventOk((log + [e])[i], hist[x := r], n) {
      assert i < |log| ==> EventOk(log[i], hist, n);
      EventSame((log + [e])[i], hist, n, x, r);
    }
  }

  lemma EventSame(e: Event, hist: map<Id, Record>, n: nat, x: Id, r: Record)
    requires EventOk(e, hist, n) && x in hist && r.message == hist[x].message
    ensures EventOk(e, hist[x := r], n)
  {
  }

  /** The attempt that comes next is one for server `s`. */
  predicate IsNext(r: Record, n: nat, s: nat)
    requires n > 0
  {
    (r.first + |r.fates|) % n == s
  }

  /** The record has not changed but for one attempt more, for server `s`, with fate `f`; if the attempt was made
      already, not even for that. */
  predicate OneMore(r: Record, r': Record, n: nat, s: nat, f: Fate)
    requires n > 0
  {
    r' == r || (r' == r.(fates := r.fates + [f]) && IsNext(r, n, s))
  }

  lemma {:induction false} FatesMore(log: seq<Event>, e: Event, x: Id, r: Record, r': Record, n: nat, s: nat, f: Fate,
      rules: Rules)
    requires n > 0 && RecordOk(log, x, r, n, rules) && OneMore(r, r', n, s, f) && (f == ByWire || f == NotReached)
    ensures forall k :: 0 <= k < |r'.fates| ==> FateOk(log + [e], x, r', (r.first + k) % n, r'.fates[k], rules)
  {
    hide Tally, Times, Trouble;
    forall k | 0 <= k < |r'.fates| ensures FateOk(log + [e], x, r', (r.first + k) % n, r'.fates[k], rules) {
      if k < |r.fates| {
        assert FateOk(log, x, r, (r.first + k) % n, r.fates[k], rules);
        FateMore(log, e, x, r, (r.first + k) % n, r.fates[k], rules);
      }
    }
  }

  /** A transmission. */
  lemma {:induction false} RecordSent(log: seq<Event>, e: Event, x: Id, r: Record, r': Record, n: nat, wait: nat,
      rules: Rules)
    requires n > 0 && RecordOk(log, x, r, n, rules) && e.OnWire? && e.x == x && e.s < n
    requires r' == Counted(r, e.s, wait).(fates := r'.fates) && OneMore(r, r.(fates := r'.fates), n, e.s, ByWire)
    ensures RecordOk(log + [e], x, r', n, rules)
  {
    hide Tally, Times, FateOk;
    TallyMore(log, e, SendOf(x));
    forall s | 0 <= s < n
      ensures Tally(log + [e], SendTo(x, s)) == r'.visits[s]
      ensures Times(r'.fates, r.first, n, s, ByWire) <= r'.visits[s]
      ensures Times(r'.fates, r.first, n, s, NotReached) <= Tally(log + [e], FailureAt(x, s))
    {
      TallyMore(log, e, SendTo(x, s));
      TallyMore(log, e, FailureAt(x, s));
      TimesMore(r.fates, ByWire, r.first, n, s, ByWire);
      TimesMore(r.fates, ByWire, r.first, n, s, NotReached);
    }
    FatesMore(log, e, x, r, r.(fates := r'.fates), n, e.s, ByWire, rules);
    SameFates(log + [e], x, r.(fates := r'.fates), r', n, rules);
  }

  lemma SameFates(log: seq<Event>, x: Id, r: Record, r': Record, n: nat, rules: Rules)
    requires n > 0 && r'.fates == r.fates && r'.message == r.message && r'.first == r.first
    requires forall k :: 0 <= k < |r.fates| ==> FateOk(log, x, r, (r.first + k) % n, r.fates[k], rules)
    ensures forall k :: 0 <= k < |r.fates| ==> FateOk(log, x, r', (r.first + k) % n, r.fates[k], rules)
  {
    hide Trouble;
    forall k | 0 <= k < |r.fates| ensures FateOk(log, x, r', (r.first + k) % n, r.fates[k], rules) {
      assert FateOk(log, x, r, (r.first + k) % n, r.fates[k], rules);
    }
  }

  /** A failure to reach the server. */
  lemma {:induction false} RecordFailed(log: seq<Event>, x: Id, s: nat, r: Record, r': Record, n: nat, rules: Rules)
    requires n > 0 && RecordOk(log, x, r, n, rules) && s < n && OneMore(r, r', n, s, NotReached)
    ensures RecordOk(log + [Unreached(x, s)], x, r', n, rules)
  {
    hide Tally, Times, FateOk;
    var e := Unreached(x, s);
    TallyMore(log, e, SendOf(x));
    forall t | 0 <= t < n
      ensures Tally(log + [e], SendTo(x, t)) == r.visits[t]
      ensures Times(r'.fates, r.first, n, t, ByWire) <= r.visits[t]
      ensures Times(r'.fates, r.first, n, t, NotReached) <= Tally(log + [e], FailureAt(x, t))
    {
      TallyMore(log, e, SendTo(x, t));
      TallyMore(log, e, FailureAt(x, t));
      TimesMore(r.fates, NotReached, r.first, n, t, ByWire);
      TimesMore(r.fates, NotReached, r.first, n, t, NotReached);
    }
    FatesMore(log, e, x, r, r', n, s, NotReached, rules);
  }

  /** An attempt that is passed over. */
  lemma {:induction false} RecordPassed(log: seq<Event>, x: Id, r: Record, n: nat, f: Fate, rules: Rules)
    requires n > 0 && RecordOk(log, x, r, n, rules) && f != ByWire && f != NotReached
    requires FateOk(log, x, r, (r.first + |r.fates|) % n, f, rules)
    ensures RecordOk(log, x, r.(fates := r.fates + [f]), n, rules)
  {
    hide Tally, Times, Trouble;
    var r' := r.(fates := r.fates + [f]);
    forall s | 0 <= s < n
      ensures Times(r'.fates, r.first, n, s, ByWire) == Times(r.fates, r.first, n, s, ByWire)
      ensures Times(r'.fates, r.first, n, s, NotReached) == Times(r.fates, r.first, n, s, NotReached)
    {
      TimesMore(r.fates, f, r.first, n, s, ByWire);
      TimesMore(r.fates, f, r.first, n, s, NotReached);
    }
    forall k | 0 <= k < |r'.fates| ensures FateOk(log, x, r', (r.first + k) % n, r'.fates[k], rules) {
      assert k < |r.fates| ==> FateOk(log, x, r, (r.first + k) % n, r.fates[k], rules);
    }
  }

  /** The query is sent: the log, its record, and over TCP the connection and the query have changed. */
  lemma {:induction false} LogSent(log: seq<Event>, servers: seq<Server>, wires: seq<Wire>, wires': seq<Wire>,
      qs: Queries, hist: map<Id, Record>, n: nat, tries: nat, rules: Rules, x: Id, s: nat, tcp: bool, q: Query,
      r: Record, wait: nat)
    requires LogOk(log, servers, wires, qs, hist, n, tries, rules) && x in qs && x in hist && n > 0 && s < n == |wires|
    requires |hist[x].visits| == n
    requires r == Counted(hist[x], s, wait).(fates := r.fates)
    requires OneMore(hist[x], hist[x].(fates := r.fates), n, s, ByWire)
    requires var bytes := if tcp then Framing(r.message) else r.message;
             && (wires' == if tcp then wires[s := wires[s].(frames := wires[s].frames + [bytes])] else wires)
             && |q.info| == |qs[x].info| && s < |q.info| && q.timeouts == qs[x].timeouts
             && q.info == if tcp then qs[x].info[s := qs[x].info[s].(generation := q.info[s].generation)]
                          else qs[x].info
    ensures var bytes := if tcp then Framing(r.message) else r.message;
            LogOk(log + [OnWire(x, s, tcp, bytes)], servers, wires', qs[x := q], hist[x := r], n, tries, rules)
  {
    hide Tally, Times, Trouble, OneMore, FateOk;
    var bytes := if tcp then Framing(r.message) else r.message;
    var e := OnWire(x, s, tcp, bytes);
    assert RecordOk(log, x, hist[x], n, rules) && InfoOk(log, x, qs[x], r.message, rules);
    RecordSent(log, e, x, hist[x], r, n, wait, rules);
    InfoMore(log, e, x, qs[x], r.message, rules);
    InfoSent(log + [e], x, s, tcp, qs[x], q, r.message, rules);
    WiresSent(log, e, wires, wires', n);
    TallyMore(log, e, DueOf(x));
    hide RecordOk, InfoOk, WiresOk;
    LogAbout(log, e, servers, wires, wires', qs, hist, n, tries, rules, x, q, r);
  }

  lemma InfoSent(log: seq<Event>, x: Id, s: nat, tcp: bool, q: Query, q': Query, message: seq<byte>, rules: Rules)
    requires InfoOk(log, x, q, message, rules) && (tcp ==> OnWire(x, s, true, Framing(message)) in log)
    requires |q'.info| == |q.info| && s < |q.info|
    requires q'.info == if tcp then q.info[s := q.info[s].(generation := q'.info[s].generation)] else q.info
    ensures InfoOk(log, x, q', message, rules)
  {
    hide Trouble;
  }

  lemma WiresSent(log: seq<Event>, e: Event, wires: seq<Wire>, wires': seq<Wire>, n: nat)
    requires WiresOk(log, wires, n) && e.OnWire? && e.s < n == |wires|
    requires wires' == if e.tcp then wires[e.s := wires[e.s].(frames := wires[e.s].frames + [e.bytes])] else wires
    ensures WiresOk(log + [e], wires', n)
  {
    hide FramesTo;
    forall s | 0 <= s < n
      ensures wires'[s].start <= |log| && wires'[s].frames == FramesTo(log + [e], s, wires'[s].start)
    {
      FramesMore(log, e, s, wires[s].start);
    }
  }

  /** The query could not be sent. */
  lemma {:induction false} LogUnreached(log: seq<Event>, servers: seq<Server>, wires: seq<Wire>, qs: Queries,
      hist: map<Id, Record>, n: nat, tries: nat, rules: Rules, x: Id, s: nat, r: Record)
    requires LogOk(log, servers, wires, qs, hist, n, tries, rules) && x in qs && x in hist && n > 0 && s < n
    requires OneMore(hist[x], r, n, s, NotReached)
    ensures LogOk(log + [Unreached(x, s)], servers, wires, qs, hist[x := r], n, tries, rules)
  {
    hide Tally, Times, Trouble, FateOk;
    var e := Unreached(x, s);
    assert RecordOk(log, x, hist[x], n, rules) && InfoOk(log, x, qs[x], r.message, rules);
    RecordFailed(log, x, s, hist[x], r, n, rules);
    InfoMore(log, e, x, qs[x], r.message, rules);
    WiresMore(log, e, wires, n);
    TallyMore(log, e, DueOf(x));
    hide RecordOk, InfoOk, WiresOk;
    LogAbout(log, e, servers, wires, wires, qs, hist, n, tries, rules, x, qs[x], r);
    assert qs[x := qs[x]] == qs;
  }

  /** The query's time is up. */
  lemma {:induction false} LogDue(log: seq<Event>, servers: seq<Server>, wires: seq<Wire>, qs: Queries,
      hist: map<Id, Record>, n: nat, tries: nat, rules: Rules, x: Id, q: Query)
    requires LogOk(log, servers, wires, qs, hist, n, tries, rules) && x in qs && x in hist && n > 0
    requires q.timeouts == qs[x].timeouts + 1 && q.info == qs[x].info
    ensures LogOk(log + [CameDue(x)], servers, wires, qs[x := q], hist, n, tries, rules)
  {
    hide Tally, Times, Trouble, FateOk;
    var e, r := CameDue(x), hist[x];
    assert RecordOk(log, x, r, n, rules) && InfoOk(log, x, qs[x], r.message, rules);
    RecordDue(log, x, r, n, rules);
    InfoMore(log, e, x, qs[x], r.message, rules);
    assert InfoOk(log + [e], x, q, r.message, rules);
    WiresMore(log, e, wires, n);
    TallyMore(log, e, DueOf(x));
    hide RecordOk, InfoOk, WiresOk;
    LogAbout(log, e, servers, wires, wires, qs, hist, n, tries, rules, x, q, r);
    assert hist[x := r] == hist;
  }

  lemma {:induction false} RecordDue(log: seq<Event>, x: Id, r: Record, n: nat, rules: Rules)
    requires n > 0 && RecordOk(log, x, r, n, rules)
    ensures RecordOk(log + [CameDue(x)], x, r, n, rules)
  {
    hide Tally, Times, Trouble, FateOk;
    var e := CameDue(x);
    TallyMore(log, e, SendOf(x));
    forall s | 0 <= s < n
      ensures Tally(log + [e], SendTo(x, s)) == Tally(log, SendTo(x, s))
      ensures Tally(log + [e], FailureAt(x, s)) == Tally(log, FailureAt(x, s))
    {
      TallyMore(log, e, SendTo(x, s));
      TallyMore(log, e, FailureAt(x, s));
    }
    forall k | 0 <= k < |r.fates| ensures FateOk(log + [e], x, r, (r.first + k) % n, r.fates[k], rules) {
      FateMore(log, e, x, r, (r.first + k) % n, r.fates[k], rules);
    }
  }

  // ------------------------------------------------------------------------
  // What the log says about queries that are gone
  // ------------------------------------------------------------------------

  lemma {:induction false} TallyIn(log: seq<Event>, e: Event, k: Kind)
    requires forall d: Event :: Matches(d, k) <==> d == e
    ensures Tally(log, k) > 0 <==> e in log
    decreases |log|
  {
    if log == [] {
    } else {
      var i := |log| - 1;
      TallyIn(log[..i], e, k);
      assert log == log[..i] + [log[i]];
    }
  }

  /** Why a query has ended: an answer to it arrived that is passed on, memory ran out for it, or all its attempts have
      been made or passed over; and then it is a timeout exactly if its time was up at least once. */
  lemma {:induction false} WhyGone(log: seq<Event>, servers: seq<Server>, wires: seq<Wire>, qs: Queries,
      hist: map<Id, Record>, n: nat, tries: nat, rules: Rules, x: Id)
    requires LogOk(log, servers, wires, qs, hist, n, tries, rules) && x in hist && x !in qs
    ensures |hist[x].callbacks| == 1
    ensures hist[x].callbacks == [Success] ==> exists i :: 0 <= i < |log| && Accepts(log[i], hist[x].message, rules)
    ensures hist[x].callbacks == [NoMemory] ==> NoRoom(x) in log
    ensures hist[x].callbacks == [BadQuery] ==> |hist[x].message| < 12 || |hist[x].message| >= 65536
    ensures hist[x].callbacks == [TimedOutStatus] || hist[x].callbacks == [ConnectionRefused] ==>
              |hist[x].fates| == (if n * tries == 0 then 1 else n * tries)
              && (hist[x].callbacks == [TimedOutStatus] <==> CameDue(x) in log)
  {
    hide WiresOk, RecordOk, EventsOk, LiveOk, BreaksOk, Accepts, Tally;
    assert Explained(log, x, hist[x], n, tries, rules);
    TallyIn(log, CameDue(x), DueOf(x));
  }

  /** The attempts for server `s`, whatever became of them. */
  ghost function AllTimes(r: Record, n: nat, s: nat): nat
    requires n > 0
  {
    Times(r.fates, r.first, n, s, ByWire) + Times(r.fates, r.first, n, s, NotReached)
    + Times(r.fates, r.first, n, s, WasBroken) + Times(r.fates, r.first, n, s, WasMarked)
    + Times(r.fates, r.first, n, s, WasUsed)
  }

  lemma {:induction false} TimesVisits(r: Record, n: nat, s: nat)
    requires n > 0
    ensures AllTimes(r, n, s) == Visits(s, r.first, |r.fates|, n)
    decreases |r.fates|
  {
    if r.fates == [] {
    } else {
      var i := |r.fates| - 1;
      var r' := r.(fates := r.fates[..i]);
      TimesVisits(r', n, s);
      assert r.fates == r'.fates + [r.fates[i]];
      TimesMore(r'.fates, r.fates[i], r.first, n, s, ByWire);
      TimesMore(r'.fates, r.fates[i], r.first, n, s, NotReached);
      TimesMore(r'.fates, r.fates[i], r.first, n, s, WasBroken);
      TimesMore(r'.fates, r.fates[i], r.first, n, s, WasMarked);
      TimesMore(r'.fates, r.fates[i], r.first, n, s, WasUsed);
    }
  }

  /** A query that was given up has used `tries` attempts for each server. Each is a transmission to it or a failure to
      reach it, as often as these are in the log, or was passed over for a reason that is in the log. */
  lemma {:induction false} EveryAttempt(log: seq<Event>, servers: seq<Server>, wires: seq<Wire>, qs: Queries,
      hist: map<Id, Record>, n: nat, tries: nat, rules: Rules, x: Id)
    requires LogOk(log, servers, wires, qs, hist, n, tries, rules) && x in hist && x !in qs && n > 0 && tries > 0
    requires hist[x].callbacks == [TimedOutStatus] || hist[x].callbacks == [ConnectionRefused]
    requires hist[x].first < n
    ensures var r := hist[x];
            && (forall k :: 0 <= k < n * tries ==>
                  k < |r.fates| && FateOk(log, x, r, (r.first + k) % n, r.fates[k], rules))
            && |r.visits| == n
            && forall s :: 0 <= s < n ==>
                 && AllTimes(r, n, s) == tries
                 && Times(r.fates, r.first, n, s, ByWire) <= r.visits[s] == Tally(log, SendTo(x, s))
                 && Times(r.fates, r.first, n, s, NotReached) <= Tally(log, FailureAt(x, s))
  {
    hide WiresOk, EventsOk, LiveOk, BreaksOk, Accepts, Tally, Times, FateOk;
    var r := hist[x];
    assert Explained(log, x, r, n, tries, rules) && RecordOk(log, x, r, n, rules);
    assert n * tries > 0 by { Positive(n, tries); }
    forall s | 0 <= s < n ensures AllTimes(r, n, s) == tries {
      TimesVisits(r, n, s);
      EachServerTries(s, r.first, n, tries);
      assert tries * n == n * tries;
    }
  }

  lemma Positive(a: nat, b: nat)
    requires a > 0 && b > 0
    ensures a * b > 0
  {
  }

  // ------------------------------------------------------------------------
  // From one state to another
  // ------------------------------------------------------------------------

  /** Nothing was read from a socket, nor written to a TCP socket. */
  predicate Inward(e: Event) {
    !e.Arrived? && !e.ReadFailed? && !e.Wrote? && !e.WouldBlock? && !e.WriteFailed?
  }

  ghost predicate Inner(log: seq<Event>, more: seq<Event>) {
    Begins(log, more) && forall j :: |log| <= j < |more| ==> Inward(more[j])
  }

  lemma InnerSame(log: seq<Event>)
    ensures Inner(log, log)
  {
  }

  lemma InnerOne(log: seq<Event>, e: Event)
    requires Inward(e)
    ensures Inner(log, log + [e])
  {
  }

  lemma InnerTwice(a: seq<Event>, b: seq<Event>, c: seq<Event>)
    requires Inner(a, b) && Inner(b, c)
    ensures Inner(a, c)
  {
    assert c[..|a|] == c[..|b|][..|a|];
    forall j | |a| <= j < |b| ensures Inward(c[j]) {
      assert c[j] == c[..|b|][j] == b[j];
    }
  }

  lemma InnerIn(log: seq<Event>, more: seq<Event>, e: Event)
    requires Inner(log, more) && e in log
    ensures e in more
  {
    assert e in more[..|log|];
  }

  lemma {:induction false} TallyGrows(log: seq<Event>, more: seq<Event>, k: Kind)
    requires Begins(log, more)
    ensures Tally(log, k) <= Tally(more, k)
    decreases |more|
  {
    if |more| > |log| {
      assert more[..|more| - 1][..|log|] == more[..|log|];
      TallyGrows(log, more[..|more| - 1], k);
    } else {
      assert more[..|log|] == more;
    }
  }

  /** Why an attempt for server `s` need not go on the wire, as things stand; `failed` says that the server could not be
      reached. */
  ghost predicate Excused(q: Query, sv: Server, s: nat, f: Fate, failed: bool)
    requires s < |q.info|
  {
    match f
    case ByWire => true
    case NotReached => failed
    case WasBroken => sv.broken
    case WasMarked => q.info[s].skip || failed
    case WasUsed => q.usingTcp && q.info[s].generation == sv.generation
  }

  /** The attempts from number `from` on each have their excuse, as things stood with the query `q` and the servers;
      only the last one may be on the wire, and only if the query is `live`. */
  ghost predicate Fair(q: Query, servers: seq<Server>, log: seq<Event>, more: seq<Event>, x: Id, from: nat, r: Record,
      n: nat, live: bool)
    requires n > 0
  {
    && |q.info| == n == |servers|
    && forall k :: from <= k < |r.fates| ==>
         var s := (r.first + k) % n;
         && Excused(q, servers[s], s, r.fates[k], Tally(more, FailureAt(x, s)) > Tally(log, FailureAt(x, s)))
         && (r.fates[k] == ByWire ==> live && k == |r.fates| - 1)
  }

  lemma FairNone(q: Query, servers: seq<Server>, log: seq<Event>, more: seq<Event>, x: Id, r: Record, n: nat,
      live: bool)
    requires n > 0 && |q.info| == n == |servers|
    ensures Fair(q, servers, log, more, x, |r.fates|, r, n, live)
  {
  }

  /** One attempt more is passed over. */
  lemma FairPassed(q: Query, servers: seq<Server>, log: seq<Event>, x: Id, from: nat, r: Record, n: nat, f: Fate)
    requires n > 0 && Fair(q, servers, log, log, x, from, r, n, false) && f != ByWire && f != NotReached
    requires var s := (r.first + |r.fates|) % n; Excused(q, servers[s], s, f, false)
    ensures Fair(q, servers, log, log, x, from, r.(fates := r.fates + [f]), n, false)
  {
    hide Tally;
    var r' := r.(fates := r.fates + [f]);
    forall k | from <= k < |r'.fates|
      ensures var s := (r.first + k) % n; Excused(q, servers[s], s, r'.fates[k], false) && r'.fates[k] != ByWire
    {
      assert k < |r.fates| ==> r'.fates[k] == r.fates[k];
    }
  }

  /** First some attempts from one state, and then others from a state with the same marks and generations. */
  lemma {:induction false} FairJoin(q: Query, q1: Query, servers: seq<Server>, servers1: seq<Server>, log: seq<Event>,
      log1: seq<Event>, log2: seq<Event>, x: Id, from: nat, r1: Record, r2: Record, n: nat, live: bool)
    requires n > 0 && Fair(q, servers, log, log1, x, from, r1, n, false)
    requires Fair(q1, servers1, log1, log2, x, |r1.fates|, r2, n, live)
    requires r1.fates <= r2.fates && r2.first == r1.first && from <= |r1.fates|
    requires Begins(log, log1) && Begins(log1, log2) && q1.usingTcp == q.usingTcp
    requires forall s :: 0 <= s < n ==>
               && servers1[s].broken == servers[s].broken && servers1[s].generation == servers[s].generation
               && q1.info[s].generation == q.info[s].generation
               && (q1.info[s].skip ==> q.info[s].skip || Tally(log1, FailureAt(x, s)) > Tally(log, FailureAt(x, s)))
    ensures Fair(q, servers, log, log2, x, from, r2, n, live)
  {
    hide Tally, Begins;
    forall k | from <= k < |r2.fates|
      ensures var s := (r2.first + k) % n;
              && Excused(q, servers[s], s, r2.fates[k], Tally(log2, FailureAt(x, s)) > Tally(log, FailureAt(x, s)))
              && (r2.fates[k] == ByWire ==> live && k == |r2.fates| - 1)
    {
      var s := (r2.first + k) % n;
      TallyGrows(log, log1, FailureAt(x, s));
      TallyGrows(log1, log2, FailureAt(x, s));
      assert k < |r1.fates| ==> r1.fates[k] == r2.fates[k];
    }
  }

  /** What goes on the wire for the query. */
  predicate Payload(q: Query, bytes: seq<byte>) {
    |q.tcpbuf| >= 2 && bytes == if q.usingTcp then q.tcpbuf else q.tcpbuf[2..]
  }

  /** From the one log to the other servers were not reached for the query, and then it was put on the wire, to the
      server that it has now, if it is still live; or memory may have run out for it. */
  ghost predicate Attempted(log: seq<Event>, more: seq<Event>, qs: Queries, x: Id) {
    && Begins(log, more)
    && if x in qs then
         && |log| < |more| && more[|more| - 1].OnWire? && Payload(qs[x], more[|more| - 1].bytes)
         && more[|more| - 1] == OnWire(x, qs[x].server, qs[x].usingTcp, more[|more| - 1].bytes)
         && forall j :: |log| <= j < |more| - 1 ==> more[j].Unreached? && more[j].x == x
       else
         forall j :: |log| <= j < |more| ==>
           (more[j].Unreached? && more[j].x == x) || more[j] == NoRoom(x) || more[j].Cut?
  }

  lemma AttemptedInner(log: seq<Event>, more: seq<Event>, qs: Queries, x: Id)
    requires Attempted(log, more, qs, x)
    ensures Inner(log, more)
  {
  }

  lemma AttemptedAfter(log: seq<Event>, e: Event, more: seq<Event>, qs: Queries, x: Id)
    requires Attempted(log + [e], more, qs, x)
    requires (e.Unreached? && e.x == x) || (x !in qs && e == NoRoom(x))
    ensures Attempted(log, more, qs, x)
  {
    var longer := log + [e];
    assert longer[..|log|] == log && longer[|log|] == e;
    assert more[..|longer|] == longer && more[..|log|] == more[..|longer|][..|log|];
    forall j | |log| <= j < |more| ensures j == |log| ==> more[j] == e {
      assert more[|log|] == more[..|longer|][|log|];
    }
  }

  /** Sockets may have been opened, and what is `added` was queued. */
  ghost predicate Opened(sv: Server, sv': Server, added: seq<SendReq>) {
    && sv' == sv.(udpOpen := sv'.udpOpen, tcpOpen := sv'.tcpOpen, queue := sv.queue + added)
    && (sv.udpOpen ==> sv'.udpOpen) && (sv.tcpOpen ==> sv'.tcpOpen)
  }

  /** What is queued on server `i` when the query is sent. */
  function Queued(q: Query, x: Id, i: nat): seq<SendReq> {
    if q.usingTcp && i == q.server then [SendReq(q.tcpbuf, Some(x), false)] else []
  }

  /** The query was sent to its server; nothing else was queued, and nothing closed. */
  ghost predicate SentOn(servers: seq<Server>, servers': seq<Server>, wires: seq<Wire>, wires': seq<Wire>, q: Query,
      x: Id) {
    && |servers'| == |servers| == |wires| == |wires'| && q.server < |wires|
    && (forall i: nat :: i < |servers| ==> Opened(servers[i], servers'[i], Queued(q, x, i)))
    && wires' == if q.usingTcp then wires[q.server := wires[q.server].(frames := wires[q.server].frames + [q.tcpbuf])]
                 else wires
  }

  /** The query was taken out of the queues; sockets may have been opened, and none was closed. */
  ghost predicate EndedOn(servers: seq<Server>, servers': seq<Server>, x: Id, ok: bool) {
    && |servers'| == |servers|
    && forall i :: 0 <= i < |servers| ==>
         && (servers[i].udpOpen ==> servers'[i].udpOpen) && (servers[i].tcpOpen ==> servers'[i].tcpOpen)
         && var sv := servers[i].(udpOpen := servers'[i].udpOpen, tcpOpen := servers'[i].tcpOpen);
            DetachedServer(sv, servers'[i], x, ok)
  }

  /** What an attempt to send a query does to the connections: it was sent, or it ended; only with the last query may
      sockets be closed. */
  ghost predicate Settled(servers: seq<Server>, servers': seq<Server>, wires: seq<Wire>, wires': seq<Wire>,
      generation: nat, generation': nat, qs: Queries, x: Id, stayOpen: bool) {
    if x in qs then SentOn(servers, servers', wires, wires', qs[x], x) && generation' == generation
    else qs != map[] || stayOpen ==>
      EndedOn(servers, servers', x, false) && wires' == wires && generation' == generation
  }

  /** Sockets may have been opened before. */
  lemma {:induction false} SettledAfter(servers: seq<Server>, servers1: seq<Server>, servers2: seq<Server>,
      wires: seq<Wire>, wires': seq<Wire>, generation: nat, generation': nat, qs: Queries, x: Id, stayOpen: bool)
    requires |servers1| == |servers| && forall i :: 0 <= i < |servers| ==> Opened(servers[i], servers1[i], [])
    requires Settled(servers1, servers2, wires, wires', generation, generation', qs, x, stayOpen)
    ensures Settled(servers, servers2, wires, wires', generation, generation', qs, x, stayOpen)
  {
    hide DetachedServer, Queued;
    if x in qs {
      forall i: nat | i < |servers| ensures Opened(servers[i], servers2[i], Queued(qs[x], x, i)) {
        assert Opened(servers[i], servers1[i], []) && Opened(servers1[i], servers2[i], Queued(qs[x], x, i));
        assert servers[i].queue + [] == servers[i].queue;
      }
    } else if qs != map[] || stayOpen {
      forall i | 0 <= i < |servers|
        ensures DetachedServer(servers[i].(udpOpen := servers2[i].udpOpen, tcpOpen := servers2[i].tcpOpen), servers2[i],
                               x, false)
        ensures (servers[i].udpOpen ==> servers2[i].udpOpen) && (servers[i].tcpOpen ==> servers2[i].tcpOpen)
      {
        assert Opened(servers[i], servers1[i], []) && servers[i].queue + [] == servers[i].queue;
      }
    }
  }

  /** Whether the event has happened since then. */
  ghost predicate Since(log: seq<Event>, more: seq<Event>, e: Event) {
    exists j :: |log| <= j < |more| && more[j] == e
  }

  lemma SinceTwice(a: seq<Event>, b: seq<Event>, c: seq<Event>, e: Event)
    requires Begins(a, b) && Begins(b, c)
    ensures Since(a, c, e) <==> Since(a, b, e) || Since(b, c, e)
  {
    forall j | 0 <= j < |b| ensures c[j] == b[j] {
      assert c[j] == c[..|b|][j];
    }
  }

  /** The connections stay open, and the server is not marked broken. */
  ghost predicate SteadyServer(sv: Server, sv': Server) {
    && sv'.generation == sv.generation && (sv.udpOpen ==> sv'.udpOpen) && (sv.tcpOpen ==> sv'.tcpOpen)
    && (sv'.broken ==> sv.broken)
  }

  /** Sockets are closed only after an error, or with the last query; and servers are broken only when that is in the
      log. */
  ghost predicate Steady(log: seq<Event>, more: seq<Event>, servers: seq<Server>, servers': seq<Server>, qs: Queries,
      stayOpen: bool) {
    && Begins(log, more) && |servers'| == |servers|
    && (qs != map[] || stayOpen ==> forall s :: 0 <= s < |servers| ==>
          || Since(log, more, Reset(s)) || Since(log, more, Cut(s))
          || SteadyServer(servers[s], servers'[s]))
  }

  lemma SteadySame(log: seq<Event>, servers: seq<Server>, qs: Queries, stayOpen: bool)
    ensures Steady(log, log, servers, servers, qs, stayOpen)
  {
    assert log[..|log|] == log;
  }

  lemma {:induction false} SteadyTwice(a: seq<Event>, b: seq<Event>, c: seq<Event>, servers: seq<Server>,
      servers1: seq<Server>, servers2: seq<Server>, qs1: Queries, qs2: Queries, stayOpen: bool)
    requires Steady(a, b, servers, servers1, qs1, stayOpen) && Steady(b, c, servers1, servers2, qs2, stayOpen)
    requires qs2 != map[] ==> qs1 != map[]
    ensures Steady(a, c, servers, servers2, qs2, stayOpen)
  {
    hide Since;
    assert c[..|a|] == c[..|b|][..|a|];
    if qs2 != map[] || stayOpen {
      forall s | 0 <= s < |servers|
        ensures Since(a, c, Reset(s)) || Since(a, c, Cut(s)) || SteadyServer(servers[s], servers2[s])
      {
        SinceTwice(a, b, c, Reset(s));
        SinceTwice(a, b, c, Cut(s));
        assert Since(a, b, Reset(s)) || Since(a, b, Cut(s)) || SteadyServer(servers[s], servers1[s]);
        assert Since(b, c, Reset(s)) || Since(b, c, Cut(s)) || SteadyServer(servers1[s], servers2[s]);
      }
    }
  }

  /** Sockets are opened, and entries are queued. */
  lemma OpenedSteady(log: seq<Event>, more: seq<Event>, servers: seq<Server>, servers': seq<Server>, qs: Queries,
      stayOpen: bool)
    requires Begins(log, more) && |servers'| == |servers|
    requires forall i :: 0 <= i < |servers| ==> Opened(servers[i], servers'[i], [])
    ensures Steady(log, more, servers, servers', qs, stayOpen)
  {
  }

  lemma SentSteady(log: seq<Event>, more: seq<Event>, servers: seq<Server>, servers': seq<Server>, wires: seq<Wire>,
      wires': seq<Wire>, q: Query, x: Id, qs: Queries, stayOpen: bool)
    requires Begins(log, more) && SentOn(servers, servers', wires, wires', q, x)
    ensures Steady(log, more, servers, servers', qs, stayOpen)
  {
    forall i: nat | i < |servers| ensures SteadyServer(servers[i], servers'[i]) {
      assert Opened(servers[i], servers'[i], Queued(q, x, i));
    }
  }

  // ------------------------------------------------------------------------
  // The end of a query
  // ------------------------------------------------------------------------

  /** The query `x` has ended: memory may have run out for it, and servers may have been marked broken. */
  ghost predicate Ending(log: seq<Event>, more: seq<Event>, x: Id) {
    Begins(log, more) && forall j :: |log| <= j < |more| ==> more[j] == NoRoom(x) || more[j].Cut?
  }

  /** Memory has run out for `x` since then. */
  ghost predicate RanOut(log: seq<Event>, more: seq<Event>, x: Id) {
    exists j :: |log| <= j < |more| && more[j] == NoRoom(x)
  }

  lemma EndingSame(log: seq<Event>, x: Id)
    ensures Ending(log, log, x) && !RanOut(log, log, x)
  {
  }

  lemma EndingTwice(a: seq<Event>, b: seq<Event>, c: seq<Event>, x: Id)
    requires Ending(a, b, x) && Ending(b, c, x)
    ensures Ending(a, c, x)
    ensures RanOut(a, c, x) <==> RanOut(a, b, x) || RanOut(b, c, x)
  {
    assert c[..|a|] == c[..|b|][..|a|];
    forall j | 0 <= j < |b| ensures c[j] == b[j] {
      assert c[j] == c[..|b|][j];
    }
  }

  /** One entry of the queue of server `i` has been looked at. */
  lemma EndingSteps(a: seq<Event>, b: seq<Event>, c: seq<Event>, x: Id, i: nat)
    requires Ending(a, b, x)
    requires c == b || c == b + [Cut(i)] || c == b + [NoRoom(x)] + [Cut(i)]
    ensures Ending(a, c, x)
    ensures RanOut(a, c, x) <==> RanOut(a, b, x) || c == b + [NoRoom(x)] + [Cut(i)]
    ensures Since(a, b, Cut(i)) || c != b ==> Since(a, c, Cut(i))
  {
    if c == b + [Cut(i)] {
      assert c[|b|] == Cut(i);
    } else if c == b + [NoRoom(x)] + [Cut(i)] {
      assert c[|b|] == NoRoom(x) && c[|b| + 1] == Cut(i);
    }
    assert c[..|b|] == b;
    EndingTwice(a, b, c, x);
    SinceTwice(a, b, c, Cut(i));
  }

  /** Entry `j` of the queue of server `s` has been looked at, for the query that ends. */
  ghost predicate EntryLookedAt(a: Server, b: Server, log: seq<Event>, more: seq<Event>, s: nat, j: nat, x: Id,
      ok: bool)
  {
    && j < |a.queue| == |b.queue| && b == a.(queue := a.queue[j := b.queue[j]], broken := b.broken)
    && DetachedEntry(a.queue[j], b.queue[j], x, ok)
    && var lost := a.queue[j].owner == Some(x) && !b.queue[j].ownStorage;
       && (b.broken <==> a.broken || lost)
       && more == log + if !lost then [] else if ok then [NoRoom(x), Cut(s)] else [Cut(s)]
  }

  /** The first `n` entries of the queue of server `s` have been looked at. */
  ghost predicate Detaching(a: Server, b: Server, log: seq<Event>, more: seq<Event>, s: nat, x: Id, ok: bool, n: nat) {
    && b == a.(queue := b.queue, broken := b.broken) && n <= |a.queue| == |b.queue|
    && (forall k :: n <= k < |a.queue| ==> b.queue[k] == a.queue[k])
    && (forall k :: 0 <= k < n ==> DetachedEntry(a.queue[k], b.queue[k], x, ok))
    && (b.broken <==> a.broken || exists k :: 0 <= k < n && a.queue[k].owner == Some(x) && !b.queue[k].ownStorage)
    && Ending(log, more, x) && (b.broken && !a.broken ==> Since(log, more, Cut(s)))
    && (ok && !RanOut(log, more, x) ==> b.broken == a.broken)
  }

  lemma DetachingNone(a: Server, log: seq<Event>, s: nat, x: Id, ok: bool)
    ensures Detaching(a, a, log, log, s, x, ok, 0)
  {
    EndingSame(log, x);
  }

  /** An entry that has not been looked at is as it was; an entry of a query has no storage of its own. */
  lemma DetachingEntry(a: Server, b: Server, log: seq<Event>, more: seq<Event>, s: nat, qs: Queries, x: Id, ok: bool,
      n: nat)
    requires Detaching(a, b, log, more, s, x, ok, n) && QueueOk(a, s, qs) && n < |b.queue|
    ensures b.queue[n].owner == Some(x) ==> !b.queue[n].ownStorage
  {
    if b.queue[n].owner == Some(x) {
      assert OwnedOk(a.queue[n], a.generation, s, qs);
    }
  }

  lemma {:induction false} DetachingNext(a: Server, b: Server, c: Server, log0: seq<Event>, log1: seq<Event>,
      log2: seq<Event>, s: nat, x: Id, ok: bool, n: nat)
    requires Detaching(a, b, log0, log1, s, x, ok, n) && EntryLookedAt(b, c, log1, log2, s, n, x, ok)
    ensures Detaching(a, c, log0, log2, s, x, ok, n + 1)
  {
    hide Ending, RanOut, Since, DetachedEntry;
    assert log1 + [NoRoom(x), Cut(s)] == log1 + [NoRoom(x)] + [Cut(s)];
    assert log1 + [] == log1;
    EndingSteps(log0, log1, log2, x, s);
    var lost := b.queue[n].owner == Some(x) && !c.queue[n].ownStorage;
    if lost {
      assert a.queue[n].owner == Some(x) && !c.queue[n].ownStorage;
    }
    if k :| 0 <= k < n && a.queue[k].owner == Some(x) && !b.queue[k].ownStorage {
      assert c.queue[k] == b.queue[k];
    }
  }

  lemma {:induction false} DetachingDone(a: Server, b: Server, log: seq<Event>, more: seq<Event>, s: nat, x: Id,
      ok: bool)
    requires Detaching(a, b, log, more, s, x, ok, |a.queue|)
    ensures DetachedServer(a, b, x, ok) && Ending(log, more, x)
    ensures forall j :: 0 <= j < |b.queue| ==> b.queue[j].owner != Some(x)
    ensures b.broken && !a.broken ==> Since(log, more, Cut(s))
    ensures ok && !RanOut(log, more, x) ==> b.broken == a.broken
  {
    hide Ending, RanOut, Since;
  }

  lemma EndingPlain(log: seq<Event>, more: seq<Event>, x: Id)
    requires Ending(log, more, x)
    ensures PlainMore(log, more) && Inner(log, more)
  {
  }

  lemma {:induction false} ExplainedPlain(log: seq<Event>, more: seq<Event>, x: Id, r: Record, n: nat, tries: nat,
      rules: Rules)
    requires Explained(log, x, r, n, tries, rules) && PlainMore(log, more)
    ensures Explained(more, x, r, n, tries, rules)
    decreases |more|
  {
    hide Explained, PlainMore;
    if |more| > |log| {
      var before, e := PlainLast(log, more);
      ExplainedPlain(log, before, x, r, n, tries, rules);
      ExplainedMore(before, e, x, r, n, tries, rules);
    } else {
      PlainAll(log, more);
    }
  }

  ghost predicate AllDetached(servers: seq<Server>, servers': seq<Server>, x: Id, ok: bool) {
    |servers'| == |servers| && forall s :: 0 <= s < |servers| ==> DetachedServer(servers[s], servers'[s], x, ok)
  }

  lemma DetachedSteady(log: seq<Event>, more: seq<Event>, servers: seq<Server>, servers': seq<Server>, qs: Queries,
      x: Id, ok: bool, stayOpen: bool)
    requires Ending(log, more, x) && |servers'| == |servers|
    requires qs != map[] || stayOpen ==>
               && AllDetached(servers, servers', x, ok)
               && forall s :: 0 <= s < |servers| && servers'[s].broken ==> servers[s].broken || Since(log, more, Cut(s))
    ensures Steady(log, more, servers, servers', qs, stayOpen)
  {
    hide DetachedEntry, Since;
  }

  /** The connection is as it was: it keeps all its bytes, and is broken only if it was. */
  ghost predicate Whole(sv: Server, sv': Server) {
    && sv'.udpOpen == sv.udpOpen && sv'.tcpOpen == sv.tcpOpen && sv'.generation == sv.generation
    && sv'.broken == sv.broken && (!sv.broken ==> Pending(sv'.queue) == Pending(sv.queue))
  }

  ghost predicate AllWhole(servers: seq<Server>, servers': seq<Server>) {
    |servers'| == |servers| && forall s :: 0 <= s < |servers| ==> Whole(servers[s], servers'[s])
  }

  /** The queue of server `s` has been looked at, for the query that ends. */
  ghost predicate LookedAt(sv: Server, sv': Server, log: seq<Event>, more: seq<Event>, s: nat, x: Id, ok: bool) {
    && DetachedServer(sv, sv', x, ok)
    && (forall j :: 0 <= j < |sv'.queue| ==> sv'.queue[j].owner != Some(x))
    && (ok && !RanOut(log, more, x) ==> Whole(sv, sv'))
    && (sv'.broken ==> sv.broken || Since(log, more, Cut(s)))
  }

  /** The queues of the first `n` servers have been looked at. */
  ghost predicate DetachedTo(a: seq<Server>, b: seq<Server>, log: seq<Event>, more: seq<Event>, x: Id, ok: bool,
      n: nat)
  {
    && |a| == |b| && n <= |a| && Ending(log, more, x)
    && (forall s :: 0 <= s < n ==> LookedAt(a[s], b[s], log, more, s, x, ok))
    && (forall s :: n <= s < |a| ==> b[s] == a[s])
  }

  lemma DetachedNone(a: seq<Server>, log: seq<Event>, x: Id, ok: bool)
    ensures DetachedTo(a, a, log, log, x, ok, 0)
  {
    EndingSame(log, x);
  }

  lemma DetachedSize(a: seq<Server>, b: seq<Server>, log: seq<Event>, more: seq<Event>, x: Id, ok: bool, n: nat)
    requires DetachedTo(a, b, log, more, x, ok, n)
    ensures |a| == |b|
  {
  }

  lemma {:induction false} DetachedNext(a: seq<Server>, b: seq<Server>, c: seq<Server>, log0: seq<Event>,
      log1: seq<Event>, log2: seq<Event>, x: Id, ok: bool, n: nat)
    requires DetachedTo(a, b, log0, log1, x, ok, n) && n < |a| && |c| == |b| && c == b[n := c[n]]
    requires Ending(log1, log2, x) && LookedAt(b[n], c[n], log1, log2, n, x, ok)
    ensures DetachedTo(a, c, log0, log2, x, ok, n + 1)
  {
    hide DetachedServer, Ending, RanOut, Since, Whole;
    EndingTwice(log0, log1, log2, x);
    EndingPlain(log0, log1, x);
    EndingPlain(log1, log2, x);
    forall s | 0 <= s <= n ensures LookedAt(a[s], c[s], log0, log2, s, x, ok) {
      SinceTwice(log0, log1, log2, Cut(s));
      if s < n {
        assert LookedAt(a[s], b[s], log0, log1, s, x, ok);
      }
    }
  }

  lemma {:induction false} DetachedDone(a: seq<Server>, b: seq<Server>, log: seq<Event>, more: seq<Event>, x: Id,
      ok: bool)
    requires DetachedTo(a, b, log, more, x, ok, |a|)
    ensures Unowned(b, x) && AllDetached(a, b, x, ok) && Newer(a, b) && Ending(log, more, x)
    ensures forall s :: 0 <= s < |b| && b[s].broken ==> a[s].broken || Since(log, more, Cut(s))
    ensures ok && !RanOut(log, more, x) ==> AllWhole(a, b)
  {
    hide Ending, RanOut, Since, Whole, DetachedEntry;
    forall s | 0 <= s < |a| ensures LookedAt(a[s], b[s], log, more, s, x, ok) {
    }
  }

  lemma {:induction false} DetachedWhole(sv: Server, sv': Server, x: Id, ok: bool)
    requires DetachedServer(sv, sv', x, ok)
    ensures sv'.broken == sv.broken ==> Whole(sv, sv')
  {
    if sv'.broken == sv.broken && !sv.broken {
      forall j | 0 <= j < |sv.queue|
        ensures DetachedEntry(sv.queue[j], sv'.queue[j], x, true)
        ensures sv.queue[j].owner == Some(x) ==> sv'.queue[j].ownStorage
      {
        assert DetachedEntry(sv.queue[j], sv'.queue[j], x, ok);
      }
      DetachedKeeps(sv.queue, sv'.queue, x);
    }
  }

  // ------------------------------------------------------------------------
  // A server that is not reached
  // ------------------------------------------------------------------------

  /** The query is on its way with its attempt, whose fate is `f`. */
  lemma FateNext(r: Record, r': Record, attempt: nat, s: nat, n: nat)
    requires n > 0 && s == (r.first + attempt) % n && attempt <= |r.fates| <= attempt + 1
    requires r'.fates == if |r.fates| == attempt then r.fates + [ByWire] else r.fates
    ensures OneMore(r, r.(fates := r'.fates), n, s, ByWire) && |r'.fates| == attempt + 1
  {
  }

  lemma MissedNext(r: Record, r': Record, attempt: nat, s: nat, n: nat)
    requires n > 0 && s == (r.first + attempt) % n && attempt <= |r.fates| <= attempt + 1
    requires r' == r.(fates := if |r.fates| == attempt then r.fates + [NotReached] else r.fates)
    ensures OneMore(r, r', n, s, NotReached) && |r'.fates| == attempt + 1
  {
  }

  /** From one state to the other the query was tried with its server, which could not be reached: it is marked, and
      that is its fate. */
  ghost predicate NotThere(x: Id, q0: Query, servers0: seq<Server>, servers1: seq<Server>, r0: Record, r1: Record,
      log0: seq<Event>, log1: seq<Event>, q1: Query, n: nat) {
    && n > 0 && |q0.info| == n == |servers0| == |servers1| && q0.server < n
    && q1 == Marked(q0, q0.server, n) && log1 == log0 + [Unreached(x, q0.server)]
    && q0.attempt <= |r0.fates| <= q0.attempt + 1 && q0.server == (r0.first + q0.attempt) % n
    && r1 == r0.(fates := if |r0.fates| == q0.attempt then r0.fates + [NotReached] else r0.fates)
    && forall i :: 0 <= i < n ==> Opened(servers0[i], servers1[i], [])
  }

  lemma {:induction false} FairBefore(x: Id, q0: Query, servers0: seq<Server>, servers1: seq<Server>, r0: Record,
      r1: Record, log0: seq<Event>, log1: seq<Event>, log2: seq<Event>, q1: Query, r2: Record, n: nat, live: bool)
    requires NotThere(x, q0, servers0, servers1, r0, r1, log0, log1, q1, n)
    requires Fair(q1, servers1, log1, log2, x, |r1.fates|, r2, n, live) && r1.fates <= r2.fates && r2.first == r1.first
    requires Begins(log1, log2)
    ensures Fair(q0, servers0, log0, log2, x, |r0.fates|, r2, n, live)
  {
    hide Tally;
    TallyMore(log0, Unreached(x, q0.server), FailureAt(x, q0.server));
    forall i | 0 <= i < n
      ensures servers1[i].broken == servers0[i].broken && servers1[i].generation == servers0[i].generation
    {
      assert Opened(servers0[i], servers1[i], []);
    }
    assert Fair(q0, servers0, log0, log1, x, |r0.fates|, r1, n, false);
    assert log1[..|log0|] == log0;
    hide Fair;
    FairJoin(q0, q1, servers0, servers1, log0, log1, log2, x, |r0.fates|, r1, r2, n, live);
  }

  lemma AttemptedBefore(x: Id, q0: Query, servers0: seq<Server>, servers1: seq<Server>, r0: Record,
      r1: Record, log0: seq<Event>, log1: seq<Event>, log2: seq<Event>, q1: Query, qs: Queries, n: nat)
    requires NotThere(x, q0, servers0, servers1, r0, r1, log0, log1, q1, n) && Attempted(log1, log2, qs, x)
    ensures Attempted(log0, log2, qs, x)
  {
    hide Attempted;
    AttemptedAfter(log0, Unreached(x, q0.server), log2, qs, x);
  }

  lemma SettledBefore(x: Id, q0: Query, servers0: seq<Server>, servers1: seq<Server>, servers2: seq<Server>, r0: Record,
      r1: Record, log0: seq<Event>, log1: seq<Event>, log2: seq<Event>, q1: Query, wires: seq<Wire>, wires': seq<Wire>,
      generation: nat, generation': nat, qs0: Queries, qs: Queries, stayOpen: bool, n: nat)
    requires NotThere(x, q0, servers0, servers1, r0, r1, log0, log1, q1, n)
    requires Settled(servers1, servers2, wires, wires', generation, generation', qs, x, stayOpen)
    requires Newer(servers1, servers2) && qs0 != map[] && Steady(log1, log2, servers1, servers2, qs, stayOpen)
    ensures Settled(servers0, servers2, wires, wires', generation, generation', qs, x, stayOpen)
    ensures Newer(servers0, servers2) && Steady(log0, log2, servers0, servers2, qs, stayOpen)
  {
    hide Settled, Steady;
    assert log1[..|log0|] == log0;
    OpenedSteady(log0, log1, servers0, servers1, qs0, stayOpen);
    SteadyTwice(log0, log1, log2, servers0, servers1, servers2, qs0, qs, stayOpen);
    forall i | 0 <= i < n ensures NewerServer(servers0[i], servers1[i]) {
      assert Opened(servers0[i], servers1[i], []);
    }
    SettledAfter(servers0, servers1, servers2, wires, wires', generation, generation', qs, x, stayOpen);
    NewerTwice(servers0, servers1, servers2);
  }

  lemma MovedBefore(x: Id, q0: Query, servers0: seq<Server>, servers1: seq<Server>, r0: Record, r1: Record,
      log0: seq<Event>, log1: seq<Event>, q1: Query, qs: Queries, hist: map<Id, Record>, now: TimeVal, timeout: nat,
      n: nat)
    requires NotThere(x, q0, servers0, servers1, r0, r1, log0, log1, q1, n)
    requires MovedOn(q1, r1, qs, hist, x, now, timeout, n, 1)
    ensures MovedOn(q0, r0, qs, hist, x, now, timeout, n, 0)
    ensures x in hist && r1.fates <= hist[x].fates && r1.first == r0.first == hist[x].first
  {
    hide Opened;
  }

  /** Attempts that were passed over, and then others from the same state. */
  lemma {:induction false} FairLater(q0: Query, q1: Query, servers: seq<Server>, log: seq<Event>, more: seq<Event>,
      x: Id, r0: Record, r1: Record, r2: Record, n: nat, live: bool)
    requires n > 0 && Fair(q0, servers, log, log, x, |r0.fates|, r1, n, false)
    requires Fair(q1, servers, log, more, x, |r1.fates|, r2, n, live)
    requires q1.info == q0.info && q1.usingTcp == q0.usingTcp
    requires r0.fates <= r1.fates <= r2.fates && r2.first == r1.first && Begins(log, more)
    ensures Fair(q0, servers, log, more, x, |r0.fates|, r2, n, live)
  {
    assert log[..|log|] == log;
    FairJoin(q0, q1, servers, servers, log, log, more, x, |r0.fates|, r1, r2, n, live);
  }

  lemma FairAgain(q0: Query, q1: Query, servers: seq<Server>, log: seq<Event>, x: Id, from: nat, r1: Record, r2: Record,
      n: nat, s: nat)
    requires n > 0 && Fair(q0, servers, log, log, x, from, r1, n, false) && s == (r1.first + |r1.fates|) % n
    requires |r2.fates| == |r1.fates| + 1 && q1.info == q0.info && q1.usingTcp == q0.usingTcp
    requires var f := r2.fates[|r1.fates|];
             && r2 == r1.(fates := r1.fates + [f]) && f != ByWire && f != NotReached
             && Excused(q1, servers[s], s, f, false)
    ensures Fair(q0, servers, log, log, x, from, r2, n, false)
  {
    FairPassed(q0, servers, log, x, from, r1, n, r2.fates[|r1.fates|]);
  }

  /** A query that has ended with the attempts that it had. */
  lemma EndedFair(q: Query, servers: seq<Server>, log: seq<Event>, more: seq<Event>, x: Id, r: Record, r': Record,
      n: nat)
    requires n > 0 && Fair(q, servers, log, log, x, |r.fates|, r', n, false) && Begins(log, more)
    ensures Fair(q, servers, log, more, x, |r.fates|, r', n, false)
  {
    hide Tally;
    forall k | |r.fates| <= k < |r'.fates|
      ensures var s := (r'.first + k) % n;
              Excused(q, servers[s], s, r'.fates[k], Tally(more, FailureAt(x, s)) > Tally(log, FailureAt(x, s)))
    {
      var s := (r'.first + k) % n;
      assert Excused(q, servers[s], s, r'.fates[k], Tally(log, FailureAt(x, s)) > Tally(log, FailureAt(x, s)));
    }
  }

  /** Why a server is not usable, with the reason in the log. */
  ghost function Reason(log: seq<Event>, servers: seq<Server>, wires: seq<Wire>, qs: Queries, hist: map<Id, Record>,
      n: nat, tries: nat, rules: Rules, x: Id, s: nat): (f: Fate)
    requires LogOk(log, servers, wires, qs, hist, n, tries, rules) && x in qs && x in hist
    requires s < |servers| && s < |qs[x].info| && !Usable(qs[x], servers[s], s) && servers[s].generation >= 1
    ensures f != ByWire && f != NotReached
    ensures Excused(qs[x], servers[s], s, f, false) && FateOk(log, x, hist[x], s, f, rules)
  {
    assert InfoOk(log, x, qs[x], hist[x].message, rules);
    if servers[s].broken then WasBroken else if qs[x].info[s].skip then WasMarked else WasUsed
  }

  /** The query went on the wire. */
  ghost predicate WentOut(log: seq<Event>, more: seq<Event>, q: Query, x: Id) {
    && |more| == |log| + 1 && more[|log|].OnWire? && Payload(q, more[|log|].bytes)
    && more == log + [OnWire(x, q.server, q.usingTcp, more[|log|].bytes)]
  }

  predicate Unmarked(q: Query) {
    q.server < |q.info| && !q.info[q.server].skip
  }

  // ------------------------------------------------------------------------
  // Reading and writing
  // ------------------------------------------------------------------------

  /** Something is queued on a connection that is open and not broken. */
  predicate Writable(sv: Server) {
    sv.queue != [] && sv.tcpOpen && !sv.broken
  }

  /** The socket has taken bytes. */
  lemma TookSteady(log: seq<Event>, servers: seq<Server>, servers': seq<Server>, i: nat, qs: Queries, stayOpen: bool)
    requires i < |servers| == |servers'| && servers' == servers[i := servers[i].(queue := servers'[i].queue)]
    ensures Steady(log, log, servers, servers', qs, stayOpen) && Newer(servers, servers')
  {
    assert log[..|log|] == log;
  }

  lemma FailedSince(log: seq<Event>, log1: seq<Event>, more: seq<Event>, i: nat)
    requires log1 == log + [WriteFailed(i)] && Inner(log1, more) && Since(log1, more, Reset(i))
    ensures Since(log, more, WriteFailed(i)) && Since(log, more, Reset(i))
  {
    assert log1[|log|] == WriteFailed(i) && log1[..|log|] == log;
    assert more[|log|] == more[..|log1|][|log|];
    assert more[..|log|] == more[..|log1|][..|log|];
  }

  /** What there is to read from a socket: messages, and then perhaps an error. */
  datatype Incoming = Incoming(messages: seq<seq<byte>>, failed: bool)

  /** What was read from the sockets. */
  ghost function Reads(log: seq<Event>): seq<Event> {
    if log == [] then []
    else
      var i := |log| - 1;
      Reads(log[..i]) + if log[i].Arrived? || log[i].ReadFailed? then [log[i]] else []
  }

  lemma ReadsMore(log: seq<Event>, e: Event)
    ensures Reads(log + [e]) == Reads(log) + if e.Arrived? || e.ReadFailed? then [e] else []
  {
    assert (log + [e])[..|log|] == log;
  }

  lemma {:induction false} ReadsInner(log: seq<Event>, more: seq<Event>)
    requires Inner(log, more)
    ensures Reads(more) == Reads(log)
    decreases |more|
  {
    if |more| > |log| {
      var i := |more| - 1;
      assert more[..i][..|log|] == more[..|log|];
      ReadsInner(log, more[..i]);
      assert Inward(more[i]);
    } else {
      assert more[..|log|] == more;
    }
  }

  /** What is read from one socket. */
  ghost function ReadFrom(c: Incoming, s: nat, tcp: bool): (r: seq<Event>) {
    seq(|c.messages|, i requires 0 <= i < |c.messages| => Arrived(s, tcp, c.messages[i]))
    + if c.failed then [ReadFailed(s, tcp)] else []
  }

  /** What is read from the sockets of the first `k` servers that are served. */
  ghost function ReadFromAll(incoming: seq<Incoming>, served: seq<bool>, tcp: bool, k: nat): seq<Event>
    requires k <= |incoming| && k <= |served|
  {
    if k == 0 then []
    else
      ReadFromAll(incoming, served, tcp, k - 1) + if served[k - 1] then ReadFrom(incoming[k - 1], k - 1, tcp) else []
  }

  lemma {:induction false} ReadFromLess(incoming: seq<Incoming>, served: seq<bool>, b: bool, tcp: bool, k: nat)
    requires k <= |incoming| && k <= |served|
    ensures ReadFromAll(incoming, served + [b], tcp, k) == ReadFromAll(incoming, served, tcp, k)
  {
    if k > 0 {
      ReadFromLess(incoming, served, b, tcp, k - 1);
    }
  }

  /** The socket is open, and its server is not marked broken. */
  predicate Readable(sv: Server, tcp: bool) {
    !sv.broken && if tcp then sv.tcpOpen else sv.udpOpen
  }

  // ------------------------------------------------------------------------
  // Closing the sockets of one server
  // ------------------------------------------------------------------------

  lemma ResetSteady(log: seq<Event>, servers: seq<Server>, servers': seq<Server>, w: nat, qs: Queries, stayOpen: bool)
    requires w < |servers| == |servers'| && servers' == servers[w := servers'[w]]
    ensures Steady(log, log + [Reset(w)], servers, servers', qs, stayOpen)
  {
    var more := log + [Reset(w)];
    assert more[..|log|] == log && more[|log|] == Reset(w);
  }

  lemma ResetSince(log: seq<Event>, log1: seq<Event>, more: seq<Event>, w: nat)
    requires log1 == log + [Reset(w)] && Inner(log1, more)
    ensures Since(log, more, Reset(w)) && Inner(log, more)
  {
    assert log1[|log|] == Reset(w) && log1[..|log|] == log;
    assert more[|log|] == more[..|log1|][|log|];
    InnerTwice(log, log1, more);
  }

  lemma DueSteady(log: seq<Event>, x: Id, servers: seq<Server>, qs: Queries, stayOpen: bool)
    ensures Steady(log, log + [CameDue(x)], servers, servers, qs, stayOpen)
  {
    assert (log + [CameDue(x)])[..|log|] == log;
  }

  lemma DueBase(q: Query, r: Record, n: nat, tries: nat, timeout: nat, last: int)
    requires n > 0 && QueryBase(q, r, n, tries, timeout) && Waiting(q, r, n, tries, timeout, last)
    ensures QueryBase(Overdue(q), r, n, tries, timeout) && Waiting(Overdue(q), r, n, tries, timeout, last)
  {
    hide Within;
  }

  /** The socket was read, or it was not open or broken, or that has happened since. */
  ghost predicate Served(served: bool, sv: Server, s: nat, tcp: bool, log: seq<Event>, more: seq<Event>) {
    served || !Readable(sv, tcp) || Since(log, more, Reset(s)) || Since(log, more, Cut(s))
  }

  lemma SteadyBegins(log: seq<Event>, more: seq<Event>, servers: seq<Server>, servers': seq<Server>, qs: Queries,
      stayOpen: bool)
    requires Steady(log, more, servers, servers', qs, stayOpen)
    ensures Begins(log, more) && |servers'| == |servers|
  {
  }

  lemma ServedLater(served: bool, sv: Server, s: nat, tcp: bool, a: seq<Event>, b: seq<Event>, c: seq<Event>)
    requires Served(served, sv, s, tcp, a, b) && Begins(a, b) && Begins(b, c)
    ensures Served(served, sv, s, tcp, a, c)
  {
    hide Since;
    SinceTwice(a, b, c, Reset(s));
    SinceTwice(a, b, c, Cut(s));
  }

  /** The turn of server `s` comes when the log is `b`. */
  lemma ServedNow(a: seq<Event>, b: seq<Event>, c: seq<Event>, servers: seq<Server>, servers1: seq<Server>,
      qs1: Queries, stayOpen: bool, s: nat, tcp: bool, served: bool)
    requires Steady(a, b, servers, servers1, qs1, stayOpen) && s < |servers| && Begins(b, c)
    requires (qs1 != map[] || stayOpen) && |servers1| == |servers| && served == Readable(servers1[s], tcp)
    ensures Served(served, servers[s], s, tcp, a, c)
  {
    hide Since;
    SinceTwice(a, b, c, Reset(s));
    SinceTwice(a, b, c, Cut(s));
  }

  /** The sockets of the first `k` servers have had their turn. */
  ghost predicate ReadSoFar(incoming: seq<Incoming>, served: seq<bool>, tcp: bool, k: nat, servers: seq<Server>,
      log: seq<Event>, more: seq<Event>, qs: Queries, stayOpen: bool) {
    && |served| == k <= |incoming| == |servers|
    && Reads(more) == Reads(log) + ReadFromAll(incoming, served, tcp, k)
    && (forall i :: 0 <= i < k && served[i] && incoming[i].failed ==> Since(log, more, Reset(i)))
    && (qs != map[] || stayOpen ==> forall i :: 0 <= i < k ==> Served(served[i], servers[i], i, tcp, log, more))
  }

  lemma ReadSoFarNone(incoming: seq<Incoming>, tcp: bool, servers: seq<Server>, log: seq<Event>, qs: Queries,
      stayOpen: bool)
    requires |incoming| == |servers|
    ensures ReadSoFar(incoming, [], tcp, 0, servers, log, log, qs, stayOpen)
  {
    assert Reads(log) + [] == Reads(log);
  }

  lemma {:induction false} ReadSoFarNext(incoming: seq<Incoming>, served: seq<bool>, readable: bool, tcp: bool, k: nat,
      servers0: seq<Server>, servers1: seq<Server>, log0: seq<Event>, log1: seq<Event>, log2: seq<Event>, qs1: Queries,
      qs2: Queries, stayOpen: bool)
    requires ReadSoFar(incoming, served, tcp, k, servers0, log0, log1, qs1, stayOpen) && k < |servers0| == |servers1|
    requires Begins(log0, log1) && Begins(log1, log2) && (qs2 != map[] ==> qs1 != map[])
    requires Steady(log0, log1, servers0, servers1, qs1, stayOpen) && readable == Readable(servers1[k], tcp)
    requires Reads(log2) == Reads(log1) + if readable then ReadFrom(incoming[k], k, tcp) else []
    requires readable && incoming[k].failed ==> Since(log1, log2, Reset(k))
    ensures ReadSoFar(incoming, served + [readable], tcp, k + 1, servers0, log0, log2, qs2, stayOpen)
  {
    hide Since, Reads, ReadFrom, Served, Steady, Begins;
    var all := served + [readable];
    ReadFromLess(incoming, served, readable, tcp, k);
    Regroup(Reads(log0), ReadFromAll(incoming, served, tcp, k), if readable then ReadFrom(incoming[k], k, tcp) else []);
    forall i | 0 <= i < k + 1 && all[i] && incoming[i].failed ensures Since(log0, log2, Reset(i)) {
      SinceTwice(log0, log1, log2, Reset(i));
    }
    if qs2 != map[] || stayOpen {
      forall i | 0 <= i < k + 1 ensures Served(all[i], servers0[i], i, tcp, log0, log2) {
        if i < k {
          ServedLater(served[i], servers0[i], i, tcp, log0, log1, log2);
        } else {
          ServedNow(log0, log1, log2, servers0, servers1, qs1, stayOpen, k, tcp, readable);
        }
      }
    }
  }

  /** What is queued for the server was offered to its socket. */
  ghost predicate Offered(s: nat, log: seq<Event>, more: seq<Event>) {
    exists j :: |log| <= j < |more| && (more[j].Wrote? || more[j].WouldBlock? || more[j].WriteFailed?) && more[j].s == s
  }

  lemma OfferedLater(a: seq<Event>, b: seq<Event>, c: seq<Event>, s: nat)
    requires Begins(a, b) && Begins(b, c)
    ensures Offered(s, a, b) || Offered(s, b, c) ==> Offered(s, a, c)
  {
    forall j | 0 <= j < |b| ensures c[j] == b[j] {
      assert c[j] == c[..|b|][j];
    }
  }

  /** What was queued for the first `k` servers was offered to their sockets, unless a write has failed. */
  ghost predicate OfferedSoFar(writable: set<nat>, k: nat, servers: seq<Server>, servers': seq<Server>, log: seq<Event>,
      more: seq<Event>) {
    && k <= |servers| == |servers'|
    && (|| (exists j :: Since(log, more, WriteFailed(j)))
        || ((forall i :: k <= i < |servers| ==> servers'[i] == servers[i])
            && forall i :: 0 <= i < k && i in writable && Writable(servers[i]) ==> Offered(i, log, more)))
  }

  lemma {:induction false} OfferedSoFarNext(writable: set<nat>, k: nat, servers0: seq<Server>, servers1: seq<Server>,
      servers2: seq<Server>, log0: seq<Event>, log1: seq<Event>, log2: seq<Event>, done: Writing)
    requires OfferedSoFar(writable, k, servers0, servers1, log0, log1) && k < |servers0| && |servers2| == |servers1|
    requires Begins(log0, log1) && Begins(log1, log2)
    requires done.Took? ==> log2 == log1 + [Wrote(k, done.count)] && servers2 == servers1[k := servers2[k]]
    requires done.Idle? ==> servers2 == servers1
    requires done.Idle? && k in writable && Writable(servers1[k]) ==> log2 == log1 + [WouldBlock(k)]
    requires done.Failed? ==> Since(log1, log2, WriteFailed(k))
    ensures OfferedSoFar(writable, k + 1, servers0, servers2, log0, log2)
  {
    hide Since, Writable, Begins, Offered;
    if j :| Since(log0, log1, WriteFailed(j)) {
      SinceTwice(log0, log1, log2, WriteFailed(j));
    } else if done.Failed? {
      SinceTwice(log0, log1, log2, WriteFailed(k));
    } else {
      forall i | 0 <= i < k + 1 && i in writable && Writable(servers0[i]) ensures Offered(i, log0, log2) {
        OfferedLater(log0, log1, log2, i);
        if i == k {
          OfferedHere(log1, log2, k);
        }
      }
    }
  }

  lemma OfferedHere(log: seq<Event>, more: seq<Event>, s: nat)
    requires |more| == |log| + 1 && (more[|log|].Wrote? || more[|log|].WouldBlock?) && more[|log|].s == s
    ensures Offered(s, log, more)
  {
  }

  /** Over a whole pass. */
  lemma {:induction false} PassServed(log0: seq<Event>, log1: seq<Event>, log2: seq<Event>, log3: seq<Event>,
      log4: seq<Event>, log5: seq<Event>, servers0: seq<Server>, servers1: seq<Server>, servers2: seq<Server>,
      servers3: seq<Server>, servers4: seq<Server>, servers5: seq<Server>, qs1: Queries, qs2: Queries, qs3: Queries,
      qs4: Queries, qs5: Queries, stayOpen: bool, tcpServed: seq<bool>, udpServed: seq<bool>)
    requires Steady(log0, log1, servers0, servers1, qs1, stayOpen)
    requires Steady(log1, log2, servers1, servers2, qs2, stayOpen)
    requires Steady(log2, log3, servers2, servers3, qs3, stayOpen)
    requires Steady(log3, log4, servers3, servers4, qs4, stayOpen)
    requires Steady(log4, log5, servers4, servers5, qs5, stayOpen)
    requires |tcpServed| == |udpServed| == |servers0|
    requires qs5.Keys <= qs4.Keys <= qs3.Keys <= qs2.Keys <= qs1.Keys
    requires |servers0| == |servers1| == |servers2|
    requires qs2 != map[] || stayOpen ==> forall i :: 0 <= i < |servers1| ==>
               Served(tcpServed[i], servers1[i], i, true, log1, log2)
    requires qs3 != map[] || stayOpen ==> forall i :: 0 <= i < |servers2| ==>
               Served(udpServed[i], servers2[i], i, false, log2, log3)
    ensures Begins(log0, log1) && Begins(log1, log2) && Begins(log2, log3) && Begins(log3, log4) && Begins(log4, log5)
    ensures Begins(log0, log5)
    ensures qs5 != map[] || stayOpen ==> forall i :: 0 <= i < |servers0| ==>
              && Served(tcpServed[i], servers0[i], i, true, log0, log5)
              && Served(udpServed[i], servers0[i], i, false, log0, log5)
  {
    hide Steady, Served;
    SteadyTwice(log0, log1, log2, servers0, servers1, servers2, qs1, qs2, stayOpen);
    SteadyTwice(log2, log3, log4, servers2, servers3, servers4, qs3, qs4, stayOpen);
    SteadyTwice(log2, log4, log5, servers2, servers4, servers5, qs4, qs5, stayOpen);
    SteadyTwice(log3, log4, log5, servers3, servers4, servers5, qs4, qs5, stayOpen);
    SteadyTwice(log0, log2, log5, servers0, servers2, servers5, qs2, qs5, stayOpen);
    SteadyBegins(log0, log1, servers0, servers1, qs1, stayOpen);
    SteadyBegins(log0, log2, servers0, servers2, qs2, stayOpen);
    SteadyBegins(log1, log2, servers1, servers2, qs2, stayOpen);
    SteadyBegins(log2, log3, servers2, servers3, qs3, stayOpen);
    SteadyBegins(log2, log5, servers2, servers5, qs5, stayOpen);
    SteadyBegins(log3, log4, servers3, servers4, qs4, stayOpen);
    SteadyBegins(log4, log5, servers4, servers5, qs5, stayOpen);
    SteadyBegins(log3, log5, servers3, servers5, qs5, stayOpen);
    SteadyBegins(log0, log5, servers0, servers5, qs5, stayOpen);
    if qs5 != map[] || stayOpen {
      forall i | 0 <= i < |servers0|
        ensures Served(tcpServed[i], servers0[i], i, true, log0, log5)
        ensures Served(udpServed[i], servers0[i], i, false, log0, log5)
      {
        ServedBefore(tcpServed[i], servers0, servers1, qs1, stayOpen, i, true, log0, log1, log2);
        ServedLater(tcpServed[i], servers0[i], i, true, log0, log2, log5);
        ServedBefore(udpServed[i], servers0, servers2, qs2, stayOpen, i, false, log0, log2, log3);
        BeginsTwice(log0, log2, log3);
        ServedLater(udpServed[i], servers0[i], i, false, log0, log3, log5);
      }
    }
  }

  lemma BeginsTwice(a: seq<Event>, b: seq<Event>, c: seq<Event>)
    requires Begins(a, b) && Begins(b, c)
    ensures Begins(a, c)
  {
    assert c[..|a|] == c[..|b|][..|a|];
  }

  lemma ServedBefore(served: bool, servers: seq<Server>, servers1: seq<Server>, qs1: Queries, stayOpen: bool, s: nat,
      tcp: bool, a: seq<Event>, b: seq<Event>, c: seq<Event>)
    requires Steady(a, b, servers, servers1, qs1, stayOpen) && s < |servers| == |servers1| && (qs1 != map[] || stayOpen)
    requires Served(served, servers1[s], s, tcp, b, c) && Begins(b, c)
    ensures Served(served, servers[s], s, tcp, a, c)
  {
    hide Since;
    SinceTwice(a, b, c, Reset(s));
    SinceTwice(a, b, c, Cut(s));
  }

  lemma PassOffered(log0: seq<Event>, log1: seq<Event>, log2: seq<Event>, log3: seq<Event>, log4: seq<Event>,
      log5: seq<Event>, servers0: seq<Server>, writable: set<nat>)
    requires Begins(log0, log1) && Begins(log1, log2) && Begins(log2, log3) && Begins(log3, log4) && Begins(log4, log5)
    requires forall i :: i in writable && i < |servers0| && Writable(servers0[i]) ==>
               Offered(i, log0, log1) || exists j :: Since(log0, log1, WriteFailed(j))
    ensures forall i :: i in writable && i < |servers0| && Writable(servers0[i]) ==>
              Offered(i, log0, log5) || exists j :: Since(log0, log5, WriteFailed(j))
  {
    hide Since, Offered, Begins;
    BeginsTwice(log1, log2, log3);
    BeginsTwice(log1, log3, log4);
    BeginsTwice(log1, log4, log5);
    forall i | i in writable && i < |servers0| && Writable(servers0[i])
      ensures Offered(i, log0, log5) || exists j :: Since(log0, log5, WriteFailed(j))
    {
      OfferedLater(log0, log1, log5, i);
      if j :| Since(log0, log1, WriteFailed(j)) {
        SinceTwice(log0, log1, log5, WriteFailed(j));
      }
    }
  }

  lemma PassNewer(servers0: seq<Server>, servers1: seq<Server>, servers2: seq<Server>, servers3: seq<Server>,
      servers4: seq<Server>, servers5: seq<Server>)
    requires Newer(servers0, servers1) && Newer(servers1, servers2) && Newer(servers2, servers3)
    requires Newer(servers3, servers4) && Newer(servers4, servers5) && |servers0| == |servers5|
    requires forall s :: 0 <= s < |servers4| && servers4[s].broken ==> servers5[s].generation > servers4[s].generation
    ensures forall s :: 0 <= s < |servers0| && servers0[s].broken ==> servers5[s].generation > servers0[s].generation
  {
    hide Newer;
    NewerTwice(servers0, servers1, servers2);
    NewerTwice(servers0, servers2, servers3);
    NewerTwice(servers0, servers3, servers4);
    NewerSizes(servers0, servers4);
    NewerSizes(servers4, servers5);
    forall s | 0 <= s < |servers0| && servers0[s].broken ensures servers5[s].generation > servers0[s].generation {
      NewerAt(servers0, servers4, s);
      NewerAt(servers4, servers5, s);
    }
  }

  lemma NewerSizes(servers: seq<Server>, servers': seq<Server>)
    requires Newer(servers, servers')
    ensures |servers'| == |servers|
  {
  }

  // ------------------------------------------------------------------------
  // Sent, or ended for want of memory
  // ------------------------------------------------------------------------

  lemma SentAfter(servers0: seq<Server>, servers1: seq<Server>, servers2: seq<Server>, wires: seq<Wire>,
      wires': seq<Wire>, q: Query, x: Id)
    requires |servers0| == |servers1| && forall i :: 0 <= i < |servers0| ==> Opened(servers0[i], servers1[i], [])
    requires SentOn(servers1, servers2, wires, wires', q, x)
    ensures SentOn(servers0, servers2, wires, wires', q, x)
  {
    hide Queued;
    forall i: nat | i < |servers0| ensures Opened(servers0[i], servers2[i], Queued(q, x, i)) {
      assert Opened(servers0[i], servers1[i], []) && Opened(servers1[i], servers2[i], Queued(q, x, i));
      assert servers0[i].queue + [] == servers0[i].queue;
    }
  }

  lemma UdpSentOn(servers: seq<Server>, servers': seq<Server>, wires: seq<Wire>, q: Query, x: Id)
    requires |servers| == |servers'| == |wires| && q.server < |wires| && !q.usingTcp
    requires forall i :: 0 <= i < |servers| ==> Opened(servers[i], servers'[i], [])
    ensures SentOn(servers, servers', wires, wires, q, x)
  {
  }

  lemma SentAttempted(log: seq<Event>, more: seq<Event>, q: Query, qs: Queries, x: Id)
    requires WentOut(log, more, q, x) && x in qs && qs[x] == q.(deadline := qs[x].deadline)
    ensures Attempted(log, more, qs, x)
  {
    assert more[..|log|] == log;
  }

  lemma SentBegins(log: seq<Event>, more: seq<Event>, q: Query, x: Id)
    requires WentOut(log, more, q, x)
    ensures Begins(log, more)
  {
    assert more[..|log|] == log;
  }

  lemma SentSettled(servers: seq<Server>, servers': seq<Server>, wires: seq<Wire>, wires': seq<Wire>, generation: nat,
      q: Query, qs: Queries, x: Id, stayOpen: bool)
    requires SentOn(servers, servers', wires, wires', q, x) && x in qs && qs[x] == q.(deadline := qs[x].deadline)
    ensures Settled(servers, servers', wires, wires', generation, generation, qs, x, stayOpen)
    ensures Newer(servers, servers') && (Mended(qs[x], servers') || BrokenAsBefore(q, qs[x], servers))
  {
    forall i: nat | i < |servers|
      ensures Opened(servers[i], servers'[i], Queued(qs[x], x, i)) && NewerServer(servers[i], servers'[i])
      ensures servers'[i].broken == servers[i].broken
    {
      assert Opened(servers[i], servers'[i], Queued(q, x, i));
    }
  }

  lemma SentFair(q: Query, servers: seq<Server>, log: seq<Event>, more: seq<Event>, x: Id, r: Record, r': Record,
      n: nat)
    requires n > 0 && |q.info| == n == |servers|
    requires r'.fates == r.fates || r'.fates == r.fates + [ByWire]
    ensures Fair(q, servers, log, more, x, |r.fates|, r', n, true)
  {
  }

  lemma FairFates(q: Query, servers: seq<Server>, log: seq<Event>, more: seq<Event>, x: Id, r: Record, r': Record,
      n: nat, live: bool)
    requires n > 0 && Fair(q, servers, log, more, x, |r.fates|, r, n, live) && r'.fates == r.fates
    ensures Fair(q, servers, log, more, x, |r.fates|, r', n, live)
  {
  }

  lemma EndingAttempted(log: seq<Event>, more: seq<Event>, qs: Queries, x: Id)
    requires Ending(log, more, x) && x !in qs
    ensures Attempted(log, more, qs, x)
  {
  }

  lemma EndedSettled(servers: seq<Server>, servers': seq<Server>, wires: seq<Wire>, wires': seq<Wire>, generation: nat,
      generation': nat, qs: Queries, x: Id, stayOpen: bool)
    requires x !in qs
    requires qs != map[] || stayOpen ==>
               AllDetached(servers, servers', x, false) && wires' == wires && generation' == generation
    ensures Settled(servers, servers', wires, wires', generation, generation', qs, x, stayOpen)
  {
    hide DetachedEntry;
    if qs != map[] || stayOpen {
      forall i | 0 <= i < |servers|
        ensures servers[i].(udpOpen := servers'[i].udpOpen, tcpOpen := servers'[i].tcpOpen) == servers[i]
      {
        assert DetachedServer(servers[i], servers'[i], x, false);
      }
    }
  }

  lemma OpenedNewer(servers: seq<Server>, servers': seq<Server>)
    requires |servers| == |servers'| && forall i :: 0 <= i < |servers| ==> Opened(servers[i], servers'[i], [])
    ensures Newer(servers, servers')
  {
  }

  lemma RememberedSame(q: Query)
    ensures Remembered(q, q)
  {
  }

  lemma FairSame(q: Query, servers: seq<Server>, log: seq<Event>, more: seq<Event>, x: Id, from: nat, r: Record,
      r': Record, n: nat)
    requires n > 0 && Fair(q, servers, log, more, x, from, r, n, false) && r'.fates == r.fates && r'.first == r.first
    ensures Fair(q, servers, log, more, x, from, r', n, false)
  {
    hide Tally, Excused;
  }

  lemma MovedLater(q0: Query, q1: Query, r0: Record, r1: Record, qs: Queries, hist: map<Id, Record>, x: Id,
      now: TimeVal, timeout: nat, n: nat)
    requires n > 0 && MovedOn(q1, r1, qs, hist, x, now, timeout, n, 0)
    requires q1 == q0.(attempt := q1.attempt, server := q1.server) && q1.attempt > q0.attempt
    requires r1 == r0.(fates := r1.fates) && r0.fates <= r1.fates
    ensures MovedOn(q0, r0, qs, hist, x, now, timeout, n, 1)
    ensures x in hist && r1.fates <= hist[x].fates && hist[x].first == r0.first
  {
  }

  lemma UsableMended(q: Query, qs: Queries, x: Id, servers: seq<Server>, servers': seq<Server>, s: nat)
    requires s < |servers| && s < |q.info| && q.server == s && Usable(q, servers[s], s)
    requires x in qs ==> Mended(qs[x], servers') || BrokenAsBefore(q, qs[x], servers)
    ensures x in qs ==> Mended(qs[x], servers')
  {
  }

  /** What holds when the server was not reached. */
  lemma MissedSo(x: Id, q0: Query, servers0: seq<Server>, servers1: seq<Server>, r0: Record, r1: Record,
      log0: seq<Event>, log1: seq<Event>, q1: Query, n: nat, tries: nat, timeout: nat)
    requires n > 0 && |q0.info| == n == |servers0| == |servers1| && q0.server < n && q1 == Marked(q0, q0.server, n)
    requires log1 == log0 + [Unreached(x, q0.server)] && OnCourse(q0, r0, n, tries)
    requires q0.attempt <= |r0.fates| <= q0.attempt + 1
    requires r1 == r0.(fates := if |r0.fates| == q0.attempt then r0.fates + [NotReached] else r0.fates)
    requires forall i :: 0 <= i < n ==> Opened(servers0[i], servers1[i], [])
    requires Within(r0, q0.attempt, q0.attempt, n, timeout)
    ensures NotThere(x, q0, servers0, servers1, r0, r1, log0, log1, q1, n) && OnCourse(q1, r1, n, tries)
    ensures |r1.fates| == q1.attempt + 1 && Within(r1, q1.attempt + 1, q1.attempt, n, timeout)
  {
    hide Within, Opened;
    WithinMore(r0, q0.attempt, q0.attempt, q0.attempt + 1, q0.attempt, n, timeout);
    WithinFates(r0, r1.fates, q0.attempt + 1, q0.attempt, n, timeout);
  }
}
