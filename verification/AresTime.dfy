/** Deadlines and the exponential back-off of query retries.
    Models the time helpers and the wait computation of ares_process.c. */
module AresTime {
  import opened Powers

  const MICROS := 1_000_000

  datatype TimeVal = TimeVal(sec: int, usec: int) {
    predicate Normal() { 0 <= usec < MICROS }

    /** The instant in microseconds. */
    function Micros(): int { sec * MICROS + usec }
  }

  /** `now` is exactly the check time or later. */
  predicate TimedOut(now: TimeVal, check: TimeVal) {
    var secs := now.sec - check.sec;
    if secs > 0 then true
    else if secs < 0 then false
    else now.usec - check.usec >= 0
  }

  /** Comparing seconds and then microseconds compares the instants. */
  lemma TimedOutIsOrder(now: TimeVal, check: TimeVal)
    requires now.Normal() && check.Normal()
    ensures TimedOut(now, check) <==> now.Micros() >= check.Micros()
  {
  }

  /** Adds some milliseconds, carrying at most one second. */
  function TimeAdd(now: TimeVal, millisecs: nat): TimeVal {
    var sec := now.sec + millisecs / 1000;
    var usec := now.usec + millisecs % 1000 * 1000;
    if usec >= MICROS then TimeVal(sec + 1, usec - MICROS) else TimeVal(sec, usec)
  }

  lemma TimeAddExact(now: TimeVal, millisecs: nat)
    requires now.Normal()
    ensures TimeAdd(now, millisecs).Normal()
    ensures TimeAdd(now, millisecs).Micros() == now.Micros() + millisecs * 1000
  {
    assert millisecs == millisecs / 1000 * 1000 + millisecs % 1000;
  }

  /** timeout << (try / nservers) */
  function FullWait(timeout: nat, attempt: nat, nservers: nat): nat
    requires nservers > 0
  {
    timeout * Pow2(attempt / nservers)
  }

  /** The wait before an attempt is given up; `random` is rand() & 7. */
  function Wait(timeout: nat, attempt: nat, nservers: nat, random: nat): nat
    requires nservers > 0 && random < 8
  {
    FullWait(timeout, attempt, nservers) * (9 + random) / 16
  }

  /** Between 9/16 of the doubled timeout and all of it. */
  lemma {:induction false} WaitBounds(timeout: nat, attempt: nat, nservers: nat, random: nat)
    requires nservers > 0 && random < 8
    ensures FullWait(timeout, attempt, nservers) * 9 / 16 <= Wait(timeout, attempt, nservers, random)
            <= FullWait(timeout, attempt, nservers)
    ensures timeout >= 2 ==> Wait(timeout, attempt, nservers, random) >= 1
  {
    var full := FullWait(timeout, attempt, nservers);
    assert full * 9 <= full * (9 + random) <= full * 16;
    if timeout >= 2 {
      assert full >= 2 by {
        var p := Pow2(attempt / nservers);
        assert timeout * p >= timeout;
      }
    }
  }

  /** All full waits of the attempts from `first` up to `end`. */
  function TotalWait(timeout: nat, first: nat, end: nat, nservers: nat): nat
    requires nservers > 0 && first <= end
  {
    if first == end then 0 else TotalWait(timeout, first, end - 1, nservers) + FullWait(timeout, end - 1, nservers)
  }

  /** One round over all servers waits at most nservers doubled timeouts. */
  lemma {:induction false} RoundWait(timeout: nat, round: nat, k: nat, nservers: nat)
    requires nservers > 0 && k <= nservers
    ensures TotalWait(timeout, round * nservers, round * nservers + k, nservers) == k * (timeout * Pow2(round))
  {
    if k == 0 {
    } else {
      RoundWait(timeout, round, k - 1, nservers);
      assert (round * nservers + (k - 1)) / nservers == round by { DivRound(round, k - 1, nservers); }
      Distribute(k, timeout * Pow2(round));
    }
  }

  lemma Distribute(k: nat, w: nat)
    requires k > 0
    ensures (k - 1) * w + w == k * w
  {
  }

  lemma {:induction false} DivRound(q: nat, r: nat, d: nat)
    requires r < d
    ensures (q * d + r) / d == q && (q * d + r) % d == r
  {
    var x := q * d + r;
    assert x == x / d * d + x % d;
    var delta := x / d - q;
    assert delta * d == r - x % d by { assert delta * d == x / d * d - q * d; }
    assert delta >= 1 ==> delta * d >= d;
    assert delta <= -1 ==> delta * d + d <= 0;
  }

  lemma AddMod(x: nat, d: nat)
    requires d > 0
    ensures (x + d) % d == x % d
  {
    DivRound(x / d, x % d, d);
    DivRound(x / d + 1, x % d, d);
    assert (x / d + 1) * d == x / d * d + d;
  }

  /** Multiples of d do not matter modulo d. */
  lemma {:induction false} ModPlus(q: nat, r: nat, d: nat)
    requires d > 0
    ensures (q * d + r) % d == r % d
  {
    if q > 0 {
      ModPlus(q - 1, r, d);
      AddMod((q - 1) * d + r, d);
      assert q * d + r == (q - 1) * d + r + d;
    } else {
      assert q * d == 0;
    }
  }

  lemma {:induction false} TotalWaitSplit(timeout: nat, a: nat, b: nat, c: nat, nservers: nat)
    requires nservers > 0 && a <= b <= c
    ensures TotalWait(timeout, a, c, nservers)
            == TotalWait(timeout, a, b, nservers) + TotalWait(timeout, b, c, nservers)
    decreases c
  {
    if b < c {
      TotalWaitSplit(timeout, a, b, c - 1, nservers);
    }
  }

  lemma {:induction false} NextRound(timeout: nat, nservers: nat, p: nat)
    requires p >= 1
    ensures timeout * nservers * (p - 1) + nservers * (timeout * p) == timeout * nservers * (2 * p - 1)
  {
    var tn := timeout * nservers;
    assert nservers * (timeout * p) == tn * p;
    assert tn * (p - 1) + tn * p == tn * (2 * p - 1);
  }

  /** All attempts of a query together wait at most timeout * nservers * (2^tries - 1) milliseconds. */
  lemma {:induction false} AllWaits(timeout: nat, nservers: nat, tries: nat)
    requires nservers > 0
    ensures TotalWait(timeout, 0, tries * nservers, nservers) == timeout * nservers * (Pow2(tries) - 1)
  {
    if tries > 0 {
      var a := (tries - 1) * nservers;
      assert tries * nservers == a + nservers;
      assert Pow2(tries) == 2 * Pow2(tries - 1);
      hide TotalWait, Pow2;
      AllWaits(timeout, nservers, tries - 1);
      TotalWaitSplit(timeout, 0, a, a + nservers, nservers);
      RoundWait(timeout, tries - 1, nservers, nservers);
      NextRound(timeout, nservers, Pow2(tries - 1));
    } else {
      assert tries * nservers == 0;
      assert timeout * nservers * (Pow2(tries) - 1) == 0;
    }
  }

  // ------------------------------------------------------------------------
  // Which server an attempt goes to
  // ------------------------------------------------------------------------

  /** How many of the first `attempts` attempts go to `server` when the first one goes to `first`. */
  function Visits(server: nat, first: nat, attempts: nat, nservers: nat): nat
    requires nservers > 0
  {
    if attempts == 0 then 0
    else Visits(server, first, attempts - 1, nservers) + if (first + (attempts - 1)) % nservers == server then 1 else 0
  }

  /** Within one round every server is visited exactly once. */
  lemma {:induction false} RoundVisits(server: nat, first: nat, base: nat, k: nat, nservers: nat)
    requires server < nservers && first < nservers && k <= nservers
    requires base % nservers == 0
    ensures Visits(server, first, base + k, nservers) == Visits(server, first, base, nservers)
              + if (server + nservers - first) % nservers < k then 1 else 0
  {
    if k == 0 {
    } else {
      RoundVisits(server, first, base, k - 1, nservers);
      OneVisit(server, first, base, k - 1, nservers);
    }
  }

  lemma {:induction false} OneVisit(server: nat, first: nat, base: nat, k: nat, nservers: nat)
    requires server < nservers && first < nservers && k < nservers && base % nservers == 0
    ensures (first + (base + k)) % nservers == server <==> (server + nservers - first) % nservers == k
  {
    var q := base / nservers;
    assert base == q * nservers;
    if first + k < nservers {
      DivRound(q, first + k, nservers);
    } else {
      assert q * nservers + nservers == (q + 1) * nservers;
      DivRound(q + 1, first + k - nservers, nservers);
    }
    if server >= first {
      DivRound(1, server - first, nservers);
    } else {
      DivRound(0, server + nservers - first, nservers);
    }
  }

  /** A query that runs through all its attempts visits each server exactly `tries` times. */
  lemma {:induction false} EachServerTries(server: nat, first: nat, nservers: nat, tries: nat)
    requires server < nservers && first < nservers
    ensures Visits(server, first, tries * nservers, nservers) == tries
  {
    if tries == 0 {
      assert tries * nservers == 0;
    } else {
      var base := (tries - 1) * nservers;
      assert tries * nservers == base + nservers;
      assert base % nservers == 0 by { DivRound(tries - 1, 0, nservers); }
      hide Visits;
      EachServerTries(server, first, nservers, tries - 1);
      RoundVisits(server, first, base, nservers, nservers);
    }
  }
}
