/** What a query may cost: transmissions, visits to each server, and time.
    Relates the retry loop of ares_process.c to the arithmetic of its waits. */
module AresBudget {
  import opened AresTime
  import opened AresState
  import opened Bytes
  import opened Powers

  ghost function Switches(r: Record): nat { if r.switched then 1 else 0 }

  /** The query has been put on the wire once more, to server `s`, and is going to wait for `wait` milliseconds. */
  function Counted(r: Record, s: nat, wait: nat): Record
    requires s < |r.visits|
  {
    r.(sends := r.sends + 1, visits := r.visits[s := r.visits[s] + 1], waited := r.waited + wait)
  }

  /** A record before anything is sent. */
  function NothingSent(first: nat, n: nat, since: int, message: seq<byte>): Record {
    Record(first, 0, seq(n, _ => 0), 0, false, [], since, message, [])
  }

  /** The first `k` attempts pay for what has been done, with one more transmission, visit and full wait, as long as
      that of attempt `a`, for the switch to TCP. */
  ghost predicate Within(r: Record, k: nat, a: nat, n: nat, timeout: nat)
    requires n > 0
  {
    && |r.visits| == n && r.sends <= k + Switches(r)
    && (forall s :: 0 <= s < n ==> r.visits[s] <= Visits(s, r.first, k, n) + Switches(r))
    && r.waited <= TotalWait(timeout, 0, k, n) + if r.switched then FullWait(timeout, a, n) else 0
  }

  function MaxAttempts(n: nat, tries: nat): (k: nat)
    ensures k >= 1
  {
    if n * tries == 0 then 1 else n * tries
  }

  /** All attempts together pay for it. */
  ghost predicate Affordable(r: Record, n: nat, tries: nat, timeout: nat)
    requires n > 0
  {
    Within(r, MaxAttempts(n, tries), MaxAttempts(n, tries) - 1, n, timeout)
  }

  lemma {:induction false} VisitsGrow(s: nat, first: nat, k: nat, more: nat, n: nat)
    requires n > 0 && k <= more
    ensures Visits(s, first, k, n) <= Visits(s, first, more, n)
    decreases more
  {
    if k == more {
    } else {
      VisitsGrow(s, first, k, more - 1, n);
    }
  }

  lemma {:induction false} TotalGrows(timeout: nat, k: nat, more: nat, n: nat)
    requires n > 0 && k <= more
    ensures TotalWait(timeout, 0, k, n) <= TotalWait(timeout, 0, more, n)
    decreases more
  {
    if k == more {
    } else {
      TotalGrows(timeout, k, more - 1, n);
    }
  }

  lemma {:induction false} QuotientGrows(a: nat, b: nat, n: nat)
    requires n > 0 && a <= b
    ensures a / n <= b / n
  {
    var p, q := a / n, b / n;
    assert a == p * n + a % n && b == q * n + b % n;
    if p > q {
      Distance(p, q, n);
    }
  }

  lemma Distance(p: nat, q: nat, n: nat)
    requires p > q
    ensures p * n >= q * n + n
  {
    assert (p - q - 1) * n >= 0;
    assert (p - q - 1) * n == p * n - q * n - n;
  }

  lemma {:induction false} FullWaitGrows(timeout: nat, a: nat, b: nat, n: nat)
    requires n > 0 && a <= b
    ensures FullWait(timeout, a, n) <= FullWait(timeout, b, n)
  {
    QuotientGrows(a, b, n);
    PowGrows(a / n, b / n);
    ProductGrows(timeout, Pow2(a / n), Pow2(b / n));
  }

  lemma ProductGrows(k: nat, p: nat, q: nat)
    requires p <= q
    ensures k * p <= k * q
  {
    assert k * (q - p) >= 0;
    assert k * q - k * p == k * (q - p);
  }

  lemma {:induction false} WithinMore(r: Record, k: nat, a: nat, k': nat, a': nat, n: nat, timeout: nat)
    requires n > 0 && Within(r, k, a, n, timeout) && k <= k' && a <= a'
    ensures Within(r, k', a', n, timeout)
  {
    hide Visits, TotalWait, FullWait;
    forall s | 0 <= s < n ensures r.visits[s] <= Visits(s, r.first, k', n) + Switches(r) {
      VisitsGrow(s, r.first, k, k', n);
    }
    TotalGrows(timeout, k, k', n);
    FullWaitGrows(timeout, a, a', n);
  }

  /** A transmission is paid for by its attempt. */
  lemma {:induction false} WithinSent(r: Record, a: nat, n: nat, timeout: nat, s: nat, wait: nat)
    requires n > 0 && Within(r, a, a, n, timeout) && s == (r.first + a) % n && wait <= FullWait(timeout, a, n)
    ensures s < n && Within(Counted(r, s, wait), a + 1, a, n, timeout)
  {
    hide FullWait;
    var r' := Counted(r, s, wait);
    forall t | 0 <= t < n ensures r'.visits[t] <= Visits(t, r'.first, a + 1, n) + Switches(r') {
      assert Visits(t, r.first, a + 1, n) == Visits(t, r.first, a, n) + if (r.first + a) % n == t then 1 else 0;
    }
  }

  /** The switch pays for one more transmission in the same attempt. */
  lemma {:induction false} WithinSwitched(r: Record, a: nat, n: nat, timeout: nat)
    requires n > 0 && Within(r, a + 1, a, n, timeout) && !r.switched
    ensures Within(r.(switched := true), a, a, n, timeout)
  {
    hide FullWait;
    var r' := r.(switched := true);
    forall t | 0 <= t < n ensures r'.visits[t] <= Visits(t, r'.first, a, n) + Switches(r') {
      assert Visits(t, r.first, a + 1, n) == Visits(t, r.first, a, n) + if (r.first + a) % n == t then 1 else 0;
    }
  }

  lemma WithinVisits(r: Record, k: nat, a: nat, n: nat, timeout: nat)
    requires n > 0 && Within(r, k, a, n, timeout)
    ensures |r.visits| == n
  {
  }

  lemma {:induction false} NothingSentWithin(first: nat, n: nat, since: int, message: seq<byte>, tries: nat,
      timeout: nat)
    requires n > 0
    ensures Within(NothingSent(first, n, since, message), 0, 0, n, timeout)
            && Affordable(NothingSent(first, n, since, message), n, tries, timeout)
  {
    var r := NothingSent(first, n, since, message);
    WithinMore(r, 0, 0, MaxAttempts(n, tries), MaxAttempts(n, tries) - 1, n, timeout);
  }

  /** What is paid for does not depend on the callbacks. */
  lemma AffordableEnds(r: Record, callbacks: seq<Status>, n: nat, tries: nat, timeout: nat)
    requires n > 0 && Affordable(r, n, tries, timeout)
    ensures Affordable(r.(callbacks := callbacks), n, tries, timeout)
  {
  }

  /** Nor on what became of the attempts. */
  lemma WithinFates(r: Record, fates: seq<Fate>, k: nat, a: nat, n: nat, timeout: nat)
    requires n > 0 && Within(r, k, a, n, timeout)
    ensures Within(r.(fates := fates), k, a, n, timeout)
  {
  }

  lemma AffordableSwitched(r: Record, n: nat, tries: nat, timeout: nat)
    requires n > 0 && Affordable(r, n, tries, timeout)
    ensures Affordable(r.(switched := true), n, tries, timeout)
  {
  }

  lemma {:induction false} AffordableIs(r: Record, a: nat, n: nat, tries: nat, timeout: nat)
    requires n > 0 && Within(r, a + 1, a, n, timeout) && (a == 0 || a < n * tries)
    ensures Affordable(r, n, tries, timeout)
  {
    hide Within;
    WithinMore(r, a + 1, a, MaxAttempts(n, tries), MaxAttempts(n, tries) - 1, n, timeout);
  }

  /** The last attempt waits for the timeout doubled `tries - 1` times. */
  lemma {:induction false} LastWait(timeout: nat, n: nat, tries: nat)
    requires n > 0 && tries > 0
    ensures n * tries >= 1 && FullWait(timeout, n * tries - 1, n) == timeout * Pow2(tries - 1)
  {
    assert n * tries == n * (tries - 1) + n;
    assert n * tries - 1 == (tries - 1) * n + (n - 1);
    DivRound(tries - 1, n - 1, n);
  }

  /** What a query costs at most, when every server is tried `t` times: n * t transmissions, `t` to each server, and
      waits of timeout * n * (2^t - 1) milliseconds together; the switch to TCP may add one transmission, to one
      server, and one of the longest waits. Without any tries the first one is made all the same. */
  lemma {:induction false} CostBounds(r: Record, n: nat, tries: nat, timeout: nat)
    requires n > 0 && r.first < n && Affordable(r, n, tries, timeout)
    ensures var t := if tries == 0 then 1 else tries;
            && r.sends <= n * t + Switches(r)
            && |r.visits| == n && (forall s :: 0 <= s < n ==> r.visits[s] <= t + Switches(r))
            && r.waited <= timeout * n * (Pow2(t) - 1) + if r.switched then timeout * Pow2(t - 1) else 0
  {
    hide Visits, TotalWait, FullWait, Pow2;
    var t := if tries == 0 then 1 else tries;
    assert n * t >= MaxAttempts(n, tries);
    WithinMore(r, MaxAttempts(n, tries), MaxAttempts(n, tries) - 1, n * t, n * t - 1, n, timeout);
    LastWait(timeout, n, t);
    AllWaits(timeout, n, t);
    assert n * t == t * n;
    forall s | 0 <= s < n ensures r.visits[s] <= t + Switches(r) {
      EachServerTries(s, r.first, n, t);
    }
  }
}
