/**
 * The timing primitives of index.js: the random delays (index.js:17-18),
 * the poller `W` (index.js:71-84), `retryWait` (index.js:93-100) and the
 * shared action pacing `pace` (index.js:230-238). `Date.now()` is a clock
 * oracle, `await S(ms)` is the time that passes between two readings of it,
 * and each `Math.random` draw is a parameter within the bounds the source
 * gives it.
 */
module Timing {
  import opened Wrappers

  /** `CFG.pollMs` (index.js:30): the pause between two probes of `W`. */
  const PollMs: nat := 90

  /** `retryWait`'s default number of attempts (index.js:93). */
  const DefaultAttempts: nat := 6

  /** A draw of `delayInteractionMs()`: `randInt(150, 358)`. */
  type Gap = g: int | 150 <= g <= 358 witness 150

  /** A draw of `delayLoadMs()`: `randInt(333, 1333)`. */
  type LoadDelay = d: int | 333 <= d <= 1333 witness 333

  /**
   * Readings of `Date.now()` by one run of `W`: `now(0)` is `t0`, `now(k + 1)`
   * the reading of the `k`-th loop test. The first test follows `t0` at once,
   * every later one follows an `await S(PollMs)`.
   */
  ghost predicate PollClock(now: nat -> int) {
    && now(0) <= now(1)
    && forall j: nat | j >= 1 :: now(j) + PollMs <= now(j + 1)
  }

  /** Every test after the first comes at least `PollMs` after the one before. */
  lemma ClockAdvances(now: nat -> int, j: nat)
    requires PollClock(now) && j >= 1
    ensures now(j) + PollMs <= now(j + 1)
  {
  }

  /** The least time the loop of `W` has slept after `k` failed probes. */
  function Waited(k: nat): int {
    if k == 0 then 0 else Waited(k - 1) + PollMs
  }

  lemma {:induction false} WaitedIsProduct(k: nat)
    ensures Waited(k) == k * PollMs
  {
    if k > 0 {
      WaitedIsProduct(k - 1);
    }
  }

  /**
   * `W`: probe until a probe yields something or `timeoutMs` has elapsed
   * since `t0`. A probe that throws is an empty probe. `probes` is how many
   * probes were made.
   */
  method Poll<T>(now: nat -> int, probe: nat -> Option<T>, timeoutMs: int) returns (r: Option<T>, probes: nat)
    requires PollClock(now)
    ensures forall k | 1 <= k <= probes :: now(k) - now(0) < timeoutMs
    ensures probes >= 1 ==> Waited(probes - 1) < timeoutMs
    ensures r.Some? ==> probes >= 1 && r == probe(probes - 1)
    ensures forall k | 0 <= k < probes - 1 :: probe(k).None?
    ensures r.None? ==> (forall k | 0 <= k < probes :: probe(k).None?) && now(probes + 1) - now(0) >= timeoutMs
  {
    var t0 := now(0);
    var k: nat := 0;
    while now(k + 1) - t0 < timeoutMs
      invariant forall j | 1 <= j <= k :: now(j) - t0 < timeoutMs
      invariant forall j | 0 <= j < k :: probe(j).None?
      invariant k >= 1 ==> Waited(k - 1) < timeoutMs
      invariant now(k + 1) >= t0 + Waited(k)
      decreases t0 + timeoutMs - now(k + 1)
    {
      var v := probe(k);
      if v.Some? {
        return v, k + 1;
      }
      k := k + 1;
      ClockAdvances(now, k);
    }
    return None, k;
  }

  /**
   * `retryWait`: up to `attempts` rounds of `W`, where `attempt(i)` is what
   * round `i` of `W` returned; an interaction delay separates failed rounds.
   */
  method RetryWait<T>(attempts: int, attempt: nat -> Option<T>) returns (r: Option<T>, rounds: nat)
    ensures rounds <= if attempts < 0 then 0 else attempts
    ensures forall k | 0 <= k < rounds - 1 :: attempt(k).None?
    ensures r.Some? ==> rounds >= 1 && r == attempt(rounds - 1)
    ensures r.None? ==> rounds == (if attempts < 0 then 0 else attempts) && forall k | 0 <= k < rounds :: attempt(k).None?
  {
    var i: nat := 0;
    while i < attempts
      invariant i <= if attempts < 0 then 0 else attempts
      invariant forall k | 0 <= k < i :: attempt(k).None?
    {
      var v := attempt(i);
      if v.Some? {
        return v, i + 1;
      }
      i := i + 1;
    }
    return None, i;
  }

  /** How long `pace` sleeps: until `gap` after the last action (index.js:235-236). */
  function PaceWait(lastActionAt: int, gap: int, now: int): (w: int)
    ensures w > 0 <==> now < lastActionAt + gap
  {
    lastActionAt + gap - now
  }

  /** `__cl_lastActionAt` and `pace`, which every human-paced click goes through. */
  class Pacer {
    var lastActionAt: int

    constructor ()
      ensures lastActionAt == 0
    {
      lastActionAt := 0;
    }

    /**
     * `pace(minGapMs)`: `minGap` is the caller's number, if any, `drawn` the
     * `delayInteractionMs()` used otherwise, `now` the first reading of the
     * clock and `after` the reading once the sleep is over.
     */
    method Pace(minGap: Option<int>, drawn: Gap, now: int, after: int)
      requires after >= now
      requires PaceWait(lastActionAt, minGap.GetOr(drawn), now) > 0
        ==> after >= now + PaceWait(lastActionAt, minGap.GetOr(drawn), now)
      modifies this
      ensures lastActionAt == after
      ensures lastActionAt >= old(lastActionAt) + minGap.GetOr(drawn)
    {
      lastActionAt := after;
    }
  }

  /**
   * Two paced actions without an explicit gap are at least 150 ms apart,
   * whatever the clock reads, as long as each sleep lasts as long as asked.
   */
  method PacedTwice(p: Pacer, d1: Gap, d2: Gap, t1: int, a1: int, t2: int, a2: int)
    requires a1 >= t1
    requires PaceWait(p.lastActionAt, d1, t1) > 0 ==> a1 >= t1 + PaceWait(p.lastActionAt, d1, t1)
    requires a2 >= t2
    requires PaceWait(a1, d2, t2) > 0 ==> a2 >= t2 + PaceWait(a1, d2, t2)
    modifies p
    ensures p.lastActionAt == a2 && a2 - a1 >= 150
  {
    p.Pace(None, d1, t1, a1);
    p.Pace(None, d2, t2, a2);
  }
}
