/** Retry with exponential backoff, in 64-bit nanoseconds. */
module Retry {

  const TWO_TO_62 := 0x4000_0000_0000_0000
  const TWO_TO_63 := 0x8000_0000_0000_0000

  predicate Int64(x: int) { -TWO_TO_63 <= x < TWO_TO_63 }

  /** int64 doubling, with wrap-around. */
  function Double(x: int): (r: int)
    requires Int64(x)
    ensures Int64(r)
  {
    if 2 * x >= TWO_TO_63 then 2 * x - 2 * TWO_TO_63
    else if 2 * x < -TWO_TO_63 then 2 * x + 2 * TWO_TO_63
    else 2 * x
  }

  function Clamp(delay: int, maxDelay: int): int {
    if maxDelay > 0 && delay > maxDelay then maxDelay else delay
  }

  function Pow2(i: nat): nat { if i == 0 then 1 else 2 * Pow2(i - 1) }

  /** The intended i-th wait: the base doubled i times, capped. */
  function Ideal(base: int, maxDelay: int, i: nat): int { Clamp(base * Pow2(i), maxDelay) }

  /** The waits that n retries make: the ideal ones until a wait of 2^62 or more is doubled,
      and none after that. */
  function BackoffWaits(base: int, maxDelay: int, n: nat): seq<int> {
    if n == 0 || base <= 0 then []
    else
      var front := BackoffWaits(base, maxDelay, n - 1);
      if n == 1 || Ideal(base, maxDelay, n - 2) < TWO_TO_62 then front + [Ideal(base, maxDelay, n - 1)] else front
  }

  /** `delay` as it stands before the i-th retry: either the doubled base, or negative once
      a wait of 2^62 or more has been doubled. */
  ghost predicate DelayAt(base: int, maxDelay: int, i: nat, delay: int) {
    if base <= 0 then delay == base
    else if i == 0 then delay == base
    else if Ideal(base, maxDelay, i - 1) < TWO_TO_62 then delay == 2 * Ideal(base, maxDelay, i - 1)
    else delay < 0
  }

  lemma PowPositive(i: nat)
    ensures Pow2(i) >= 1
  {
  }

  /** One step of the ideal backoff, capped or not. */
  lemma IdealStep(base: int, maxDelay: int, i: nat)
    requires base > 0
    ensures Ideal(base, maxDelay, i) > 0
    ensures Ideal(base, maxDelay, i + 1) == Clamp(2 * Ideal(base, maxDelay, i), maxDelay)
    ensures Ideal(base, maxDelay, i) <= Ideal(base, maxDelay, i + 1)
  {
    PowPositive(i);
    var x := base * Pow2(i);
    assert x > 0;
    assert base * Pow2(i + 1) == 2 * x;
  }

  lemma DelayStep(base: int, maxDelay: int, i: nat, delay: int)
    requires Int64(base) && Int64(maxDelay) && Int64(delay) && DelayAt(base, maxDelay, i, delay)
    ensures delay > 0 ==> Clamp(delay, maxDelay) == Ideal(base, maxDelay, i)
                          && Int64(Clamp(delay, maxDelay))
                          && DelayAt(base, maxDelay, i + 1, Double(Clamp(delay, maxDelay)))
    ensures delay <= 0 ==> DelayAt(base, maxDelay, i + 1, delay)
    ensures delay > 0 <==> base > 0 && (i == 0 || Ideal(base, maxDelay, i - 1) < TWO_TO_62)
  {
    if base > 0 {
      IdealStep(base, maxDelay, i);
      if i > 0 { IdealStep(base, maxDelay, i - 1); }
    }
  }

  datatype Outcome = Succeeded | GaveUp | Cancelled

  /** `ok(k)` is the outcome of the k-th handler call, `cancelled(k)` whether the context
      ends during the wait after it. `waits` are the timers set, `calls` the handler calls. */
  method HandleWithRetry(retryMax: int, base: int, maxDelay: int, ok: nat -> bool, cancelled: nat -> bool)
    returns (r: Outcome, calls: nat, waits: seq<int>)
    requires Int64(base) && Int64(maxDelay)
    ensures 1 <= calls <= (if retryMax > 0 then retryMax else 0) + 1
    ensures forall k :: 0 <= k < calls - 1 ==> !ok(k)
    ensures r.Succeeded? <==> ok(calls - 1)
    ensures r.Cancelled? ==> cancelled(calls - 1) && |waits| == calls
    ensures forall k :: 0 <= k < |waits| - (if r.Cancelled? then 1 else 0) ==> !cancelled(k)
    ensures r.GaveUp? ==> calls == (if retryMax > 0 then retryMax else 0) + 1
    ensures waits == BackoffWaits(base, maxDelay, if r.Cancelled? then calls else calls - 1)
  {
    if retryMax <= 0 {
      return if ok(0) then Succeeded else GaveUp, 1, [];
    }
    var delay := base;
    var attempts := 0;
    waits := [];
    while true
      invariant 0 <= attempts <= retryMax
      invariant forall k :: 0 <= k < attempts ==> !ok(k)
      invariant Int64(delay) && DelayAt(base, maxDelay, attempts, delay)
      invariant waits == BackoffWaits(base, maxDelay, attempts)
      invariant |waits| <= attempts && (delay > 0 ==> |waits| == attempts)
      invariant forall k :: 0 <= k < |waits| ==> !cancelled(k)
      decreases retryMax - attempts
    {
      if ok(attempts) {
        return Succeeded, attempts + 1, waits;
      }
      attempts := attempts + 1;
      if attempts > retryMax {
        return GaveUp, attempts, waits;
      }
      DelayStep(base, maxDelay, attempts - 1, delay);
      if delay > 0 {
        if maxDelay > 0 && delay > maxDelay {
          delay := maxDelay;
        }
        waits := waits + [delay];
        if cancelled(attempts - 1) {
          return Cancelled, attempts, waits;
        }
        delay := Double(delay);
      }
    }
  }

  /** Closed form: with a cap below 2^62 doubling never overflows, whatever the number of
      retries, and the i-th wait is min(base * 2^i, maxDelay). */
  lemma {:induction false} BackoffClosedForm(base: int, maxDelay: int, n: nat)
    requires base > 0 && 0 < maxDelay < TWO_TO_62
    ensures |BackoffWaits(base, maxDelay, n)| == n
    ensures forall i :: 0 <= i < n ==> BackoffWaits(base, maxDelay, n)[i] == Ideal(base, maxDelay, i) <= maxDelay
    ensures forall i :: 0 <= i < n && base * Pow2(i) <= maxDelay ==>
              BackoffWaits(base, maxDelay, n)[i] == base * Pow2(i)
    ensures forall i :: 0 <= i < n && base * Pow2(i) > maxDelay ==> BackoffWaits(base, maxDelay, n)[i] == maxDelay
  {
    if n > 0 {
      BackoffClosedForm(base, maxDelay, n - 1);
    }
  }

  function Sum(xs: seq<int>): int { if xs == [] then 0 else Sum(xs[..|xs| - 1]) + xs[|xs| - 1] }

  /** The total wait of n retries stays below n times the cap. */
  lemma {:induction false} TotalWaitBounded(base: int, maxDelay: int, n: nat)
    requires 0 < maxDelay
    ensures Sum(BackoffWaits(base, maxDelay, n)) <= n * maxDelay
  {
    if n > 0 && base > 0 {
      TotalWaitBounded(base, maxDelay, n - 1);
      var all, front := BackoffWaits(base, maxDelay, n), BackoffWaits(base, maxDelay, n - 1);
      assert (n - 1) * maxDelay + maxDelay == n * maxDelay;
      if all != front { assert all[..|all| - 1] == front; }
    }
  }

  lemma {:induction false} IdealGrows(base: int, maxDelay: int, i: nat, j: nat)
    requires base > 0 && i <= j
    ensures Ideal(base, maxDelay, i) <= Ideal(base, maxDelay, j)
    decreases j - i
  {
    if i < j {
      IdealStep(base, maxDelay, j - 1);
      IdealGrows(base, maxDelay, i, j - 1);
    }
  }

  lemma {:induction false} WaitsAtMost(base: int, maxDelay: int, n: nat)
    ensures |BackoffWaits(base, maxDelay, n)| <= n
  {
    if n > 0 && base > 0 { WaitsAtMost(base, maxDelay, n - 1); }
  }

  /** Exactly when every one of n retries is preceded by its wait: none of the waits before
      the last is 2^62 or more, which a caller checks on the last of them. Otherwise the
      doubled delay turns negative and the remaining retries follow at once. */
  lemma {:induction false} EveryRetryWaits(base: int, maxDelay: int, n: nat)
    requires base > 0 && n > 1
    ensures |BackoffWaits(base, maxDelay, n)| == n <==> Ideal(base, maxDelay, n - 2) < TWO_TO_62
  {
    WaitsAtMost(base, maxDelay, n - 1);
    if n > 2 {
      EveryRetryWaits(base, maxDelay, n - 1);
      IdealGrows(base, maxDelay, n - 3, n - 2);
    }
  }

  /** A base of 2^62 ns without a cap waits before the first retry only. */
  lemma {:induction false} OverflowWaitsOnce(n: nat)
    requires n > 0
    ensures BackoffWaits(TWO_TO_62, 0, n) == [TWO_TO_62]
  {
    if n == 1 {
      assert BackoffWaits(TWO_TO_62, 0, 0) == [] && Pow2(0) == 1;
    } else {
      OverflowWaitsOnce(n - 1);
      IdealGrows(TWO_TO_62, 0, 0, n - 2);
      assert Pow2(0) == 1;
    }
  }
}
