/** The two retry schedules of the agent daemon, and the peer-to-peer client that uses the first. */
module Backoff {
  datatype RetryConfig = RetryConfig(maxRetries: int, initialDelayMs: real, multiplier: real, maxDelayMs: real)

  function Min(a: real, b: real): real { if a <= b then a else b }

  function Pow(base: real, k: nat): real { if k == 0 then 1.0 else base * Pow(base, k - 1) }

  /** Multiplication by the multiplier, as a function of the delay. */
  function Scaling(multiplier: real): real -> real { x => x * multiplier }

  /** Start from `initial`, then scale and cap `k` times. */
  function ScaledAndCapped(scale: real -> real, initial: real, max: real, k: nat): real {
    if k == 0 then initial else Min(scale(ScaledAndCapped(scale, initial, max, k - 1)), max)
  }

  /** The delay before retry `k + 1`: the first is the initial delay, each next one the capped multiple of the last. */
  function RunningDelay(retry: RetryConfig, k: nat): real {
    ScaledAndCapped(Scaling(retry.multiplier), retry.initialDelayMs, retry.maxDelayMs, k)
  }

  function CappedPower(initial: real, multiplier: real, max: real, k: nat): real {
    Min(initial * Pow(multiplier, k), max)
  }

  /** The progress reporter's delay after a failed attempt, computed from scratch each time. */
  function ReportDelay(baseMs: real, maxMs: real, attempt: nat): real {
    CappedPower(baseMs, 2.0, maxMs, attempt)
  }

  function Delays(retry: RetryConfig, n: nat): (delays: seq<real>)
    ensures |delays| == n
    ensures forall k :: 0 <= k < n ==> delays[k] == RunningDelay(retry, k)
  {
    seq(n, k requires 0 <= k < n => RunningDelay(retry, k))
  }

  function Total(delays: seq<real>): real {
    if delays == [] then 0.0 else Total(delays[..|delays| - 1]) + delays[|delays| - 1]
  }

  predicate Sensible(retry: RetryConfig) { 0.0 <= retry.initialDelayMs && 0.0 <= retry.multiplier }

  // The closed form is proved for any scaling that keeps order and either never shrinks the maximum or
  // never grows anything, so that no multiplication gets in the way.

  function Scaled(scale: real -> real, initial: real, k: nat): real {
    if k == 0 then initial else scale(Scaled(scale, initial, k - 1))
  }

  ghost predicate KeepsOrder(scale: real -> real) {
    forall x: real, y: real {:trigger scale(x), scale(y)} :: 0.0 <= x <= y ==> 0.0 <= scale(x) <= scale(y)
  }

  ghost predicate NeverGrows(scale: real -> real) {
    forall x: real {:trigger scale(x)} :: 0.0 <= x ==> scale(x) <= x
  }

  lemma {:induction false} ScaledRange(scale: real -> real, initial: real, k: nat)
    requires 0.0 <= initial && KeepsOrder(scale)
    ensures 0.0 <= Scaled(scale, initial, k)
    ensures NeverGrows(scale) ==> Scaled(scale, initial, k) <= initial
  {
    if k == 0 {
    } else {
      ScaledRange(scale, initial, k - 1);
      var last := Scaled(scale, initial, k - 1);
      assert 0.0 <= scale(last) <= scale(last);
    }
  }

  /** Capping at every step is the same as capping once at the end. */
  lemma {:induction false} CapOnce(scale: real -> real, initial: real, max: real, k: nat)
    requires 0.0 <= initial <= max && KeepsOrder(scale)
    requires NeverGrows(scale) || max <= scale(max)
    ensures ScaledAndCapped(scale, initial, max, k) == Min(Scaled(scale, initial, k), max)
  {
    if k == 0 {
    } else {
      CapOnce(scale, initial, max, k - 1);
      ScaledRange(scale, initial, k - 1);
      var last := Scaled(scale, initial, k - 1);
      if last > max {
        assert scale(max) <= scale(last);
      }
    }
  }

  lemma ProductOrder(x: real, y: real, m: real)
    requires 0.0 <= x <= y && 0.0 <= m
    ensures 0.0 <= x * m <= y * m
  {
    assert (y - x) * m >= 0.0;
  }

  lemma ProductShrinks(x: real, m: real)
    requires 0.0 <= x && m <= 1.0
    ensures x * m <= x
  {
    assert x * (1.0 - m) >= 0.0;
  }

  lemma ScalingGrows(multiplier: real, x: real)
    requires 0.0 <= x && 1.0 <= multiplier
    ensures x <= Scaling(multiplier)(x)
  {
    assert x * (multiplier - 1.0) >= 0.0;
  }

  lemma ScalingKeepsOrder(multiplier: real)
    requires 0.0 <= multiplier
    ensures KeepsOrder(Scaling(multiplier))
  {
    forall x: real, y: real | 0.0 <= x <= y ensures 0.0 <= Scaling(multiplier)(x) <= Scaling(multiplier)(y) {
      ProductOrder(x, y, multiplier);
    }
  }

  lemma ScalingNeverGrows(multiplier: real)
    requires 0.0 <= multiplier <= 1.0
    ensures NeverGrows(Scaling(multiplier))
  {
    forall x: real | 0.0 <= x ensures Scaling(multiplier)(x) <= x {
      ProductShrinks(x, multiplier);
    }
  }

  lemma CapScalingOnce(retry: RetryConfig, k: nat)
    requires Sensible(retry) && retry.initialDelayMs <= retry.maxDelayMs
    ensures RunningDelay(retry, k)
         == Min(Scaled(Scaling(retry.multiplier), retry.initialDelayMs, k), retry.maxDelayMs)
  {
    ScalingKeepsOrder(retry.multiplier);
    if retry.multiplier <= 1.0 {
      ScalingNeverGrows(retry.multiplier);
    } else {
      ScalingGrows(retry.multiplier, retry.maxDelayMs);
    }
    CapOnce(Scaling(retry.multiplier), retry.initialDelayMs, retry.maxDelayMs, k);
  }

  lemma {:induction false} ScaledIsPower(initial: real, multiplier: real, k: nat)
    ensures Scaled(Scaling(multiplier), initial, k) == initial * Pow(multiplier, k)
  {
    if k == 0 {
    } else {
      ScaledIsPower(initial, multiplier, k - 1);
      Reorder(initial, Pow(multiplier, k - 1), multiplier);
    }
  }

  lemma Reorder(i: real, p: real, m: real)
    ensures i * p * m == i * (m * p)
  {
  }

  /** Closed form: with an initial delay within the cap, the running update is the capped power. */
  lemma ClosedForm(retry: RetryConfig, k: nat)
    requires Sensible(retry) && retry.initialDelayMs <= retry.maxDelayMs
    ensures RunningDelay(retry, k) == CappedPower(retry.initialDelayMs, retry.multiplier, retry.maxDelayMs, k)
  {
    CapScalingOnce(retry, k);
    ScaledIsPower(retry.initialDelayMs, retry.multiplier, k);
  }

  /** The first sleep is never capped, so the closed form holds exactly when the initial delay is within the cap. */
  lemma ClosedFormIff(retry: RetryConfig)
    requires Sensible(retry)
    ensures (forall k: nat :: RunningDelay(retry, k)
              == CappedPower(retry.initialDelayMs, retry.multiplier, retry.maxDelayMs, k))
       <==> retry.initialDelayMs <= retry.maxDelayMs
  {
    var i := retry.initialDelayMs;
    if i <= retry.maxDelayMs {
      forall k: nat
        ensures RunningDelay(retry, k) == CappedPower(i, retry.multiplier, retry.maxDelayMs, k)
      {
        ClosedForm(retry, k);
      }
    } else {
      assert i * Pow(retry.multiplier, 0) == i;
      assert RunningDelay(retry, 0) != CappedPower(i, retry.multiplier, retry.maxDelayMs, 0);
    }
  }

  /** An initial delay above the maximum is slept through in full. */
  lemma FirstSleepExample()
    ensures var retry := RetryConfig(3, 10_000.0, 2.0, 5_000.0);
      && RunningDelay(retry, 0) == 10_000.0
      && RunningDelay(retry, 1) == 5_000.0
      && CappedPower(retry.initialDelayMs, retry.multiplier, retry.maxDelayMs, 0) == 5_000.0
  {
    var retry := RetryConfig(3, 10_000.0, 2.0, 5_000.0);
    assert RunningDelay(retry, 1) == Min(Scaling(2.0)(RunningDelay(retry, 0)), 5_000.0);
  }

  /** With doubling, the two schedules of the daemon coincide. */
  lemma SchedulesAgree(retry: RetryConfig, k: nat)
    requires 0.0 <= retry.initialDelayMs <= retry.maxDelayMs && retry.multiplier == 2.0
    ensures RunningDelay(retry, k) == ReportDelay(retry.initialDelayMs, retry.maxDelayMs, k)
  {
    ClosedForm(retry, k);
  }

  lemma DelayIsCapped(retry: RetryConfig, k: nat)
    requires Sensible(retry) && retry.initialDelayMs <= retry.maxDelayMs
    ensures RunningDelay(retry, k) <= retry.maxDelayMs
  {
    CapScalingOnce(retry, k);
  }

  lemma OneMoreTimes(x: real, m: real)
    ensures (x + 1.0) * m == x * m + m
  {
  }

  lemma OneMoreDelay(total: real, delay: real, n: nat, max: real)
    requires total <= n as real * max && delay <= max
    ensures total + delay <= (n + 1) as real * max
  {
    OneMoreTimes(n as real, max);
  }

  lemma TotalUnfolds(retry: RetryConfig, n: nat)
    requires n > 0
    ensures Total(Delays(retry, n)) == Total(Delays(retry, n - 1)) + RunningDelay(retry, n - 1)
  {
    assert Delays(retry, n)[..n - 1] == Delays(retry, n - 1);
  }

  /** Waiting in total takes at most one maximum delay per retry. */
  lemma {:induction false} TotalIsBounded(retry: RetryConfig, n: nat)
    requires Sensible(retry) && retry.initialDelayMs <= retry.maxDelayMs
    ensures Total(Delays(retry, n)) <= n as real * retry.maxDelayMs
  {
    if n == 0 {
    } else {
      TotalIsBounded(retry, n - 1);
      TotalUnfolds(retry, n);
      DelayIsCapped(retry, n - 1);
      OneMoreDelay(Total(Delays(retry, n - 1)), RunningDelay(retry, n - 1), n - 1, retry.maxDelayMs);
    }
  }

  /** And no less is enough: from the maximum on, a schedule that does not shrink waits that long every time. */
  lemma {:induction false} TotalIsReached(retry: RetryConfig, n: nat)
    requires 0.0 <= retry.initialDelayMs == retry.maxDelayMs && 1.0 <= retry.multiplier
    ensures Total(Delays(retry, n)) == n as real * retry.maxDelayMs
  {
    if n == 0 {
    } else {
      TotalIsReached(retry, n - 1);
      TotalUnfolds(retry, n);
      ScalingGrows(retry.multiplier, retry.maxDelayMs);
      StaysAtCap(Scaling(retry.multiplier), retry.maxDelayMs, n - 1);
      OneMoreTimes((n - 1) as real, retry.maxDelayMs);
    }
  }

  lemma {:induction false} StaysAtCap(scale: real -> real, max: real, k: nat)
    requires max <= scale(max)
    ensures ScaledAndCapped(scale, max, max, k) == max
  {
    if k == 0 {
    } else {
      StaysAtCap(scale, max, k - 1);
    }
  }

  // ---------------------------------------------------------------------------
  // The client
  // ---------------------------------------------------------------------------

  /** What one attempt to deliver a message comes to. */
  datatype Reply = Delivered | Refused | Unanswered

  datatype SendResult = Acknowledged | Rejected | DeliveryFailed

  /** The number of attempts that go unanswered before the first that is answered, within `n`. */
  function Unheard(replies: nat -> Reply, n: nat): (k: nat)
    ensures k <= n
    ensures k < n ==> !replies(k).Unanswered?
    ensures forall j: nat :: j < k ==> replies(j).Unanswered?
  {
    if n == 0 then 0
    else
      var k := Unheard(replies, n - 1);
      if k < n - 1 || !replies(k).Unanswered? then k else n
  }

  class P2PClient {
    /** Endpoints known so far, by agent. */
    var cache: map<string, string>

    constructor ()
      ensures cache == map[]
    {
      cache := map[];
    }

    /**
     Sends a message, trying again while there is no answer. It stops at the first answer; the k-th
     retry is preceded by the k-th delay; and only when every attempt went unanswered is the target's
     endpoint forgotten.
     */
    method SendWithRetry(target: string, replies: nat -> Reply, retry: RetryConfig)
      returns (result: SendResult, sleeps: seq<real>)
      modifies this
      ensures var attempts := if retry.maxRetries < 0 then 0 else retry.maxRetries + 1;
        var k := Unheard(replies, attempts);
        && result == (if k == attempts then DeliveryFailed else if replies(k).Delivered? then Acknowledged else Rejected)
        && sleeps == Delays(retry, if k == attempts && k > 0 then k - 1 else k)
        && cache == (if k == attempts then old(cache) - {target} else old(cache))
    {
      ghost var attempts := if retry.maxRetries < 0 then 0 else retry.maxRetries + 1;
      var delay := retry.initialDelayMs;
      sleeps := [];
      var attempt := 0;
      while attempt <= retry.maxRetries
        invariant 0 <= attempt <= attempts
        invariant forall j: nat :: j < attempt ==> replies(j).Unanswered?
        invariant sleeps == Delays(retry, if attempt == 0 then 0 else attempt - 1)
        invariant delay == RunningDelay(retry, |sleeps|)
        invariant cache == old(cache)
      {
        if attempt > 0 {
          sleeps := sleeps + [delay];
          delay := Min(delay * retry.multiplier, retry.maxDelayMs);
          assert sleeps == Delays(retry, attempt);
        }
        var reply := replies(attempt);
        if !reply.Unanswered? {
          assert Unheard(replies, attempts) == attempt;
          return if reply.Delivered? then Acknowledged else Rejected, sleeps;
        }
        attempt := attempt + 1;
      }
      cache := cache - {target};
      return DeliveryFailed, sleeps;
    }
  }
}
