/** What one call of the retrying revoker does, and how long it can sleep. */
module Backoff {
  import opened Clock
  import opened Tokens
  import opened Retry

  /** The caller's context is never cancelled while `id` is being revoked. */
  ghost predicate Undisturbed(net: Net, id: string) {
    forall k: nat :: net.doneBefore(id, k).None? && net.doneAfter(id, k).None?
  }

  /** The attempts from `n` on: failures, then either a success or the last attempt allowed; one
      audit entry per failure and one sleep between consecutive attempts. */
  ghost predicate Faithful(p: Policy, net: Net, id: string, n: nat, tr: Trace)
    requires 1 <= n <= p.maxAttempts
  {
    && 1 <= tr.calls <= p.maxAttempts - n + 1
    && var last := n + tr.calls - 1;
    && (forall k :: n <= k < last ==> net.outcome(id, k).Some?)
    && tr.error == net.outcome(id, last)
    && (tr.error.Some? ==> last == p.maxAttempts)
    && |tr.sleeps| == tr.calls - 1
    && (forall i :: 0 <= i < |tr.sleeps| ==> tr.sleeps[i] == Delay(p, net, id, n + i))
    && |tr.audits| == (if !p.logged then 0 else if tr.error.None? then tr.calls - 1 else tr.calls)
    && (forall i :: 0 <= i < |tr.audits| ==>
          net.outcome(id, n + i).Some? && tr.audits[i] == (n + i, net.outcome(id, n + i).value))
  }

  lemma {:induction false} TraceFrom(p: Policy, net: Net, id: string, n: nat)
    requires 1 <= n <= p.maxAttempts && Undisturbed(net, id)
    ensures Faithful(p, net, id, n, From(p, net, id, n))
    decreases p.maxAttempts - n
  {
    assert net.doneBefore(id, n).None? && net.doneAfter(id, n).None?;
    if net.outcome(id, n).Some? && n < p.maxAttempts {
      TraceFrom(p, net, id, n + 1);
      OneMoreFailure(p, net, id, n, From(p, net, id, n + 1));
    }
  }

  lemma OneMoreFailure(p: Policy, net: Net, id: string, n: nat, rest: Trace)
    requires 1 <= n < p.maxAttempts && net.outcome(id, n).Some?
    requires Faithful(p, net, id, n + 1, rest)
    ensures Faithful(p, net, id, n,
                     Then(Trace(1, Audit(p, n, net.outcome(id, n).value), [Delay(p, net, id, n)], None), rest))
  {
  }

  /**
   The retry contract, for every sequence of provider answers. Unless the caller cancels, a call
   succeeds exactly when one of the first `maxAttempts` attempts does, stops right there, audits
   each failure once and in order, sleeps once between consecutive attempts, and otherwise makes
   exactly `maxAttempts` calls and returns the last error.
   */
  lemma RetryContract(p: Policy, net: Net, id: string)
    requires Undisturbed(net, id)
    ensures var q, tr := WithDefaults(p), Revocation(p, net, id);
            && Faithful(q, net, id, 1, tr)
            && (tr.error.None? <==> exists k :: 1 <= k <= q.maxAttempts && net.outcome(id, k).None?)
            && (tr.error.Some? ==> tr.calls == q.maxAttempts && tr.error == net.outcome(id, q.maxAttempts))
  {
    var q, tr := WithDefaults(p), Revocation(p, net, id);
    TraceFrom(q, net, id, 1);
    if tr.error.None? {
      assert net.outcome(id, tr.calls).None?;
    } else {
      forall k | 1 <= k <= q.maxAttempts ensures net.outcome(id, k).Some? {
        assert k < tr.calls || k == tr.calls;
      }
    }
  }

  /** What holds of the attempts from `n` on even when the caller cancels: no more calls than are
      allowed, a sleep only between attempts, and success only from the last call made. */
  ghost predicate Bounded(p: Policy, net: Net, id: string, n: nat, tr: Trace)
    requires 1 <= n <= p.maxAttempts
  {
    && tr.calls <= p.maxAttempts - n + 1
    && |tr.sleeps| <= p.maxAttempts - n && |tr.sleeps| <= tr.calls
    && (tr.error.None? <==> tr.calls > |tr.sleeps| && net.outcome(id, n + tr.calls - 1).None?)
    && (forall i :: 0 <= i < |tr.sleeps| ==> tr.sleeps[i] == Delay(p, net, id, n + i))
  }

  lemma BoundedAfterFailure(p: Policy, net: Net, id: string, n: nat, first: Trace, rest: Trace)
    requires 1 <= n < p.maxAttempts && Bounded(p, net, id, n + 1, rest)
    requires first.calls == 1 && first.sleeps == [Delay(p, net, id, n)]
    requires net.outcome(id, n).Some?
    ensures Bounded(p, net, id, n, Then(first, rest))
  {
  }

  lemma {:induction false} CallsAreBounded(p: Policy, net: Net, id: string, n: nat)
    requires 1 <= n <= p.maxAttempts
    ensures Bounded(p, net, id, n, From(p, net, id, n))
    decreases p.maxAttempts - n
  {
    if net.doneBefore(id, n).None? && net.outcome(id, n).Some? && n < p.maxAttempts
       && net.doneAfter(id, n).None? {
      CallsAreBounded(p, net, id, n + 1);
      BoundedAfterFailure(p, net, id, n,
        Trace(1, Audit(p, n, net.outcome(id, n).value), [Delay(p, net, id, n)], None), From(p, net, id, n + 1));
    }
  }

  /**
   A whole call, whenever the caller cancels: what was tried, and how it ended. Every attempt but the
   last failed and was followed by a sleep that was not cancelled. It ended in success; or with the last
   attempt allowed, and its error; or by a cancellation before a sleep; or by one before an attempt; and
   then with the caller's error. Each failure was audited once, in order.
   */
  ghost predicate Ended(p: Policy, net: Net, id: string, n: nat, tr: Trace)
    requires 1 <= n <= p.maxAttempts
  {
    && tr.calls <= p.maxAttempts - n + 1
    && var last := n + tr.calls - 1;
    && (forall k :: n <= k <= last ==> net.doneBefore(id, k).None?)
    && (forall k :: n <= k < last ==> net.outcome(id, k).Some? && net.doneAfter(id, k).None?)
    && (|| (tr.calls > 0 && net.outcome(id, last).None? && tr.error == None && |tr.sleeps| == tr.calls - 1)
        || (last == p.maxAttempts && net.outcome(id, last).Some? && tr.error == net.outcome(id, last)
            && |tr.sleeps| == tr.calls - 1)
        || (tr.calls > 0 && last < p.maxAttempts && net.outcome(id, last).Some? && net.doneAfter(id, last).Some?
            && tr.error == net.doneAfter(id, last) && |tr.sleeps| == tr.calls - 1)
        || (last < p.maxAttempts && net.doneBefore(id, last + 1).Some? && tr.error == net.doneBefore(id, last + 1)
            && (tr.calls > 0 ==> net.outcome(id, last).Some? && net.doneAfter(id, last).None?)
            && |tr.sleeps| == tr.calls))
    && |tr.audits| == (if !p.logged then 0 else if tr.error.None? then tr.calls - 1 else tr.calls)
    && (forall i :: 0 <= i < |tr.audits| ==>
          net.outcome(id, n + i).Some? && tr.audits[i] == (n + i, net.outcome(id, n + i).value))
  }

  lemma EndedAfterFailure(p: Policy, net: Net, id: string, n: nat, rest: Trace)
    requires 1 <= n < p.maxAttempts && net.doneBefore(id, n).None? && net.doneAfter(id, n).None?
    requires net.outcome(id, n).Some? && Ended(p, net, id, n + 1, rest)
    ensures Ended(p, net, id, n,
                  Then(Trace(1, Audit(p, n, net.outcome(id, n).value), [Delay(p, net, id, n)], None), rest))
  {
    hide Delay;
  }

  /** Under any cancellation each attempt ends the call or goes on to the next as `Ended` says. */
  lemma {:induction false} EndsAsItMust(p: Policy, net: Net, id: string, n: nat)
    requires 1 <= n <= p.maxAttempts
    ensures Ended(p, net, id, n, From(p, net, id, n))
    decreases p.maxAttempts - n
  {
    hide Delay;
    if net.doneBefore(id, n).None? && net.outcome(id, n).Some? && n < p.maxAttempts && net.doneAfter(id, n).None? {
      EndsAsItMust(p, net, id, n + 1);
      EndedAfterFailure(p, net, id, n, From(p, net, id, n + 1));
    }
  }

  // ---------- Sleep ----------

  /** The capped delay after failure number `i + 1`, in exact arithmetic. */
  function CappedDelay(p: Policy, i: nat): int {
    if p.baseDelay * Pow2(i) <= p.maxDelay then p.baseDelay * Pow2(i) else p.maxDelay
  }

  /** The documented range of the settings: positive 64-bit delays and a jitter fraction. */
  predicate Documented(p: Policy) {
    0 < p.baseDelay <= MAX_INT64 && 0 < p.maxDelay <= MAX_INT64 && p.maxJitter <= 1.0
  }

  /** The uncapped delay after the first `k` failures still fits a 64-bit duration. */
  predicate Fits(p: Policy, k: nat) {
    k > 0 ==> p.baseDelay * Pow2(k - 1) <= MAX_INT64
  }

  lemma {:induction false} Pow2Grows(i: nat, j: nat)
    requires i <= j
    ensures Pow2(i) <= Pow2(j)
    decreases j - i
  {
    if i < j {
      Pow2Grows(i, j - 1);
    }
  }

  lemma ScaleOrder(b: int, x: int, y: int)
    requires 0 <= b && x <= y
    ensures b * x <= b * y
  {
  }

  lemma FitsBelow(p: Policy, i: nat, k: nat)
    requires Documented(p) && Fits(p, k) && i < k
    ensures 0 < p.baseDelay * Pow2(i) <= MAX_INT64
  {
    Pow2Grows(i, k - 1);
    ScaleOrder(p.baseDelay, Pow2(i), Pow2(k - 1));
    ScaleOrder(p.baseDelay, 1, Pow2(i));
  }

  lemma BackoffIsCapped(p: Policy, attempt: nat, unfit: int)
    requires attempt >= 1 && 0 < p.baseDelay * Pow2(attempt - 1) <= MAX_INT64
    ensures Retry.Backoff(p, attempt, unfit) == CappedDelay(p, attempt - 1)
  {
  }

  lemma TruncatedIsFloor(x: real, unfit: int)
    requires 0.0 <= x <= MAX_INT64 as real
    ensures Truncated(x, unfit) == x.Floor
  {
  }

  lemma ShiftInFields(d: Duration, off: real, on: real, unfit: int)
    requires 0 <= d <= MAX_INT64 && 0.0 <= off <= d as real && 0.0 <= on <= d as real
    ensures Shifted(d, off, on, unfit) == Wrap64(d - off.Floor + on.Floor)
  {
    hide Truncated, Wrap64;
    TruncatedIsFloor(off, unfit);
    TruncatedIsFloor(on, unfit);
    assert 0 <= d - off.Floor <= MAX_INT64;
  }

  lemma ShareWithin(x: real, f: real, share: real)
    requires 0.0 <= x && 0.0 <= f <= 1.0 && share == x * f
    ensures share == Times(x, f) && 0.0 <= share <= x
  {
  }

  /** A jittered delay from the range `j` and the drawn share of it: the delay less half the range, plus
      the share, each rounded down to a nanosecond. */
  lemma JitterInFields(p: Policy, d: Duration, f: Fraction, unfit: int, j: real, share: real)
    requires 0 <= d <= MAX_INT64 && 0.0 < p.maxJitter <= 1.0
    requires j == d as real * p.maxJitter && share == j * f
    ensures Jittered(p, d, f, unfit) == Wrap64(d - (j / 2.0).Floor + share.Floor)
    ensures 2 * d <= MAX_INT64 ==> Jittered(p, d, f, unfit) == d - (j / 2.0).Floor + share.Floor
  {
    hide Shifted, Times;
    ShareWithin(d as real, p.maxJitter, j);
    ShareWithin(j, f, share);
    ShiftInFields(d, j / 2.0, share, unfit);
  }

  lemma DelayIsJittered(p: Policy, net: Net, id: string, i: nat)
    requires Documented(p) && p.baseDelay * Pow2(i) <= MAX_INT64
    ensures 0 < CappedDelay(p, i) <= p.maxDelay
    ensures Delay(p, net, id, i + 1)
            == Jittered(p, CappedDelay(p, i), net.fraction(id, i + 1), net.unfit(id, i + 1))
  {
    hide Jittered, Retry.Backoff;
    ScaleOrder(p.baseDelay, 1, Pow2(i));
    BackoffIsCapped(p, i + 1, net.unfit(id, i + 1));
  }

  lemma SleepsAreDelays(p: Policy, net: Net, id: string)
    ensures var q, sleeps := WithDefaults(p), Revocation(p, net, id).sleeps;
            |sleeps| <= q.maxAttempts - 1
            && forall i :: 0 <= i < |sleeps| ==> sleeps[i] == Delay(q, net, id, i + 1)
  {
    hide Delay;
    CallsAreBounded(WithDefaults(p), net, id, 1);
  }

  /**
   Every sleep of a call, in the settings: where the delays fit, sleep number `i` is the capped delay `d`
   less half the jitter range `j`, plus the share of the range that was drawn. So two draws whose
   difference is a nanosecond or more of `j` give different sleeps.
   */
  lemma SleepsInSettings(p: Policy, net: Net, id: string, i: nat, d: Duration, j: real, share: real)
    requires var q := WithDefaults(p);
             Documented(q) && Fits(q, q.maxAttempts - 1) && 0.0 < q.maxJitter && 2 * q.maxDelay <= MAX_INT64
    requires i < |Revocation(p, net, id).sleeps|
    requires var q := WithDefaults(p);
             d == if q.baseDelay * Pow2(i) <= q.maxDelay then q.baseDelay * Pow2(i) else q.maxDelay
    requires j == d as real * WithDefaults(p).maxJitter && share == j * net.fraction(id, i + 1)
    ensures Revocation(p, net, id).sleeps[i] == d - (j / 2.0).Floor + share.Floor
  {
    hide Delay, Revocation, Wrap64, WithDefaults, Pow2, Jittered;
    var q := WithDefaults(p);
    SleepsAreDelays(p, net, id);
    FitsBelow(q, i, q.maxAttempts - 1);
    DelayIsJittered(q, net, id, i);
    JitterInFields(q, d, net.fraction(id, i + 1), net.unfit(id, i + 1), j, share);
  }

  /** Beyond that a share can carry the delay round once. */
  lemma SleepInSettings(p: Policy, net: Net, id: string, i: nat, d: Duration, j: real, share: real)
    requires Documented(p) && p.baseDelay * Pow2(i) <= MAX_INT64 && 0.0 < p.maxJitter
    requires d == if p.baseDelay * Pow2(i) <= p.maxDelay then p.baseDelay * Pow2(i) else p.maxDelay
    requires j == d as real * p.maxJitter && share == j * net.fraction(id, i + 1)
    ensures Delay(p, net, id, i + 1) == Wrap64(d - (j / 2.0).Floor + share.Floor)
  {
    hide Delay, Wrap64, Pow2, Jittered;
    DelayIsJittered(p, net, id, i);
    JitterInFields(p, d, net.fraction(id, i + 1), net.unfit(id, i + 1), j, share);
  }

  /** Without jitter it is the capped delay itself. */
  lemma SleepNoJitter(p: Policy, net: Net, id: string, i: nat)
    requires Documented(p) && p.baseDelay * Pow2(i) <= MAX_INT64 && p.maxJitter <= 0.0
    ensures var uncapped := p.baseDelay * Pow2(i);
            Delay(p, net, id, i + 1) == if uncapped <= p.maxDelay then uncapped else p.maxDelay
  {
    DelayIsJittered(p, net, id, i);
  }

  /** How much jitter can add to a total delay: half the jitter fraction of it. */
  function HalfJitter(p: Policy, total: real): (r: real) {
    if p.maxJitter > 0.0 then Times(total, p.maxJitter) / 2.0 else 0.0
  }

  /** Jitter moves a delay by at most half the jitter fraction of it, up to a nanosecond on the high
      side; downwards as long as twice the delay fits 64 bits. */
  lemma JitterIsCentred(p: Policy, delay: Duration, f: Fraction, unfit: int)
    requires 0 <= delay <= MAX_INT64 && p.maxJitter <= 1.0
    ensures Jittered(p, delay, f, unfit) as real <= delay as real + HalfJitter(p, delay as real) + 1.0
    ensures 2 * delay <= MAX_INT64 ==>
              Jittered(p, delay, f, unfit) as real >= delay as real - HalfJitter(p, delay as real)
  {
  }

  /** Time spent asleep; a negative delay does not sleep. */
  function Slept(sleeps: seq<Duration>): nat {
    if sleeps == [] then 0
    else
      var last := sleeps[|sleeps| - 1];
      Slept(sleeps[..|sleeps| - 1]) + if last > 0 then last else 0
  }

  /** Sleeps add up, and a negative one counts for nothing. */
  lemma SleptAddsUp(sleeps: seq<Duration>, d: Duration)
    ensures Slept([]) == 0
    ensures Slept(sleeps + [d]) == Slept(sleeps) + if d > 0 then d else 0
  {
  }

  function CappedSum(p: Policy, k: nat): int {
    if k == 0 then 0 else CappedSum(p, k - 1) + CappedDelay(p, k - 1)
  }

  lemma HalfJitterAdds(p: Policy, x: real, y: real)
    ensures HalfJitter(p, x + y) == HalfJitter(p, x) + HalfJitter(p, y)
  {
  }

  lemma HalfJitterGrows(p: Policy, x: real, y: real)
    requires x <= y && p.maxJitter <= 1.0
    ensures HalfJitter(p, x) <= HalfJitter(p, y)
  {
    HalfJitterAdds(p, x, y - x);
    assert p.maxJitter > 0.0 ==> Times(y - x, p.maxJitter) >= 0.0;
  }

  /** A sleep no longer than the capped delay number `i`, with its jitter. */
  predicate WithinOne(p: Policy, i: nat, d: Duration) {
    (if d > 0 then d else 0) as real <= CappedDelay(p, i) as real + HalfJitter(p, CappedDelay(p, i) as real) + 1.0
  }

  /** Either no uncapped delay up to the k-th overflows, or there is no jitter to amplify one. */
  predicate Tame(p: Policy, k: nat) {
    Fits(p, k) || p.maxJitter <= 0.0
  }

  lemma CappedDelayPositive(p: Policy, i: nat)
    requires 0 < p.baseDelay && 0 < p.maxDelay
    ensures 0 < CappedDelay(p, i) <= p.maxDelay
  {
  }

  /** Before jitter the cap holds whatever an overflowing conversion yields. */
  lemma BackoffNeverAboveCap(p: Policy, i: nat, unfit: int)
    requires Documented(p)
    ensures Retry.Backoff(p, i + 1, unfit) <= CappedDelay(p, i)
  {
  }

  lemma OneDelay(p: Policy, net: Net, id: string, i: nat)
    requires Documented(p) && Tame(p, i + 1)
    ensures WithinOne(p, i, Delay(p, net, id, i + 1))
  {
    var unfit := net.unfit(id, i + 1);
    CappedDelayPositive(p, i);
    if p.maxJitter <= 0.0 {
      BackoffNeverAboveCap(p, i, unfit);
    } else {
      FitsBelow(p, i, i + 1);
      BackoffIsCapped(p, i + 1, unfit);
      JitterIsCentred(p, CappedDelay(p, i), net.fraction(id, i + 1), unfit);
      assert HalfJitter(p, CappedDelay(p, i) as real) >= 0.0;
    }
  }

  lemma OneMoreSleep(p: Policy, slept: int, sum: int, n: int, d: int, c: int)
    requires slept as real <= sum as real + HalfJitter(p, sum as real) + n as real
    requires d as real <= c as real + HalfJitter(p, c as real) + 1.0
    ensures (slept + d) as real <= (sum + c) as real + HalfJitter(p, (sum + c) as real) + (n + 1) as real
  {
  }

  lemma {:induction false} SleepsAddUp(p: Policy, sleeps: seq<Duration>)
    requires forall i :: 0 <= i < |sleeps| ==> WithinOne(p, i, sleeps[i])
    ensures Slept(sleeps) as real
            <= CappedSum(p, |sleeps|) as real + HalfJitter(p, CappedSum(p, |sleeps|) as real) + |sleeps| as real
    decreases |sleeps|
  {
    if sleeps == [] {
      assert HalfJitter(p, 0.0) == 0.0;
    } else {
      var k := |sleeps| - 1;
      SleepsAddUp(p, sleeps[..k]);
      assert WithinOne(p, k, sleeps[k]);
      var slept := if sleeps[k] > 0 then sleeps[k] else 0;
      OneMoreSleep(p, Slept(sleeps[..k]), CappedSum(p, k), k, slept, CappedDelay(p, k));
    }
  }

  /** The sleeps after the first `|sleeps|` failures, against the exact capped sum. */
  lemma SleepsAreCapped(p: Policy, net: Net, id: string, sleeps: seq<Duration>)
    requires Documented(p) && Tame(p, |sleeps|)
    requires forall i :: 0 <= i < |sleeps| ==> sleeps[i] == Delay(p, net, id, 1 + i)
    ensures Slept(sleeps) as real
            <= CappedSum(p, |sleeps|) as real + HalfJitter(p, CappedSum(p, |sleeps|) as real) + |sleeps| as real
  {
    forall i | 0 <= i < |sleeps| ensures WithinOne(p, i, sleeps[i]) {
      TameSooner(p, i + 1, |sleeps|);
      OneDelay(p, net, id, i);
    }
    SleepsAddUp(p, sleeps);
  }

  lemma TameSooner(p: Policy, j: nat, k: nat)
    requires Documented(p) && Tame(p, k) && j <= k
    ensures Tame(p, j)
  {
    if Fits(p, k) && j > 0 {
      FitsBelow(p, j - 1, k);
    }
  }

  lemma OneMoreTerm(x: int, k: int)
    ensures k * x == (k - 1) * x + x
  {
  }

  lemma Doubled(x: int, power: int)
    ensures x * (2 * power - 1) == x * (power - 1) + x * power
  {
  }

  /** The exact capped sum is within both the linear and the geometric form. */
  lemma {:induction false} CappedSumForms(p: Policy, k: nat)
    requires 0 < p.baseDelay && 0 < p.maxDelay
    ensures 0 <= CappedSum(p, k) <= k * p.maxDelay
    ensures CappedSum(p, k) <= p.baseDelay * (Pow2(k) - 1)
  {
    if k > 0 {
      CappedSumForms(p, k - 1);
      ScaleOrder(p.baseDelay, 1, Pow2(k - 1));
      OneMoreTerm(p.maxDelay, k);
      Doubled(p.baseDelay, Pow2(k - 1));
    }
  }

  lemma {:induction false} CappedSumGrows(p: Policy, j: nat, k: nat)
    requires j <= k && 0 < p.baseDelay && 0 < p.maxDelay
    ensures CappedSum(p, j) <= CappedSum(p, k)
    decreases k - j
  {
    if j < k {
      CappedSumGrows(p, j, k - 1);
      ScaleOrder(p.baseDelay, 1, Pow2(k - 1));
    }
  }

  /** The most one call can sleep, in nanoseconds. */
  function Budget(p: Policy): real
    requires p.maxAttempts > 0
  {
    var k := p.maxAttempts - 1;
    CappedSum(p, k) as real + HalfJitter(p, CappedSum(p, k) as real) + k as real
  }

  /**
   Backoff bound, for any attempt limit whose uncapped delays fit a 64-bit duration, or any limit at
   all without jitter; for any answers, jitter drawn and cancellation. One call sleeps no longer than
   the sum of the capped delays min(base * 2^i, maxDelay), scaled by one plus half the jitter
   fraction, up to a nanosecond for each sleep.
   */
  lemma OneCallSleepsWithinBudget(p: Policy, net: Net, id: string)
    requires var q := WithDefaults(p); Documented(q) && Tame(q, q.maxAttempts - 1)
    ensures Slept(Revocation(p, net, id).sleeps) as real <= Budget(WithDefaults(p))
  {
    var q, tr := WithDefaults(p), Revocation(p, net, id);
    CallsAreBounded(q, net, id, 1);
    var j, k := |tr.sleeps|, q.maxAttempts - 1;
    TameSooner(q, j, k);
    SleepsAreCapped(q, net, id, tr.sleeps);
    CappedSumGrows(q, j, k);
    HalfJitterGrows(q, CappedSum(q, j) as real, CappedSum(q, k) as real);
  }

  // ---------- The least sleep of a call that gives up ----------

  lemma {:induction false} SleepsAddUpBelow(p: Policy, sleeps: seq<Duration>)
    requires forall i :: 0 <= i < |sleeps| ==>
               sleeps[i] as real >= CappedDelay(p, i) as real - HalfJitter(p, CappedDelay(p, i) as real)
    ensures Slept(sleeps) as real >= CappedSum(p, |sleeps|) as real - HalfJitter(p, CappedSum(p, |sleeps|) as real)
    decreases |sleeps|
  {
    if sleeps != [] {
      var k := |sleeps| - 1;
      SleepsAddUpBelow(p, sleeps[..k]);
      HalfJitterAdds(p, CappedSum(p, k) as real, CappedDelay(p, k) as real);
      assert CappedSum(p, k + 1) as real == CappedSum(p, k) as real + CappedDelay(p, k) as real;
    } else {
      assert HalfJitter(p, 0.0) == 0.0;
    }
  }

  lemma OneDelayBelow(p: Policy, net: Net, id: string, i: nat)
    requires Documented(p) && Fits(p, i + 1) && 2 * p.maxDelay <= MAX_INT64
    ensures Delay(p, net, id, i + 1) as real >= CappedDelay(p, i) as real - HalfJitter(p, CappedDelay(p, i) as real)
  {
    CappedDelayPositive(p, i);
    FitsBelow(p, i, i + 1);
    BackoffIsCapped(p, i + 1, net.unfit(id, i + 1));
    JitterIsCentred(p, CappedDelay(p, i), net.fraction(id, i + 1), net.unfit(id, i + 1));
  }

  /**
   Backing off is real: a call that gives up after all its attempts has slept at least the capped
   sum scaled by one minus half the jitter fraction.
   */
  lemma GivingUpSleepsAtLeast(p: Policy, net: Net, id: string)
    requires Undisturbed(net, id)
    requires var q := WithDefaults(p);
             Documented(q) && Fits(q, q.maxAttempts - 1) && 2 * q.maxDelay <= MAX_INT64
    requires Revocation(p, net, id).error.Some?
    ensures var q := WithDefaults(p); var sum := CappedSum(q, q.maxAttempts - 1) as real;
            Slept(Revocation(p, net, id).sleeps) as real >= sum - HalfJitter(q, sum)
  {
    var q, tr := WithDefaults(p), Revocation(p, net, id);
    TraceFrom(q, net, id, 1);
    forall i | 0 <= i < |tr.sleeps|
      ensures tr.sleeps[i] as real >= CappedDelay(q, i) as real - HalfJitter(q, CappedDelay(q, i) as real)
    {
      FitsBelow(q, i, q.maxAttempts - 1);
      OneDelayBelow(q, net, id, i);
    }
    SleepsAddUpBelow(q, tr.sleeps);
  }

  /** Time asleep while the given sessions are revoked one after the other. */
  function SleptOver(p: Policy, net: Net, ids: seq<string>): nat {
    if ids == [] then 0
    else SleptOver(p, net, ids[..|ids| - 1]) + Slept(Revocation(p, net, ids[|ids| - 1]).sleeps)
  }

  lemma SleptNone(p: Policy, net: Net)
    ensures SleptOver(p, net, []) == 0
  {
  }

  /** Filling in the missing settings changes no later call. */
  lemma SleptOneMore(p: Policy, filled: Policy, net: Net, ids: seq<string>, id: string)
    requires WithDefaults(filled) == WithDefaults(p)
    ensures SleptOver(p, net, ids + [id]) == SleptOver(p, net, ids) + Slept(Revocation(filled, net, id).sleeps)
  {
  }

  lemma OneMoreBudget(slept: int, more: int, n: int, budget: real)
    requires slept as real <= Times(n as real, budget) && more as real <= budget
    ensures (slept + more) as real <= Times((n + 1) as real, budget)
  {
  }

  lemma {:induction false} SleepsWithin(p: Policy, net: Net, ids: seq<string>, budget: real)
    requires forall i :: 0 <= i < |ids| ==> Slept(Revocation(p, net, ids[i]).sleeps) as real <= budget
    ensures SleptOver(p, net, ids) as real <= Times(|ids| as real, budget)
    decreases |ids|
  {
    if ids != [] {
      var n := |ids| - 1;
      SleepsWithin(p, net, ids[..n], budget);
      OneMoreBudget(SleptOver(p, net, ids[..n]), Slept(Revocation(p, net, ids[n]).sleeps), n, budget);
    }
  }

  /** A tick that hands over n sessions sleeps at most n budgets. */
  lemma TickSleepsWithinBudgets(p: Policy, net: Net, ids: seq<string>)
    requires var q := WithDefaults(p); Documented(q) && Tame(q, q.maxAttempts - 1)
    ensures SleptOver(p, net, ids) as real <= Times(|ids| as real, Budget(WithDefaults(p)))
  {
    forall i | 0 <= i < |ids| ensures Slept(Revocation(p, net, ids[i]).sleeps) as real <= Budget(WithDefaults(p)) {
      OneCallSleepsWithinBudget(p, net, ids[i]);
    }
    SleepsWithin(p, net, ids, Budget(WithDefaults(p)));
  }

  /** The production settings: at most 15.75 seconds and 4 nanoseconds asleep in one call. */
  lemma ProductionBudget(net: Net, id: string, logged: bool)
    ensures Slept(Revocation(Policy(1 * SECOND, 30 * SECOND, 5, 0.1, logged), net, id).sleeps) <= 15_750_000_004
  {
    var p := Policy(1 * SECOND, 30 * SECOND, 5, 0.1, logged);
    assert Pow2(0) == 1 && Pow2(1) == 2 && Pow2(2) == 4 && Pow2(3) == 8;
    assert CappedSum(p, 1) == SECOND;
    assert CappedSum(p, 2) == 3 * SECOND;
    assert CappedSum(p, 3) == 7 * SECOND;
    assert CappedSum(p, 4) == 15 * SECOND;
    OneCallSleepsWithinBudget(p, net, id);
  }

  /** The production settings, when every attempt fails: four sleeps of about 1, 2, 4 and 8 seconds, each
      between 5 percent less and, by the draw, 5 percent more. */
  lemma ProductionSleeps(net: Net, id: string, logged: bool)
    requires Undisturbed(net, id) && forall k :: net.outcome(id, k).Some?
    ensures Revocation(Policy(1_000_000_000, 30_000_000_000, 5, 0.1, logged), net, id).sleeps
            == [950_000_000 + (100_000_000.0 * net.fraction(id, 1)).Floor,
                1_900_000_000 + (200_000_000.0 * net.fraction(id, 2)).Floor,
                3_800_000_000 + (400_000_000.0 * net.fraction(id, 3)).Floor,
                7_600_000_000 + (800_000_000.0 * net.fraction(id, 4)).Floor]
  {
    var p := Policy(1_000_000_000, 30_000_000_000, 5, 0.1, logged);
    hide Delay, Revocation, Slept;
    assert Pow2(0) == 1 && Pow2(1) == 2 && Pow2(2) == 4 && Pow2(3) == 8;
    RetryContract(p, net, id);
    SleepsInSettings(p, net, id, 0, 1_000_000_000, 100_000_000.0, 100_000_000.0 * net.fraction(id, 1));
    SleepsInSettings(p, net, id, 1, 2_000_000_000, 200_000_000.0, 200_000_000.0 * net.fraction(id, 2));
    SleepsInSettings(p, net, id, 2, 4_000_000_000, 400_000_000.0, 400_000_000.0 * net.fraction(id, 3));
    SleepsInSettings(p, net, id, 3, 8_000_000_000, 800_000_000.0, 800_000_000.0 * net.fraction(id, 4));
  }

  // ---------- When the budget does not hold ----------

  lemma {:induction false} SleptAtLeastOne(sleeps: seq<Duration>, i: nat)
    requires i < |sleeps|
    ensures sleeps[i] <= Slept(sleeps)
  {
    if i < |sleeps| - 1 {
      SleptAtLeastOne(sleeps[..|sleeps| - 1], i);
    }
  }

  /** Jitter that the least 64-bit integer can feel. */
  predicate Jitters(p: Policy) {
    p.maxJitter <= 1.0 && 0x2000_0000_0000_0000 as real * p.maxJitter >= 1.0
  }

  /** A provider that always fails, with jitter near its upper end, on a machine whose conversion of a
      number that does not fit yields the least integer. */
  const UNLUCKY := Net(
    (_, _) => Some("down"), (_, _) => None, (_, _) => None, (_, _) => 0.9, (_, _) => MIN_INT64)

  /** Jitter carries the least integer round to more than 146 years. */
  lemma LeastWrapsRound(p: Policy)
    requires Jitters(p)
    ensures Jittered(p, MIN_INT64, 0.9, MIN_INT64) > 0x4000_0000_0000_0000
  {
    var j := 0x8000_0000_0000_0000 as real * p.maxJitter;
    var off, on := (j / 2.0).Floor, (j * 0.9).Floor;
    assert 4.0 <= j <= 0x8000_0000_0000_0000 as real;
    assert Times(MIN_INT64 as real, p.maxJitter) == -j;
    assert Times(-j, 0.9) == -(j * 0.9);
    assert Truncated(-j / 2.0, MIN_INT64) == -off;
    assert Truncated(-(j * 0.9), MIN_INT64) == -on;
    assert off < on && (on - off) as real <= 0.4 * j + 1.0;
  }

  lemma UnluckyDelay(p: Policy, id: string, k: nat)
    requires Documented(p) && Jitters(p) && k > 0 && p.baseDelay * Pow2(k - 1) > MAX_INT64
    ensures Delay(p, UNLUCKY, id, k) > 0x4000_0000_0000_0000
  {
    assert Retry.Backoff(p, k, MIN_INT64) == MIN_INT64;
    LeastWrapsRound(p);
  }

  /** Where the last uncapped delay does not fit, an unlucky call sleeps more than 146 years. */
  lemma UnluckyCall(p: Policy, id: string)
    requires var q := WithDefaults(p); Documented(q) && Jitters(q) && !Fits(q, q.maxAttempts - 1)
    ensures Slept(Revocation(p, UNLUCKY, id).sleeps) > 0x4000_0000_0000_0000
  {
    var q, tr := WithDefaults(p), Revocation(p, UNLUCKY, id);
    var k := q.maxAttempts - 1;
    RetryContract(p, UNLUCKY, id);
    assert tr.error.Some? && tr.calls == q.maxAttempts;
    UnluckyDelay(q, id, k);
    SleptAtLeastOne(tr.sleeps, k - 1);
  }

  /**
   The exact range of the budget, for settings with jitter and a budget under 146 years: a call keeps
   to it whatever the provider, the jitter and the machine's conversions do, exactly when the last
   uncapped delay fits a 64-bit duration.
   */
  lemma BudgetHoldsIff(p: Policy, id: string)
    requires var q := WithDefaults(p);
             Documented(q) && Jitters(q) && Budget(q) <= 0x4000_0000_0000_0000 as real
    ensures var q := WithDefaults(p);
            (forall net :: Slept(Revocation(p, net, id).sleeps) as real <= Budget(q))
            <==> Fits(q, q.maxAttempts - 1)
  {
    hide Budget, Slept, Revocation;
    var q := WithDefaults(p);
    if Fits(q, q.maxAttempts - 1) {
      forall net ensures Slept(Revocation(p, net, id).sleeps) as real <= Budget(q) {
        OneCallSleepsWithinBudget(p, net, id);
      }
    } else {
      UnluckyCall(p, id);
      assert !(Slept(Revocation(p, UNLUCKY, id).sleeps) as real <= Budget(q));
    }
  }

  /** Powers of two that a 40-attempt policy reaches. */
  lemma LargePowers()
    ensures Pow2(34) == 16 * 1024 * 1024 * 1024 && Pow2(38) == 256 * 1024 * 1024 * 1024
  {
    assert Pow2(10) == 1024 by {
      assert Pow2(5) == 32;
    }
    assert Pow2(20) == 1024 * 1024 by {
      assert Pow2(15) == 32 * 1024;
    }
    assert Pow2(30) == 1024 * 1024 * 1024 by {
      assert Pow2(25) == 32 * 1024 * 1024;
    }
    assert Pow2(34) == 16 * Pow2(30);
  }

  /** With 40 attempts of one second, at most 30: the budget is 21 minutes, the conversion of 2^34
      seconds does not fit, and a call can sleep for more than 146 years. */
  lemma OverflowEscapesTheCap(id: string)
    ensures var p := Policy(1 * SECOND, 30 * SECOND, 40, 0.1, false);
            && Documented(p) && !Tame(p, 35)
            && Retry.Backoff(p, 35, MIN_INT64) == MIN_INT64
            && Jittered(p, MIN_INT64, 0.9, MIN_INT64) > 8_000_000_000 * SECOND
            && Budget(p) <= (21 * MINUTE) as real
            && exists net :: Slept(Revocation(p, net, id).sleeps) > 0x4000_0000_0000_0000
  {
    var p := Policy(1 * SECOND, 30 * SECOND, 40, 0.1, false);
    LargePowers();
    assert Truncated((SECOND * Pow2(34)) as real, MIN_INT64) == Wrap64(MIN_INT64) == MIN_INT64;
    var range := MIN_INT64 as real * 0.1;
    assert Truncated(range / 2.0, MIN_INT64) == -461168601842738790;
    assert Truncated(range * 0.9, MIN_INT64) == -830103483316929822;
    CappedSumForms(p, 39);
    HalfJitterGrows(p, CappedSum(p, 39) as real, (39 * 30 * SECOND) as real);
    UnluckyCall(p, id);
  }
}
