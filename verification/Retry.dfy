/** The retrying revoker: a bounded attempt loop with capped exponential backoff and jitter. */
module Retry {
  import opened Clock
  import opened Tokens

  const DEFAULT_BASE := 1 * SECOND
  const DEFAULT_MAX := 30 * SECOND
  const DEFAULT_ATTEMPTS := 5

  /** The revoker's settings; `logged` tells whether an audit logger is wired. */
  datatype Policy = Policy(
    baseDelay: Duration, maxDelay: Duration, maxAttempts: int, maxJitter: real, logged: bool)

  /** The production settings. */
  const DEFAULT_POLICY := Policy(DEFAULT_BASE, DEFAULT_MAX, DEFAULT_ATTEMPTS, 0.1, true)

  /** What the clock-driven jitter source draws. */
  type Fraction = f: real | 0.0 <= f < 1.0

  /** What the outside answers while one session is being revoked, by session and attempt: the
      provider, the caller's context before an attempt and before a sleep, the jitter drawn,
      and what a float-to-integer conversion yields when the value does not fit. */
  datatype Net = Net(
    outcome: (string, nat) -> Option<string>,
    doneBefore: (string, nat) -> Option<string>,
    doneAfter: (string, nat) -> Option<string>,
    fraction: (string, nat) -> Fraction,
    unfit: (string, nat) -> int)

  /** The effects of one revocation: provider calls, audited failures, sleeps, and the error. */
  datatype Trace = Trace(calls: nat, audits: seq<(nat, string)>, sleeps: seq<Duration>, error: Option<string>)

  // ---------- Delays ----------

  function Pow2(n: nat): (r: int)
    ensures r >= 1
  {
    if n == 0 then 1 else 2 * Pow2(n - 1)
  }

  /** Conversion to an integer: truncation when the result fits in 64 bits. */
  function Truncated(x: real, unfit: int): (r: int)
    ensures 0.0 <= x <= MAX_INT64 as real ==> 0 <= r && r as real <= x < (r + 1) as real
    ensures MIN_INT64 as real <= x < 0.0 ==> r <= 0 && (r - 1) as real < x <= r as real
    ensures x >= (MAX_INT64 + 1) as real || x <= (MIN_INT64 - 1) as real ==> r == Wrap64(unfit)
  {
    var t := if x >= 0.0 then x.Floor else -((-x).Floor);
    if MIN_INT64 <= t <= MAX_INT64 then t else Wrap64(unfit)
  }

  /** The capped exponential delay after the failure of `attempt`, before jitter. */
  function Backoff(p: Policy, attempt: nat, unfit: int): Duration
    requires attempt >= 1
  {
    var delay := Truncated((p.baseDelay * Pow2(attempt - 1)) as real, unfit);
    if delay > p.maxDelay then p.maxDelay else delay
  }

  /** The product of two reals; a fraction of a non-negative value lies between 0 and it. */
  function Times(x: real, f: real): (r: real)
    ensures 0.0 <= x && 0.0 <= f <= 1.0 ==> 0.0 <= r <= x
  {
    x * f
  }

  /** Taking `off` from a delay and putting `on` to it, in 64-bit arithmetic. */
  function Shifted(delay: Duration, off: real, on: real, unfit: int): Duration {
    Wrap64(Wrap64(delay - Truncated(off, unfit)) + Truncated(on, unfit))
  }

  /** Moving a delay within a range centred on it. */
  function Spread(delay: Duration, jitterRange: real, fraction: Fraction, unfit: int): Duration {
    Shifted(delay, jitterRange / 2.0, Times(jitterRange, fraction), unfit)
  }

  /** Jitter is added after the cap. */
  function Jittered(p: Policy, delay: Duration, fraction: Fraction, unfit: int): Duration {
    if p.maxJitter > 0.0 then
      Spread(delay, Times(delay as real, p.maxJitter), fraction, unfit)
    else delay
  }

  function Delay(p: Policy, net: Net, id: string, attempt: nat): Duration
    requires attempt >= 1
  {
    Jittered(p, Backoff(p, attempt, net.unfit(id, attempt)), net.fraction(id, attempt), net.unfit(id, attempt))
  }

  // ---------- The attempt loop ----------

  function WithDefaults(p: Policy): (q: Policy)
    ensures q.maxAttempts > 0 && q.baseDelay > 0 && q.maxDelay > 0
    ensures p.maxAttempts > 0 && p.baseDelay > 0 && p.maxDelay > 0 ==> q == p
  {
    p.(maxAttempts := if p.maxAttempts <= 0 then DEFAULT_ATTEMPTS else p.maxAttempts,
       baseDelay := if p.baseDelay <= 0 then DEFAULT_BASE else p.baseDelay,
       maxDelay := if p.maxDelay <= 0 then DEFAULT_MAX else p.maxDelay)
  }

  function Audit(p: Policy, attempt: nat, error: string): seq<(nat, string)> {
    if p.logged then [(attempt, error)] else []
  }

  /** The effects from the given attempt on. */
  function From(p: Policy, net: Net, id: string, attempt: nat): Trace
    requires 1 <= attempt <= p.maxAttempts
    decreases p.maxAttempts - attempt
  {
    var outcome := net.outcome(id, attempt);
    if net.doneBefore(id, attempt).Some? then Trace(0, [], [], net.doneBefore(id, attempt))
    else if outcome.None? then Trace(1, [], [], None)
    else if attempt == p.maxAttempts then Trace(1, Audit(p, attempt, outcome.value), [], outcome)
    else if net.doneAfter(id, attempt).Some? then
      Trace(1, Audit(p, attempt, outcome.value), [], net.doneAfter(id, attempt))
    else
      Then(Trace(1, Audit(p, attempt, outcome.value), [Delay(p, net, id, attempt)], None),
           From(p, net, id, attempt + 1))
  }

  /** One stretch of a call followed by the rest of it. */
  function Then(first: Trace, rest: Trace): Trace {
    Trace(first.calls + rest.calls, first.audits + rest.audits, first.sleeps + rest.sleeps, rest.error)
  }

  /** The effects of one call of the revoker. */
  function Revocation(p: Policy, net: Net, id: string): Trace {
    From(WithDefaults(p), net, id, 1)
  }

  /** A failed attempt that is followed by another. */
  lemma ThenNext(first: Trace, next: Trace, p: Policy, net: Net, id: string, attempt: nat, error: string)
    requires 1 <= attempt < p.maxAttempts
    requires net.doneBefore(id, attempt) == None && net.outcome(id, attempt) == Some(error)
    requires net.doneAfter(id, attempt) == None
    requires next.calls == first.calls + 1
    requires next.audits == first.audits + Audit(p, attempt, error)
    requires next.sleeps == first.sleeps + [Delay(p, net, id, attempt)]
    ensures Then(first, From(p, net, id, attempt)) == Then(next, From(p, net, id, attempt + 1))
  {
  }

  /** An attempt that ends the call. */
  lemma ThenEnds(first: Trace, p: Policy, net: Net, id: string, attempt: nat)
    requires 1 <= attempt <= p.maxAttempts
    ensures net.doneBefore(id, attempt).Some? ==>
              Then(first, From(p, net, id, attempt)) == first.(error := net.doneBefore(id, attempt))
    ensures net.doneBefore(id, attempt).None? && net.outcome(id, attempt).None? ==>
              Then(first, From(p, net, id, attempt)) == first.(calls := first.calls + 1, error := None)
    ensures net.doneBefore(id, attempt).None? && net.outcome(id, attempt).Some?
            && (attempt == p.maxAttempts || net.doneAfter(id, attempt).Some?) ==>
              Then(first, From(p, net, id, attempt))
              == first.(calls := first.calls + 1,
                        audits := first.audits + Audit(p, attempt, net.outcome(id, attempt).value),
                        error := if attempt == p.maxAttempts then net.outcome(id, attempt)
                                 else net.doneAfter(id, attempt))
  {
  }

  class RetryRevoker {
    var baseDelay: Duration
    var maxDelay: Duration
    var maxAttempts: int
    var maxJitter: real
    var logged: bool

    constructor (logged: bool)
      ensures Settings() == Policy(1_000_000_000, 30_000_000_000, 5, 0.1, logged)
    {
      baseDelay, maxDelay, maxAttempts, maxJitter := 1 * SECOND, 30 * SECOND, 5, 0.1;
      this.logged := logged;
    }

    function Settings(): Policy
      reads this
    {
      Policy(baseDelay, maxDelay, maxAttempts, maxJitter, logged)
    }

    /** Revokes at the provider, retrying failures; a nil token succeeds at once. Missing settings
        are filled in for good. */
    method Revoke(t: IssuedToken?, net: Net) returns (trace: Trace)
      modifies this
      ensures t == null ==> trace == Trace(0, [], [], None) && Settings() == old(Settings())
      ensures t != null ==> trace == Revocation(old(Settings()), net, t.id)
      ensures t != null ==> Settings() == WithDefaults(old(Settings()))
      ensures t != null ==>
                && maxAttempts == (if old(maxAttempts) <= 0 then 5 else old(maxAttempts))
                && baseDelay == (if old(baseDelay) <= 0 then 1_000_000_000 else old(baseDelay))
                && maxDelay == (if old(maxDelay) <= 0 then 30_000_000_000 else old(maxDelay))
                && maxJitter == old(maxJitter) && logged == old(logged)
    {
      hide Delay, From;
      trace := Trace(0, [], [], None);
      if t == null {
        return;
      }
      if maxAttempts <= 0 {
        maxAttempts := DEFAULT_ATTEMPTS;
      }
      if baseDelay <= 0 {
        baseDelay := DEFAULT_BASE;
      }
      if maxDelay <= 0 {
        maxDelay := DEFAULT_MAX;
      }
      ghost var p := Settings();
      var lastErr: Option<string> := None;
      var attempt := 1;
      while attempt <= maxAttempts
        invariant 1 <= attempt <= maxAttempts
        invariant Settings() == p == WithDefaults(old(Settings()))
        invariant Revocation(old(Settings()), net, t.id) == Then(trace, From(p, net, t.id, attempt))
        decreases maxAttempts - attempt
      {
        ghost var done := trace;
        ThenEnds(done, p, net, t.id, attempt);
        var cancelled := net.doneBefore(t.id, attempt);
        if cancelled.Some? {
          trace := trace.(error := cancelled);
          return;
        }
        var answer := net.outcome(t.id, attempt);
        trace := trace.(calls := trace.calls + 1);
        if answer.None? {
          trace := trace.(error := None);
          return;
        }
        lastErr := answer;
        if logged {
          trace := trace.(audits := trace.audits + [(attempt, answer.value)]);
        }
        assert trace.audits == done.audits + Audit(p, attempt, answer.value);
        if attempt == maxAttempts {
          break;
        }
        var delay := Delay(Settings(), net, t.id, attempt);
        cancelled := net.doneAfter(t.id, attempt);
        if cancelled.Some? {
          trace := trace.(error := cancelled);
          return;
        }
        trace := trace.(sleeps := trace.sleeps + [delay]);
        ThenNext(done, trace, p, net, t.id, attempt, answer.value);
        attempt := attempt + 1;
      }
      trace := trace.(error := lastErr);
    }
  }
}
