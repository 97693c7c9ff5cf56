/** The session ceiling, and the life of every credential, over whole runs and restarts. */
module Ceiling {
  import opened Clock
  import opened Tokens
  import opened ExpiryHeap
  import opened Sections
  import opened Ticks
  import opened Recovery
  import opened Protocol
  import opened Effects
  import opened Safety

  /** Every session keeps the instant it was first granted, and expires within `cap` of it. */
  ghost predicate SessionsCapped(granted: map<string, Instant>, toks: Sessions, cap: Duration) {
    forall id :: id in toks ==>
      && id in granted
      && toks[id].originalIssuedAt == granted[id]
      && toks[id].expiresAt <= granted[id] + cap
  }

  ghost predicate CallsCapped(s: System, cap: Duration) {
    forall c :: (c in s.calls || c in s.orphans) && c.Reissuing? ==>
      && c.id in s.past.granted
      && c.expiry <= s.past.granted[c.id] + cap
      && (!c.clamped ==> c.expiry == c.prior + c.ttl)
  }

  ghost predicate Within(s: System, cap: Duration) {
    && s.limits.maxSession <= cap
    && SessionsCapped(s.past.granted, s.store.toks, cap)
    && SessionsCapped(s.past.granted, s.saved.toks, cap)
    && CallsCapped(s, cap)
  }

  lemma SessionStaysCapped(s: System, a: Action, r: System, id: string, cap: Duration)
    requires Within(s, cap) && CappedAction(cap, a)
    requires SessionEffect(s, a, r, id) && HistoryEffect(s, a, r) && id in r.store.toks
    ensures id in r.past.granted
    ensures r.store.toks[id].originalIssuedAt == r.past.granted[id]
    ensures r.store.toks[id].expiresAt <= r.past.granted[id] + cap
  {
  }

  lemma CallsStayCapped(s: System, a: Action, r: System, cap: Duration)
    requires Within(s, cap) && HistoryEffect(s, a, r)
    ensures CallsCapped(r, cap)
  {
  }

  lemma RestoredCapped(granted: map<string, Instant>, toks: Sessions, now: Instant, cap: Duration)
    requires SessionsCapped(granted, toks, cap)
    ensures SessionsCapped(granted, Restored(toks, now), cap)
  {
  }

  lemma RestartWithin(s: System, limits: Limits, at: Instant, cap: Duration)
    requires Sane(s) && Within(s, cap) && limits.maxSession <= cap
    ensures Within(OnRestart(s, limits, at), cap)
  {
    hide Recover, Ordered, Snapshot, SessionsCapped, Restored;
    RecoveryRestores(s.saved, s.file, at);
    RestoredCapped(s.past.granted, s.saved.toks, at, cap);
  }

  lemma WithinNext(s: System, a: Action, cap: Duration)
    requires Sane(s) && Within(s, cap) && CappedAction(cap, a)
    ensures Within(Next(s, a), cap)
  {
    if a.Restart? {
      RestartWithin(s, a.limits, a.at, cap);
    } else {
      var r := Next(s, a);
      HistoryNext(s, a);
      CallsStayCapped(s, a, r, cap);
      forall id | id in r.store.toks
        ensures id in r.past.granted
        ensures r.store.toks[id].originalIssuedAt == r.past.granted[id]
        ensures r.store.toks[id].expiresAt <= r.past.granted[id] + cap
      {
        SessionNext(s, a, id);
        SessionStaysCapped(s, a, r, id, cap);
      }
    }
  }

  /**
   The session ceiling over whole runs and restarts: no extension, save, restart or interleaving
   moves a session's first grant instant or its expiry more than `cap` past it.
   */
  lemma {:induction false} CeilingHolds(s: System, acts: seq<Action>, cap: Duration)
    requires Sane(s) && Granted(s) && Within(s, cap) && Allowed(Capped(cap), s, acts)
    ensures Within(Run(s, acts), cap)
    decreases |acts|
  {
    if acts != [] {
      SaneNext(s, acts[0]);
      WithinNext(s, acts[0], cap);
      CeilingHolds(Next(s, acts[0]), acts[1..], cap);
    }
  }

  lemma {:induction false} AcceptedIsCapped(s: System, acts: seq<Action>)
    requires Indexed(s.store) && Allowed(Accepted, s, acts)
    ensures Allowed(Capped(MAX_SESSION), s, acts)
    decreases |acts|
  {
    if acts != [] {
      hide Next;
      AcceptedIsCapped(Next(s, acts[0]), acts[1..]);
    }
  }

  /** For every configuration that passes validation, changed at will on restarts, and grants of at
      most 60 minutes, no session ever expires later than 4 hours after its first grant. */
  lemma FourHourCeiling(limits: Limits, at: Instant, acts: seq<Action>)
    requires AcceptedLimits(limits) && Allowed(Accepted, Start(limits, at), acts)
    ensures var r := Run(Start(limits, at), acts);
            SessionsCapped(r.past.granted, r.store.toks, 4 * HOUR)
  {
    StartIsSane(limits, at);
    AcceptedIsCapped(Start(limits, at), acts);
    CeilingHolds(Start(limits, at), acts, MAX_SESSION);
  }

  // ---------- Credentials ----------

  /** No credential, current or superseded, is honoured more than `cap` past the first grant. */
  ghost predicate CredentialsCapped(s: System, cap: Duration) {
    forall m :: m in s.past.minted ==>
      m.session in s.past.granted && m.issuedAt + m.ttl <= s.past.granted[m.session] + cap
  }

  /** What is recorded of the provider's answers: a grant's own life, the configured ttl for a full
      re-issue, and what was left to the ceiling when it was computed for a clamped one, also when the
      process that asked has died; no record is ever dropped. */
  lemma MintingIsRecorded(s: System, a: Action)
    requires Indexed(s.store) && Enabled(s, a)
    ensures s.past.minted <= Next(s, a).past.minted
    ensures a.Grant? ==> Credential(a.t.id, a.t.issuedAt, a.t.expiresAt - a.t.issuedAt) in Next(s, a).past.minted
    ensures (a.IssueReturns? && a.answer.Some?) || a.LateIssue? ==>
              Credential(a.call.id, a.at, if a.call.clamped then Sub(a.call.expiry, a.asked) else a.call.ttl)
              in Next(s, a).past.minted
  {
  }

  /** A full-ttl re-issue is covered by the new expiry if the session it extends is unexpired when the
      provider grants it, and only then; a clamped one up to the time the request took. */
  lemma ReissueCovered(c: Call, asked: Instant, at: Instant)
    requires c.Reissuing? && (!c.clamped ==> c.expiry == c.prior + c.ttl)
    ensures !c.clamped ==> (at + Minted(c, asked, at).ttl <= c.expiry <==> at <= c.prior)
    ensures c.clamped && asked <= c.expiry ==> at + Minted(c, asked, at).ttl <= c.expiry + (at - asked)
  {
  }

  lemma NewCredentialCapped(s: System, a: Action, r: System, m: Credential, cap: Duration, lag: nat)
    requires Within(s, cap) && CappedAction(cap, a) && PromptIssue(lag, a)
    requires HistoryEffect(s, a, r) && m in r.past.minted && m !in s.past.minted
    requires a.Grant? ==> Fresh(s, a.t)
    ensures m.session in r.past.granted && m.issuedAt + m.ttl <= r.past.granted[m.session] + cap + lag
  {
    if !a.Grant? {
      ReissueCovered(a.call, a.asked, a.at);
    }
  }

  lemma CredentialsNext(s: System, a: Action, cap: Duration, lag: nat)
    requires Indexed(s.store) && Within(s, cap) && CredentialsCapped(s, cap + lag)
    requires CappedAction(cap, a) && PromptIssue(lag, a)
    ensures CredentialsCapped(Next(s, a), cap + lag)
  {
    var r := Next(s, a);
    if !a.Restart? && Enabled(s, a) {
      HistoryNext(s, a);
      forall m | m in r.past.minted
        ensures m.session in r.past.granted && m.issuedAt + m.ttl <= r.past.granted[m.session] + cap + lag
      {
        if m !in s.past.minted {
          NewCredentialCapped(s, a, r, m, cap, lag);
        }
      }
    }
  }

  /**
   Credential life bounded without any revocation. Along a run whose re-issues, those of processes
   that have died included, reach the provider before the session they extend expires, and clamped
   ones within `lag` of the computation of their ttl, every credential ever minted for a session
   lapses at the provider within `cap` and `lag` of the first grant, even if no hand-over ever
   succeeds.
   */
  lemma {:induction false} CredentialsLapse(s: System, acts: seq<Action>, cap: Duration, lag: nat)
    requires Sane(s) && Granted(s) && Within(s, cap) && CredentialsCapped(s, cap + lag)
    requires Allowed(Prompt(cap, lag), s, acts)
    ensures CredentialsCapped(Run(s, acts), cap + lag)
    decreases |acts|
  {
    if acts != [] {
      SaneNext(s, acts[0]);
      WithinNext(s, acts[0], cap);
      CredentialsNext(s, acts[0], cap, lag);
      CredentialsLapse(Next(s, acts[0]), acts[1..], cap, lag);
    }
  }

  /** From the first start of the broker. */
  lemma EveryCredentialLapses(limits: Limits, at: Instant, acts: seq<Action>, cap: Duration, lag: nat)
    requires limits.maxSession <= cap && Allowed(Prompt(cap, lag), Start(limits, at), acts)
    ensures var r := Run(Start(limits, at), acts);
            forall m :: m in r.past.minted ==>
              m.session in r.past.granted && m.issuedAt + m.ttl <= r.past.granted[m.session] + cap + lag
  {
    StartIsSane(limits, at);
    CredentialsLapse(Start(limits, at), acts, cap, lag);
  }

  /** The broker's expiry of each session it knows covers every credential minted for it, up to `lag`,
      and every re-issue under way. */
  ghost predicate Covered(s: System, lag: nat) {
    && (forall m :: m in s.past.minted ==>
          && m.session in s.past.granted
          && (m.session in s.store.toks ==> m.issuedAt + m.ttl <= s.store.toks[m.session].expiresAt + lag))
    && (forall c :: (c in s.calls || c in s.orphans) && c.Reissuing? && c.id in s.store.toks ==>
          c.expiry <= s.store.toks[c.id].expiresAt)
  }

  /** Under a fixed ceiling an expiry never moves down. */
  lemma ExpiryRises(s: System, a: Action, r: System, id: string, cap: Duration)
    requires Granted(s) && Within(s, cap) && 0 < s.limits.ttl && s.limits.maxSession == cap
    requires SessionEffect(s, a, r, id) && id in s.store.toks
    ensures id in r.store.toks && s.store.toks[id].expiresAt <= r.store.toks[id].expiresAt
  {
  }

  lemma CredentialStaysCovered(s: System, a: Action, r: System, m: Credential, lag: nat)
    requires Covered(s, lag) && HistoryEffect(s, a, r) && PromptIssue(lag, a) && m in r.past.minted
    requires a.Grant? ==> Fresh(s, a.t)
    requires CallsCapped(s, s.limits.maxSession)
    requires SessionEffect(s, a, r, m.session)
    requires m.session in s.store.toks ==>
               m.session in r.store.toks
               && s.store.toks[m.session].expiresAt <= r.store.toks[m.session].expiresAt
    ensures m.session in r.past.granted
    ensures m.session in r.store.toks ==> m.issuedAt + m.ttl <= r.store.toks[m.session].expiresAt + lag
  {
  }

  lemma CallStaysCovered(s: System, a: Action, r: System, c: Call, lag: nat)
    requires Covered(s, lag) && HistoryEffect(s, a, r) && CallsCapped(s, s.limits.maxSession)
    requires (c in r.calls || c in r.orphans) && c.Reissuing? && c.id in r.store.toks
    requires SessionEffect(s, a, r, c.id)
    requires c.id in s.store.toks ==> s.store.toks[c.id].expiresAt <= r.store.toks[c.id].expiresAt
    ensures c.expiry <= r.store.toks[c.id].expiresAt
  {
  }

  lemma CoveredAction(s: System, a: Action, cap: Duration, lag: nat)
    requires Sane(s) && Granted(s) && Within(s, cap) && Covered(s, lag)
    requires 0 < s.limits.ttl && s.limits.maxSession == cap
    requires CappedAction(cap, a) && PromptIssue(lag, a) && !a.Restart?
    ensures Covered(Next(s, a), lag) && Next(s, a).limits == s.limits
  {
    var r := Next(s, a);
    if Enabled(s, a) {
      HistoryNext(s, a);
      forall m | m in r.past.minted
        ensures m.session in r.past.granted
        ensures m.session in r.store.toks ==> m.issuedAt + m.ttl <= r.store.toks[m.session].expiresAt + lag
      {
        SessionNext(s, a, m.session);
        if m.session in s.store.toks {
          ExpiryRises(s, a, r, m.session, cap);
        }
        CredentialStaysCovered(s, a, r, m, lag);
      }
      forall c | (c in r.calls || c in r.orphans) && c.Reissuing? && c.id in r.store.toks
        ensures c.expiry <= r.store.toks[c.id].expiresAt
      {
        SessionNext(s, a, c.id);
        if c.id in s.store.toks {
          ExpiryRises(s, a, r, c.id, cap);
        }
        CallStaysCovered(s, a, r, c, lag);
      }
    }
  }

  /** A restart from a file whose expiries are not behind. */
  lemma CoveredAfterRestart(s: System, limits: Limits, at: Instant, cap: Duration, lag: nat)
    requires Sane(s) && Covered(s, lag) && Admits(Current(cap, lag), s, Restart(limits, at))
    ensures Covered(OnRestart(s, limits, at), lag)
  {
    hide Recover, Ordered, Snapshot, Consistent;
    RecoveryRestores(s.saved, s.file, at);
  }

  lemma CoveredNext(s: System, a: Action, cap: Duration, lag: nat)
    requires Sane(s) && Granted(s) && Within(s, cap) && Covered(s, lag)
    requires 0 < s.limits.ttl && s.limits.maxSession == cap
    requires Admits(Current(cap, lag), s, a)
    ensures Covered(Next(s, a), lag) && 0 < Next(s, a).limits.ttl && Next(s, a).limits.maxSession == cap
  {
    hide Next, Covered, Within;
    if a.Restart? {
      RestartNext(s, a.limits, a.at);
      CoveredAfterRestart(s, a.limits, a.at, cap, lag);
    } else {
      CoveredAction(s, a, cap, lag);
    }
  }

  /**
   Under a fixed ceiling that the first grants respect, and restarts from files whose expiries are not
   behind, the broker's current expiry of a session covers every credential ever minted for it, by
   whichever process, and every re-issue under way; so the broker never believes a session it knows
   over for longer than `lag` while a credential of it is honoured.
   */
  lemma {:induction false} ExpiryCoversCredentials(s: System, acts: seq<Action>, cap: Duration, lag: nat)
    requires Sane(s) && Granted(s) && Within(s, cap) && Covered(s, lag)
    requires 0 < s.limits.ttl && s.limits.maxSession == cap
    requires Allowed(Current(cap, lag), s, acts)
    ensures Covered(Run(s, acts), lag)
    decreases |acts|
  {
    if acts != [] {
      SaneNext(s, acts[0]);
      WithinNext(s, acts[0], cap);
      CoveredNext(s, acts[0], cap, lag);
      ExpiryCoversCredentials(Next(s, acts[0]), acts[1..], cap, lag);
    }
  }

  /** Every session that a credential was minted, or is being re-issued, for is known. */
  ghost predicate Remembered(s: System) {
    && (forall m :: m in s.past.minted ==> m.session in s.store.toks)
    && (forall c :: (c in s.calls || c in s.orphans) && c.Reissuing? ==> c.id in s.store.toks)
  }

  lemma RememberedNext(s: System, a: Action)
    requires Indexed(s.store) && Remembered(s) && !a.Restart?
    ensures Remembered(Next(s, a))
  {
    var r := Next(s, a);
    if Enabled(s, a) {
      hide Next;
      HistoryNext(s, a);
      forall m | m in r.past.minted ensures m.session in r.store.toks {
        SessionNext(s, a, m.session);
      }
      forall c | (c in r.calls || c in r.orphans) && c.Reissuing? ensures c.id in r.store.toks {
        SessionNext(s, a, c.id);
      }
    }
  }

  /** Within one process no such session is forgotten, so its expiry covers every credential of it. */
  lemma {:induction false} OneProcessCovers(s: System, acts: seq<Action>, cap: Duration, lag: nat)
    requires Sane(s) && Granted(s) && Within(s, cap) && Covered(s, lag) && Remembered(s)
    requires 0 < s.limits.ttl && s.limits.maxSession == cap
    requires Allowed(OneProcess(cap, lag), s, acts)
    ensures Covered(Run(s, acts), lag) && Remembered(Run(s, acts))
    decreases |acts|
  {
    if acts != [] {
      SaneNext(s, acts[0]);
      WithinNext(s, acts[0], cap);
      CoveredNext(s, acts[0], cap, lag);
      RememberedNext(s, acts[0]);
      OneProcessCovers(Next(s, acts[0]), acts[1..], cap, lag);
    }
  }

  // ---------- The deadline ----------

  /** Everything in the heap is past its ceiling. */
  ghost predicate PastCeilings(s: System, cap: Duration, now: Instant) {
    forall id :: id in s.store.heap && id in s.past.granted ==> s.past.granted[id] + cap <= now
  }

  /**
   In any state of a capped run, whatever order extensions have left the heap in, a tick at or past
   the ceiling of everything in the heap empties it and revokes every live session.
   */
  lemma GoneByTheCeiling(limits: Limits, at: Instant, acts: seq<Action>, cap: Duration, now: Instant)
    requires limits.maxSession <= cap && Allowed(Capped(cap), Start(limits, at), acts)
    requires PastCeilings(Run(Start(limits, at), acts), cap, now)
    ensures var store := Run(Start(limits, at), acts).store;
            var swept := RevokeExpired(store, now);
            && swept.state.heap == []
            && (forall id :: !Live(swept.state, id))
            && (forall id :: multiset(swept.handed)[id] == if Live(store, id) then 1 else 0)
  {
    var s := Start(limits, at);
    StartIsSane(limits, at);
    NoLiveSessionIsLost(s, acts);
    CeilingHolds(s, acts, cap);
    var r := Run(s, acts);
    forall k | 0 <= k < |r.store.heap| ensures Expired(r.store.toks, r.store.heap[k], now) {
      var id := r.store.heap[k];
      assert id in r.store.toks && id in r.past.granted;
      assert r.store.toks[id].expiresAt <= r.past.granted[id] + cap <= now;
    }
    TickPastAllDrains(r.store, now);
  }

  /** One session at a time: where no expired entry lies under an unexpired one, a tick at or past a
      session's own ceiling leaves it revoked, and hands it over if it was live. */
  lemma SessionGoneByItsCeiling(limits: Limits, at: Instant, acts: seq<Action>, cap: Duration, now: Instant, id: string)
    requires limits.maxSession <= cap && Allowed(Capped(cap), Start(limits, at), acts)
    requires var r := Run(Start(limits, at), acts);
             && ExpiredOnTop(r.store.toks, r.store.heap, now)
             && id in r.past.granted && r.past.granted[id] + cap <= now
    ensures var store := Run(Start(limits, at), acts).store;
            var swept := RevokeExpired(store, now);
            && !Live(swept.state, id)
            && multiset(swept.handed)[id] == if Live(store, id) then 1 else 0
  {
    var s := Start(limits, at);
    StartIsSane(limits, at);
    NoLiveSessionIsLost(s, acts);
    CeilingHolds(s, acts, cap);
    TickIsTimely(Run(s, acts).store, now);
  }
}
