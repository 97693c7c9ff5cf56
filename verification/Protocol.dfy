/**
 The broker as a transition system. Each action is one critical section of the store, one provider
 or notifier call made outside the lock, one save of the state file, or one restart, so a run is
 any interleaving of API requests with the worker.
 */
module Protocol {
  import opened Clock
  import opened Tokens
  import opened Sections
  import opened Persistence
  import opened Recovery

  /** An extension between its critical sections: about to call Issue, or to write its answer. `ttl`
      is the configured one. */
  datatype Call =
    | Reissuing(id: string, prior: Instant, expiry: Instant, clamped: bool, ttl: Duration)
    | Writing(id: string, secret: string)

  /** Where the worker is within its tick. */
  datatype Worker =
    | Idle
    | Warning(now: Instant, todo: seq<string>)
    | Popping(now: Instant)

  /** A credential minted at the provider, which honours it for `ttl` from `issuedAt`. */
  datatype Credential = Credential(session: string, issuedAt: Instant, ttl: Duration)

  /** What has happened so far; no action reads it. `handed` is counted from the last start of the
      process, `warnedSince` holds the sessions warned since their expiry was last set. */
  datatype History = History(
    handed: multiset<string>,
    handedEver: multiset<string>,
    granted: map<string, Instant>,
    minted: set<Credential>,
    extensions: multiset<string>,
    warnings: multiset<string>,
    warnedSince: set<string>,
    lastWarn: Instant,
    restarts: nat)

  /** `pending` holds the claimed sessions whose hand-over is still to come; `orphans` the calls of
      processes that have died, of which re-issues may still reach the provider; `saved` is the
      state the file was written from. */
  datatype System = System(
    limits: Limits,
    store: State,
    pending: multiset<string>,
    calls: multiset<Call>,
    orphans: multiset<Call>,
    worker: Worker,
    file: seq<Record>,
    saved: State,
    past: History)

  datatype Action =
    | Grant(t: Token, at: Instant)
    | ManualRevoke(id: string)
    | RequestExtension(id: string, now: Instant)
    | HandOver(id: string)
    | IssueReturns(call: Call, asked: Instant, at: Instant, answer: Option<string>)
    | LateIssue(call: Call, asked: Instant, at: Instant)
    | WriteBack(call: Call)
    | TickBegins(now: Instant, order: seq<string>)
    | SendWarning
    | StartPopping
    | PopOne
    | Save(file: seq<Record>)
    | Restart(limits: Limits, at: Instant)

  function Start(limits: Limits, at: Instant): System {
    System(limits, EMPTY, multiset{}, multiset{}, multiset{}, Idle, [], EMPTY,
           History(multiset{}, multiset{}, map[], {}, multiset{}, multiset{}, {}, at, 0))
  }

  /** A token as the issuers return it: a new id, not revoked, never extended or registered. */
  predicate Fresh(s: System, t: Token) {
    && t.id !in s.past.granted
    && !t.revoked && !t.notifiedExpiry
    && t.extensionCount == 0 && t.originalIssuedAt == 0
  }

  ghost predicate Enabled(s: System, a: Action) {
    match a
    case Grant(t, _) => Fresh(s, t)
    case ManualRevoke(_) => true
    case RequestExtension(_, _) => true
    case HandOver(id) => id in s.pending
    case IssueReturns(call, _, _, _) => call.Reissuing? && call in s.calls
    case LateIssue(call, _, _) => call.Reissuing? && call in s.orphans
    case WriteBack(call) => call.Writing? && call in s.calls
    case TickBegins(now, order) =>
      s.worker.Idle? && multiset(order) == multiset(ToNotify(s.store, s.limits, now))
    case SendWarning => s.worker.Warning? && s.worker.todo != []
    case StartPopping => s.worker.Warning? && s.worker.todo == []
    case PopOne => s.worker.Popping?
    case Save(file) => Snapshot(s.store.toks, file)
    case Restart(_, _) => true
  }

  function OnGrant(s: System, t: Token): System
    requires Indexed(s.store)
  {
    s.(store := Add(s.store, t),
       past := s.past.(granted := s.past.granted[t.id := Registered(t).originalIssuedAt],
                       minted := s.past.minted + {Credential(t.id, t.issuedAt, t.expiresAt - t.issuedAt)},
                       warnedSince := s.past.warnedSince - {t.id}))
  }

  /** A session claimed for revocation waits for its hand-over. */
  function Claiming(s: System, store: State, id: string): System {
    s.(store := store, pending := s.pending + multiset{id})
  }

  function OnRevoke(s: System, id: string): System {
    if Live(s.store, id) then Claiming(s, RevokeNow(s.store, id), id) else s
  }

  function Extending(s: System, store: State, call: Call): System {
    s.(store := store, calls := s.calls + multiset{call},
       past := s.past.(extensions := s.past.extensions + multiset{call.id},
                       warnedSince := s.past.warnedSince - {call.id}))
  }

  function OnExtension(s: System, id: string, now: Instant): System {
    var store := Extend(s.store, id, s.limits, now);
    match Decide(s.store, id, s.limits, now)
    case Gone => s
    case Forced(_) => Claiming(s, store, id)
    case Clamped(ceiling) =>
      Extending(s, store, Reissuing(id, s.store.toks[id].expiresAt, ceiling, true, s.limits.ttl))
    case Renewed(expiry, _) =>
      Extending(s, store, Reissuing(id, s.store.toks[id].expiresAt, expiry, false, s.limits.ttl))
  }

  function OnHandOver(s: System, id: string): System {
    s.(pending := s.pending - multiset{id},
       past := s.past.(handed := s.past.handed + multiset{id},
                       handedEver := s.past.handedEver + multiset{id}))
  }

  /** The credential minted for a re-issue whose ttl is computed at `asked` and that the provider grants
      at `at`. */
  function Minted(call: Call, asked: Instant, at: Instant): Credential
    requires call.Reissuing?
  {
    Credential(call.id, at, ReissueTtl(call.ttl, call.expiry, call.clamped, asked))
  }

  function OnIssue(s: System, call: Call, asked: Instant, at: Instant, answer: Option<string>): System
    requires call.Reissuing?
  {
    match answer
    case None => s.(calls := s.calls - multiset{call})
    case Some(secret) =>
      s.(calls := s.calls - multiset{call} + multiset{Writing(call.id, secret)},
         past := s.past.(minted := s.past.minted + {Minted(call, asked, at)}))
  }

  /** The provider grants a re-issue whose process has died; nobody reads the answer. */
  function OnLateIssue(s: System, call: Call, asked: Instant, at: Instant): System
    requires call.Reissuing?
  {
    s.(orphans := s.orphans - multiset{call},
       past := s.past.(minted := s.past.minted + {Minted(call, asked, at)}))
  }

  function OnTick(s: System, now: Instant, order: seq<string>): System {
    s.(store := Warn(s.store, s.limits, now), worker := Warning(now, order),
       past := s.past.(lastWarn := now))
  }

  function OnSend(s: System): System
    requires s.worker.Warning? && s.worker.todo != []
  {
    var id := s.worker.todo[0];
    s.(worker := Warning(s.worker.now, s.worker.todo[1..]),
       past := s.past.(warnings := s.past.warnings + multiset{id},
                       warnedSince := s.past.warnedSince + {id}))
  }

  function OnPop(s: System): System
    requires Indexed(s.store) && s.worker.Popping?
  {
    var store := PopTop(s.store, s.worker.now);
    match Inspect(s.store, s.worker.now)
    case Done => s.(worker := Idle)
    case Skipped => s.(store := store)
    case Claimed(id) => Claiming(s, store, id)
  }

  /** The process dies with its memory, its pending hand-overs and its tick, and nobody waits for its
      calls any more; the new one recovers the file. */
  function OnRestart(s: System, limits: Limits, at: Instant): System {
    var r := Recover(s.file, at);
    s.(limits := limits, store := r.state, pending := multiset(r.handed),
       calls := multiset{}, orphans := s.orphans + s.calls, worker := Idle,
       past := s.past.(handed := multiset{}, warnedSince := {}, lastWarn := at, restarts := s.past.restarts + 1))
  }

  /** The state after an action; an action that is not enabled changes nothing. */
  ghost function Next(s: System, a: Action): (r: System)
    requires Indexed(s.store)
    ensures Indexed(r.store)
  {
    if !Enabled(s, a) then s
    else
      match a
      case Grant(t, _) => OnGrant(s, t)
      case ManualRevoke(id) => OnRevoke(s, id)
      case RequestExtension(id, now) => OnExtension(s, id, now)
      case HandOver(id) => OnHandOver(s, id)
      case IssueReturns(call, asked, at, answer) => OnIssue(s, call, asked, at, answer)
      case LateIssue(call, asked, at) => OnLateIssue(s, call, asked, at)
      case WriteBack(call) =>
        s.(store := WriteSecret(s.store, call.id, call.secret), calls := s.calls - multiset{call})
      case TickBegins(now, order) => OnTick(s, now, order)
      case SendWarning => OnSend(s)
      case StartPopping => s.(worker := Popping(s.worker.now))
      case PopOne => OnPop(s)
      case Save(file) => s.(file := file, saved := s.store)
      case Restart(limits, at) => OnRestart(s, limits, at)
  }

  ghost function Run(s: System, acts: seq<Action>): (r: System)
    requires Indexed(s.store)
    ensures Indexed(r.store)
    decreases |acts|
  {
    if acts == [] then s else Run(Next(s, acts[0]), acts[1..])
  }

  lemma RunOne(s: System, a: Action, rest: seq<Action>)
    requires Indexed(s.store)
    ensures Run(s, [a] + rest) == Run(Next(s, a), rest)
  {
  }

  lemma RunNone(s: System)
    requires Indexed(s.store)
    ensures Run(s, []) == s
  {
  }

  lemma RestartNext(s: System, limits: Limits, at: Instant)
    requires Indexed(s.store)
    ensures Next(s, Restart(limits, at)) == OnRestart(s, limits, at)
  {
    hide Recover;
  }

  lemma RestartKeepsFile(s: System, limits: Limits, at: Instant)
    ensures OnRestart(s, limits, at).saved == s.saved && OnRestart(s, limits, at).file == s.file
  {
    hide Recover;
  }

  // ---------- Assumptions on runs ----------

  /** What a theorem may assume of the environment along a run. */
  datatype Regime =
    /** Grants and configured ceilings reach at most `cap` past the grant. */
    | Capped(cap: Duration)
    /** Moreover every re-issue reaches the provider while the session it extends is unexpired, and one
        clamped to the ceiling within `lag` of the computation of its ttl. */
    | Prompt(cap: Duration, lag: Duration)
    /** Moreover the ceiling is `cap`, and no restart reads a file in which the expiry of a session live
        there is behind. */
    | Current(cap: Duration, lag: Duration)
    /** Or the process does not restart. */
    | OneProcess(cap: Duration, lag: Duration)
    /** Grants last at most MAX_TTL and every configuration passes validation. */
    | Accepted
    /** No restart reads a file that holds live a session already handed over. */
    | Unhanded(id: string)
    /** No restart reads a file that holds a session live with an older extension count. */
    | Counted(id: string)
    /** No restart reads a file whose count of a session live in it has no room for the warnings sent
        and one to come. */
    | Roomy(id: string)
    /** Ticks at most `gap` apart, and more than that left after each grant or extension. */
    | Paced(gap: Duration)

  predicate AcceptedLimits(l: Limits) {
    && 0 < l.ttl <= MAX_TTL
    && 0 < l.maxSession <= MAX_SESSION
    && 0 < l.warningBefore
  }

  predicate CappedAction(cap: Duration, a: Action) {
    match a
    case Grant(t, _) => t.expiresAt <= t.issuedAt + cap
    case Restart(limits, _) => limits.maxSession <= cap
    case _ => true
  }

  predicate PromptIssue(lag: Duration, a: Action) {
    (a.IssueReturns? || a.LateIssue?) && a.call.Reissuing? ==>
      if a.call.clamped then a.asked <= a.call.expiry && a.at <= a.asked + lag else a.at <= a.call.prior
  }

  predicate PacedAction(gap: Duration, s: System, a: Action) {
    match a
    case Grant(t, at) => s.past.lastWarn <= at && at + gap < t.expiresAt
    case RequestExtension(id, now) =>
      var d := Decide(s.store, id, s.limits, now);
      d.Clamped? || d.Renewed? ==>
        s.past.lastWarn <= now && now + gap < Extend(s.store, id, s.limits, now).toks[id].expiresAt
    case TickBegins(now, _) => s.past.lastWarn <= now <= s.past.lastWarn + gap
    case Restart(limits, at) =>
      && gap <= limits.warningBefore
      && forall id :: id in Recover(s.file, at).state.toks && !Recover(s.file, at).state.toks[id].revoked
           ==> at + gap < Recover(s.file, at).state.toks[id].expiresAt
    case _ => true
  }

  ghost predicate Admits(r: Regime, s: System, a: Action) {
    match r
    case Capped(cap) => CappedAction(cap, a)
    case Prompt(cap, lag) => CappedAction(cap, a) && PromptIssue(lag, a)
    case Current(cap, lag) =>
      && CappedAction(cap, a) && PromptIssue(lag, a)
      && (a.Restart? ==>
            && a.limits.maxSession == cap && 0 < a.limits.ttl
            && forall id :: Live(s.saved, id) ==>
                 id in s.store.toks && s.store.toks[id].expiresAt <= s.saved.toks[id].expiresAt)
    case OneProcess(cap, lag) => CappedAction(cap, a) && PromptIssue(lag, a) && !a.Restart?
    case Accepted =>
      && (a.Grant? ==> a.t.expiresAt <= a.t.issuedAt + MAX_TTL)
      && (a.Restart? ==> AcceptedLimits(a.limits))
    case Unhanded(id) => a.Restart? && Live(s.saved, id) ==> s.past.handedEver[id] == 0
    case Counted(id) =>
      a.Restart? && Live(s.saved, id) && id in s.store.toks ==>
        s.saved.toks[id].extensionCount == s.store.toks[id].extensionCount
    case Roomy(id) =>
      a.Restart? && Live(s.saved, id) ==>
        s.past.warnings[id] + (if s.saved.toks[id].expiresAt < a.at then 0 else 1)
        <= 2 + s.saved.toks[id].extensionCount + s.past.restarts
    case Paced(gap) => PacedAction(gap, s, a)
  }

  /** Every action of the run meets the assumptions in the state it is taken from. */
  ghost predicate Allowed(r: Regime, s: System, acts: seq<Action>)
    requires Indexed(s.store)
    decreases |acts|
  {
    acts != [] ==> Admits(r, s, acts[0]) && Allowed(r, Next(s, acts[0]), acts[1..])
  }
}
