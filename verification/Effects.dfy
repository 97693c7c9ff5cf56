/** What one action can do to one session: the frame that the run invariants are proved from. */
module Effects {
  import opened Clock
  import opened Tokens
  import opened Sections
  import opened Persistence
  import opened Protocol

  /** The action is a request that lengthens session `id`. */
  predicate Lengthens(s: System, a: Action, id: string) {
    && a.RequestExtension? && a.id == id
    && (Decide(s.store, id, s.limits, a.now).Clamped? || Decide(s.store, id, s.limits, a.now).Renewed?)
  }

  /** The expiry it sets. */
  function NewExpiry(s: System, a: Action): Instant
    requires a.RequestExtension? && Lengthens(s, a, a.id)
  {
    match Decide(s.store, a.id, s.limits, a.now)
    case Clamped(ceiling) => ceiling
    case Renewed(expiry, _) => expiry
  }

  /** The action grants session `id`. */
  predicate Enters(s: System, a: Action, id: string) {
    a.Grant? && Fresh(s, a.t) && a.t.id == id
  }

  /** The warning flag after an action that neither grants nor lengthens the session. */
  function FlagAfter(s: System, a: Action, t: Token): bool {
    t.notifiedExpiry || (a.TickBegins? && WarningDue(t, s.limits, a.now))
  }

  /** Equal but for the secret, the revocation mark and the warning flag. */
  predicate SameTerms(t: Token, u: Token) {
    && u.id == t.id && u.user == t.user && u.resource == t.resource && u.provider == t.provider
    && u.justificationType == t.justificationType && u.justificationRef == t.justificationRef
    && u.issuedAt == t.issuedAt && u.originalIssuedAt == t.originalIssuedAt
    && u.expiresAt == t.expiresAt && u.extensionCount == t.extensionCount
  }

  ghost predicate SessionEffect(s: System, a: Action, r: System, id: string) {
    if Enters(s, a, id) then
      id in r.store.toks && r.store.toks[id] == Registered(a.t)
    else if Lengthens(s, a, id) then
      id in r.store.toks && r.store.toks[id] == Lengthened(s.store.toks[id], NewExpiry(s, a))
    else
      && (id in r.store.toks <==> id in s.store.toks)
      && (id in s.store.toks ==>
            && SameTerms(s.store.toks[id], r.store.toks[id])
            && (r.store.toks[id].secret != s.store.toks[id].secret ==>
                  a.WriteBack? && a.call in s.calls && a.call == Writing(id, r.store.toks[id].secret))
            && (s.store.toks[id].revoked ==> r.store.toks[id].revoked)
            && (r.store.toks[id].notifiedExpiry ==> FlagAfter(s, a, s.store.toks[id]))
            && (Enabled(s, a) && FlagAfter(s, a, s.store.toks[id]) ==> r.store.toks[id].notifiedExpiry)
            && (s.store.toks[id].notifiedExpiry ==> r.store.toks[id].notifiedExpiry))
  }

  lemma PopTopOnlyMarks(s: State, now: Instant)
    requires Indexed(s)
    ensures PopTop(s, now).toks
            == match Inspect(s, now) { case Claimed(id) => Claim(s, id).toks case _ => s.toks }
  {
  }

  lemma PopEffect(s: System, id: string)
    requires Indexed(s.store) && s.worker.Popping?
    ensures SessionEffect(s, PopOne, OnPop(s), id)
  {
    hide PopTop;
    PopTopOnlyMarks(s.store, s.worker.now);
  }

  lemma GrantEffect(s: System, t: Token, at: Instant, id: string)
    requires Indexed(s.store) && Fresh(s, t)
    ensures SessionEffect(s, Grant(t, at), OnGrant(s, t), id)
  {
  }

  lemma ExtensionEffect(s: System, x: string, now: Instant, id: string)
    ensures SessionEffect(s, RequestExtension(x, now), OnExtension(s, x, now), id)
  {
    hide Extend, Ceiling, Fresh, Registered;
    ExtendOutcome(s.store, x, s.limits, now);
  }

  lemma TickEffect(s: System, now: Instant, order: seq<string>, id: string)
    ensures SessionEffect(s, TickBegins(now, order), OnTick(s, now, order), id)
  {
  }

  lemma RevokeEffect(s: System, x: string, id: string)
    ensures SessionEffect(s, ManualRevoke(x), OnRevoke(s, x), id)
  {
  }

  lemma WriteEffect(s: System, call: Call, r: System, id: string)
    requires call.Writing? && call in s.calls && r.store == WriteSecret(s.store, call.id, call.secret)
    ensures SessionEffect(s, WriteBack(call), r, id)
  {
  }

  lemma IdleEffect(s: System, a: Action, r: System, id: string)
    requires !a.Grant? && !a.RequestExtension? && !a.TickBegins? && r.store == s.store
    ensures SessionEffect(s, a, r, id)
  {
  }

  lemma UngrantedEffect(s: System, a: Action, id: string)
    requires !Enabled(s, a) && (a.Grant? || a.TickBegins?)
    ensures SessionEffect(s, a, s, id)
  {
  }

  predicate Bookkeeping(a: Action) {
    a.HandOver? || a.IssueReturns? || a.LateIssue? || a.SendWarning? || a.StartPopping? || a.Save?
  }

  lemma BookkeepingKeepsStore(s: System, a: Action)
    requires Indexed(s.store) && Bookkeeping(a)
    ensures Next(s, a).store == s.store
  {
  }

  lemma SessionNext(s: System, a: Action, id: string)
    requires Indexed(s.store) && !a.Restart?
    ensures SessionEffect(s, a, Next(s, a), id)
  {
    hide SessionEffect;
    match a
    case Grant(t, at) => if Enabled(s, a) { GrantEffect(s, t, at, id); } else { UngrantedEffect(s, a, id); }
    case RequestExtension(x, now) => ExtensionEffect(s, x, now, id);
    case TickBegins(now, order) =>
      if Enabled(s, a) { TickEffect(s, now, order, id); } else { UngrantedEffect(s, a, id); }
    case PopOne => if Enabled(s, a) { PopEffect(s, id); } else { IdleEffect(s, a, s, id); }
    case ManualRevoke(x) => RevokeEffect(s, x, id);
    case WriteBack(call) => if Enabled(s, a) { WriteEffect(s, call, Next(s, a), id); } else { IdleEffect(s, a, s, id); }
    case Restart(_, _) =>
    case _ =>
      BookkeepingKeepsStore(s, a);
      IdleEffect(s, a, Next(s, a), id);
  }

  /** The history and the calls after an action other than a restart. */
  ghost predicate HistoryEffect(s: System, a: Action, r: System) {
    && r.limits == s.limits
    && r.past.granted == (if a.Grant? && Fresh(s, a.t)
                          then s.past.granted[a.t.id := Registered(a.t).originalIssuedAt] else s.past.granted)
    && (forall m :: m in r.past.minted && m !in s.past.minted ==>
          || (a.Grant? && m == Credential(a.t.id, a.t.issuedAt, a.t.expiresAt - a.t.issuedAt))
          || (a.IssueReturns? && a.call.Reissuing? && a.call in s.calls
              && m == Minted(a.call, a.asked, a.at))
          || (a.LateIssue? && a.call.Reissuing? && a.call in s.orphans && m == Minted(a.call, a.asked, a.at)))
    && (forall c :: c in r.orphans ==> c in s.orphans)
    && (forall c :: c in r.calls && c.Reissuing? && c !in s.calls ==>
          && Lengthens(s, a, c.id)
          && c.expiry == NewExpiry(s, a) && c.prior == s.store.toks[c.id].expiresAt
          && (!c.clamped ==> c.expiry == c.prior + c.ttl))
    && (forall c :: c in r.calls && c.Writing? && c !in s.calls ==>
          a.IssueReturns? && a.answer.Some? && c == Writing(a.call.id, a.answer.value))
    && (a.Save? && Enabled(s, a) ==> r.saved == s.store && r.file == a.file)
    && (!a.Save? || !Enabled(s, a) ==> r.saved == s.saved && r.file == s.file)
  }

  lemma GrantHistory(s: System, t: Token, at: Instant)
    requires Indexed(s.store) && Fresh(s, t)
    ensures HistoryEffect(s, Grant(t, at), OnGrant(s, t))
  {
  }

  lemma ExtensionHistory(s: System, id: string, now: Instant)
    ensures HistoryEffect(s, RequestExtension(id, now), OnExtension(s, id, now))
  {
    hide Extend;
  }

  lemma IssueHistory(s: System, call: Call, asked: Instant, at: Instant, answer: Option<string>)
    requires call.Reissuing? && call in s.calls
    ensures HistoryEffect(s, IssueReturns(call, asked, at, answer), OnIssue(s, call, asked, at, answer))
  {
  }

  lemma LateIssueHistory(s: System, call: Call, asked: Instant, at: Instant)
    requires call.Reissuing? && call in s.orphans
    ensures HistoryEffect(s, LateIssue(call, asked, at), OnLateIssue(s, call, asked, at))
  {
  }

  /** An action that records nothing of grants, credentials and saves, and opens no call. */
  lemma OtherHistory(s: System, a: Action, r: System)
    requires !a.Grant? && !a.Save? && !a.RequestExtension?
    requires r.limits == s.limits && r.past.granted == s.past.granted && r.past.minted == s.past.minted
    requires r.calls <= s.calls && r.orphans == s.orphans && r.saved == s.saved && r.file == s.file
    ensures HistoryEffect(s, a, r)
  {
  }

  lemma PopHistory(s: System)
    requires Indexed(s.store) && s.worker.Popping?
    ensures HistoryEffect(s, PopOne, OnPop(s))
  {
    hide PopTop, Inspect;
  }

  lemma SaveHistory(s: System, file: seq<Record>)
    requires Indexed(s.store)
    ensures HistoryEffect(s, Save(file), Next(s, Save(file)))
  {
  }

  lemma DisabledHistory(s: System, a: Action)
    requires !Enabled(s, a)
    ensures HistoryEffect(s, a, s)
  {
  }

  lemma HistoryNext(s: System, a: Action)
    requires Indexed(s.store) && !a.Restart?
    ensures HistoryEffect(s, a, Next(s, a))
  {
    hide HistoryEffect;
    if Enabled(s, a) {
      match a
      case Grant(t, at) => GrantHistory(s, t, at);
      case RequestExtension(id, now) => ExtensionHistory(s, id, now);
      case IssueReturns(call, asked, at, answer) => IssueHistory(s, call, asked, at, answer);
      case LateIssue(call, asked, at) => LateIssueHistory(s, call, asked, at);
      case PopOne => PopHistory(s);
      case Save(file) => SaveHistory(s, file);
      case ManualRevoke(_) => OtherHistory(s, a, Next(s, a));
      case HandOver(_) => OtherHistory(s, a, Next(s, a));
      case WriteBack(_) => OtherHistory(s, a, Next(s, a));
      case TickBegins(_, _) => OtherHistory(s, a, Next(s, a));
      case SendWarning => OtherHistory(s, a, Next(s, a));
      case StartPopping => OtherHistory(s, a, Next(s, a));
    } else {
      DisabledHistory(s, a);
    }
  }
}
