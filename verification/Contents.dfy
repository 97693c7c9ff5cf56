/** What the token of a session holds, over runs and restarts. */
module Contents {
  import opened Clock
  import opened Tokens
  import opened Sections
  import opened Recovery
  import opened Protocol
  import opened Effects
  import opened Safety

  // ---------- Whose it is ----------

  /** Issued to the same user for the same resource, by the same provider, for the same reason, at the
      same instant. */
  predicate SameIdentity(t: Token, u: Token) {
    && u.user == t.user && u.resource == t.resource && u.provider == t.provider && u.issuedAt == t.issuedAt
    && u.justificationType == t.justificationType && u.justificationRef == t.justificationRef
  }

  /** The session is the one granted as `t`, in memory and in the file. */
  ghost predicate Is(s: System, id: string, t: Token) {
    && id in s.past.granted
    && (id in s.store.toks ==> SameIdentity(t, s.store.toks[id]))
    && (id in s.saved.toks ==> SameIdentity(t, s.saved.toks[id]))
  }

  /** A restart changes nothing of a session but the warning flag and, if it was missed, the mark. */
  lemma RestoredKeeps(s: System, limits: Limits, at: Instant, id: string)
    requires Sane(s)
    ensures var r := OnRestart(s, limits, at);
            && r.saved == s.saved && r.past.granted == s.past.granted
            && (id in r.store.toks ==>
                  && id in s.saved.toks
                  && r.store.toks[id] == s.saved.toks[id].(notifiedExpiry := false,
                                                           revoked := s.saved.toks[id].expiresAt < at))
  {
    hide Recover, Snapshot;
    RecoveryRestores(s.saved, s.file, at);
  }

  lemma IsNext(s: System, a: Action, id: string, t: Token)
    requires Sane(s) && Granted(s) && Is(s, id, t)
    ensures Is(Next(s, a), id, t)
  {
    hide Next, OnRestart, Snapshot;
    if a.Restart? {
      RestartNext(s, a.limits, a.at);
      RestoredKeeps(s, a.limits, a.at, id);
    } else {
      SessionNext(s, a, id);
      HistoryNext(s, a);
    }
  }

  lemma {:induction false} StaysWhatItIs(s: System, acts: seq<Action>, id: string, t: Token)
    requires Sane(s) && Granted(s) && Is(s, id, t)
    ensures Is(Run(s, acts), id, t)
    decreases |acts|
  {
    if acts != [] {
      SaneNext(s, acts[0]);
      IsNext(s, acts[0], id, t);
      StaysWhatItIs(Next(s, acts[0]), acts[1..], id, t);
    }
  }

  /** Memory and the file agree on whose each session is. */
  ghost predicate Agreed(s: System) {
    forall id :: id in s.store.toks && id in s.saved.toks ==> SameIdentity(s.saved.toks[id], s.store.toks[id])
  }

  lemma AgreedNext(s: System, a: Action)
    requires Sane(s) && Granted(s) && Agreed(s)
    ensures Agreed(Next(s, a))
  {
    hide Next, OnRestart, Snapshot, Enabled;
    var r := Next(s, a);
    forall id | id in r.store.toks && id in r.saved.toks ensures SameIdentity(r.saved.toks[id], r.store.toks[id]) {
      if a.Restart? {
        RestartNext(s, a.limits, a.at);
        RestoredKeeps(s, a.limits, a.at, id);
      } else {
        SessionNext(s, a, id);
        HistoryNext(s, a);
        SavedNext(s, a);
      }
    }
  }

  lemma SavedNext(s: System, a: Action)
    requires Indexed(s.store) && !a.Restart?
    ensures Next(s, a).saved == s.saved || (Next(s, a).saved == s.store && Next(s, a).store == s.store)
  {
    hide Next, Enabled;
    HistoryNext(s, a);
    if a.Save? {
      BookkeepingKeepsStore(s, a);
    }
  }

  lemma {:induction false} AlwaysAgreed(s: System, acts: seq<Action>)
    requires Sane(s) && Granted(s) && Agreed(s)
    ensures Agreed(Run(s, acts))
    decreases |acts|
  {
    if acts != [] {
      SaneNext(s, acts[0]);
      AgreedNext(s, acts[0]);
      AlwaysAgreed(Next(s, acts[0]), acts[1..]);
    }
  }

  /**
   A session stays what it was granted as. Between any two states of any run from the first start of the
   broker, over extensions, revocations, saves and restarts, a session known in both has the same user,
   resource, provider, justification and issue instant.
   */
  lemma IdentityNeverChanges(limits: Limits, at: Instant, acts: seq<Action>, more: seq<Action>, id: string)
    ensures var s := Run(Start(limits, at), acts); var r := Run(s, more);
            id in s.store.toks && id in r.store.toks ==>
              var t, u := s.store.toks[id], r.store.toks[id];
              && u.user == t.user && u.resource == t.resource && u.provider == t.provider
              && u.justificationType == t.justificationType && u.justificationRef == t.justificationRef
              && u.issuedAt == t.issuedAt
  {
    hide Run, Next;
    var s := Run(Start(limits, at), acts);
    StartIsSane(limits, at);
    NoLiveSessionIsLost(Start(limits, at), acts);
    AlwaysAgreed(Start(limits, at), acts);
    if id in s.store.toks {
      StaysWhatItIs(s, more, id, s.store.toks[id]);
    }
  }

  // ---------- Its secret ----------

  /** The secrets an action brings from the provider for a session. */
  function OfferedBy(a: Action, id: string): set<string> {
    match a
    case Grant(t, _) => if t.id == id then {t.secret} else {}
    case IssueReturns(call, _, _, answer) => if call.id == id && answer.Some? then {answer.value} else {}
    case _ => {}
  }

  function Offered(acts: seq<Action>, id: string): set<string> {
    if acts == [] then {} else OfferedBy(acts[0], id) + Offered(acts[1..], id)
  }

  /** Every secret of the session, in memory, in the file or about to be written, is one of these. */
  ghost predicate SecretsFrom(s: System, id: string, secrets: set<string>) {
    && (id in s.store.toks ==> s.store.toks[id].secret in secrets)
    && (id in s.saved.toks ==> s.saved.toks[id].secret in secrets)
    && (forall c :: c in s.calls && c.Writing? && c.id == id ==> c.secret in secrets)
  }

  lemma SecretsNext(s: System, a: Action, id: string, secrets: set<string>)
    requires Sane(s) && Granted(s) && SecretsFrom(s, id, secrets)
    ensures SecretsFrom(Next(s, a), id, secrets + OfferedBy(a, id))
  {
    hide Next, OnRestart, Snapshot;
    if a.Restart? {
      RestartNext(s, a.limits, a.at);
      RestoredKeeps(s, a.limits, a.at, id);
      RestartDropsCalls(s, a.limits, a.at);
    } else {
      SessionNext(s, a, id);
      HistoryNext(s, a);
    }
  }

  lemma RestartDropsCalls(s: System, limits: Limits, at: Instant)
    ensures OnRestart(s, limits, at).calls == multiset{}
  {
  }

  lemma {:induction false} SecretsComeFrom(s: System, acts: seq<Action>, id: string, secrets: set<string>)
    requires Sane(s) && Granted(s) && SecretsFrom(s, id, secrets)
    ensures SecretsFrom(Run(s, acts), id, secrets + Offered(acts, id))
    decreases |acts|
  {
    if acts == [] {
      assert secrets + Offered(acts, id) == secrets;
    } else {
      SaneNext(s, acts[0]);
      SecretsNext(s, acts[0], id, secrets);
      SecretsComeFrom(Next(s, acts[0]), acts[1..], id, secrets + OfferedBy(acts[0], id));
      assert secrets + OfferedBy(acts[0], id) + Offered(acts[1..], id) == secrets + Offered(acts, id);
    }
  }

  /** Over any run and any restarts a session's secret is the one it was granted with or one that the
      provider answered to a re-issue of it. */
  lemma SecretIsOfferedOne(limits: Limits, at: Instant, acts: seq<Action>, id: string)
    ensures var r := Run(Start(limits, at), acts);
            id in r.store.toks ==> r.store.toks[id].secret in Offered(acts, id)
  {
    hide Run;
    StartIsSane(limits, at);
    SecretsComeFrom(Start(limits, at), acts, id, {});
    assert {} + Offered(acts, id) == Offered(acts, id);
  }

  /** In one process it changes only by a write-back of that session, and to the secret written. */
  lemma SecretChangesByWriteBack(s: System, a: Action, id: string)
    requires Indexed(s.store) && !a.Restart? && id in s.store.toks && id in s.past.granted
    ensures id in Next(s, a).store.toks
    ensures var secret := Next(s, a).store.toks[id].secret;
            secret != s.store.toks[id].secret ==>
              a.WriteBack? && a.call in s.calls && a.call == Writing(id, secret)
  {
    hide Next;
    SessionNext(s, a, id);
  }
}
