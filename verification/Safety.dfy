/** Safety over every run: nothing live is lost, and each session is handed over at most once. */
module Safety {
  import opened Clock
  import opened Tokens
  import opened Sections
  import opened Recovery
  import opened Protocol
  import opened Effects

  /** Memory is consistent, and so was the state the file was written from. */
  ghost predicate Sane(s: System) {
    Consistent(s.store) && Consistent(s.saved) && Snapshot(s.saved.toks, s.file)
  }

  lemma StartIsSane(limits: Limits, at: Instant)
    ensures Sane(Start(limits, at))
  {
  }

  /** Ids in the map have all been granted; across restarts too. */
  ghost predicate Granted(s: System) {
    && (forall id :: id in s.store.toks ==> id in s.past.granted)
    && (forall id :: id in s.saved.toks ==> id in s.past.granted)
  }

  /** No action other than a restart makes the store inconsistent. */
  lemma StoreNext(s: System, a: Action)
    requires Consistent(s.store) && Granted(s) && !a.Restart?
    ensures Consistent(Next(s, a).store)
  {
    if Enabled(s, a) {
      match a
      case Grant(t, _) => AddConsistent(s.store, t);
      case ManualRevoke(id) =>
        if Live(s.store, id) { ClaimConsistent(s.store, id); }
      case RequestExtension(id, now) => ExtendConsistent(s.store, id, s.limits, now);
      case WriteBack(call) => WriteSecretConsistent(s.store, call.id, call.secret);
      case TickBegins(now, _) => WarnConsistent(s.store, s.limits, now);
      case PopOne => PopTopConsistent(s.store, s.worker.now);
      case _ =>
    }
  }

  lemma GrantedNext(s: System, a: Action)
    requires Indexed(s.store) && Granted(s) && !a.Restart?
    ensures Granted(Next(s, a))
  {
    hide Next;
    HistoryNext(s, a);
    forall id | id in Next(s, a).store.toks ensures id in Next(s, a).past.granted {
      SessionNext(s, a, id);
    }
  }

  lemma RestartIsSane(s: System, limits: Limits, at: Instant)
    requires Sane(s) && Granted(s)
    ensures Sane(OnRestart(s, limits, at)) && Granted(OnRestart(s, limits, at))
  {
    hide Recover;
    RecoveryRestores(s.saved, s.file, at);
  }

  lemma SaneAction(s: System, a: Action)
    requires Sane(s) && Granted(s) && !a.Restart?
    ensures Sane(Next(s, a)) && Granted(Next(s, a))
  {
    hide Next, Snapshot, RevokedIds, Fresh, Lengthens, NewExpiry;
    StoreNext(s, a);
    GrantedNext(s, a);
    HistoryNext(s, a);
  }

  lemma SaneNext(s: System, a: Action)
    requires Sane(s) && Granted(s)
    ensures Sane(Next(s, a)) && Granted(Next(s, a))
  {
    hide Next, Snapshot, OnRestart;
    if a.Restart? {
      RestartNext(s, a.limits, a.at);
      RestartIsSane(s, a.limits, a.at);
    } else {
      SaneAction(s, a);
    }
  }

  /** No live session is lost: in every state of every run the map and the heap agree. */
  lemma {:induction false} NoLiveSessionIsLost(s: System, acts: seq<Action>)
    requires Sane(s) && Granted(s)
    ensures Sane(Run(s, acts)) && Granted(Run(s, acts))
    decreases |acts|
  {
    if acts != [] {
      SaneNext(s, acts[0]);
      NoLiveSessionIsLost(Next(s, acts[0]), acts[1..]);
    }
  }

  /** Memory knows every session that the file holds live. */
  ghost predicate FileKnown(s: System) {
    forall id :: Live(s.saved, id) ==> id in s.store.toks
  }

  lemma FileKnownNext(s: System, a: Action)
    requires Sane(s) && Granted(s) && FileKnown(s)
    ensures FileKnown(Next(s, a))
  {
    hide Next;
    if a.Restart? {
      hide Recover;
      RestartNext(s, a.limits, a.at);
      RecoveryRestores(s.saved, s.file, a.at);
    } else {
      HistoryNext(s, a);
      forall id | Live(Next(s, a).saved, id) ensures id in Next(s, a).store.toks {
        SessionNext(s, a, id);
      }
    }
  }

  // ---------- Exactly one hand-over ----------

  /** In this process a session has been claimed, and is handed over or about to be, exactly once
      if it is revoked and not at all if it is not. */
  ghost predicate OneClaimEach(s: System) {
    forall id :: Claims(s, id) == if Marked(s, id) then 1 else 0
  }

  predicate Marked(s: System, id: string) {
    id in s.store.toks && s.store.toks[id].revoked
  }

  function Claims(s: System, id: string): nat {
    s.pending[id] + s.past.handed[id]
  }

  /** Claiming and marking go together, one session at a time, and no mark is ever taken back. */
  ghost predicate ClaimedAsMarked(s: System, r: System, id: string) {
    && (Marked(s, id) ==> Marked(r, id))
    && Claims(r, id) == Claims(s, id) + (if Marked(r, id) && !Marked(s, id) then 1 else 0)
    && s.past.handed[id] <= r.past.handed[id]
    && r.past.handedEver[id] + s.past.handed[id] == s.past.handedEver[id] + r.past.handed[id]
    && (Marked(r, id) && !Marked(s, id) ==> Live(s.store, id))
    && (Live(r.store, id) && !Live(s.store, id) ==> id !in s.past.granted)
    && (id in s.past.granted ==> id in r.past.granted)
  }

  lemma ClaimOnGrant(s: System, t: Token, id: string)
    requires Indexed(s.store) && t.id !in s.store.toks && t.id !in s.past.granted && !t.revoked
    ensures ClaimedAsMarked(s, OnGrant(s, t), id)
  {
  }

  lemma ClaimOnRequest(s: System, x: string, now: Instant, id: string)
    ensures ClaimedAsMarked(s, OnRevoke(s, x), id)
    ensures ClaimedAsMarked(s, OnExtension(s, x, now), id)
  {
  }

  lemma ClaimOnCall(s: System, x: string, call: Call, asked: Instant, at: Instant,
                    answer: Option<string>, id: string)
    ensures x in s.pending ==> ClaimedAsMarked(s, OnHandOver(s, x), id)
    ensures call.Reissuing? ==> ClaimedAsMarked(s, OnIssue(s, call, asked, at, answer), id)
  {
  }

  lemma ClaimOnLateIssue(s: System, call: Call, asked: Instant, at: Instant, id: string)
    requires call.Reissuing?
    ensures ClaimedAsMarked(s, OnLateIssue(s, call, asked, at), id)
  {
  }

  lemma ClaimOnTick(s: System, now: Instant, order: seq<string>, id: string)
    ensures ClaimedAsMarked(s, OnTick(s, now, order), id)
  {
  }

  lemma ClaimOnPop(s: System, id: string)
    requires Indexed(s.store) && s.worker.Popping?
    ensures ClaimedAsMarked(s, OnPop(s), id)
  {
    hide PopTop;
    PopTopOnlyMarks(s.store, s.worker.now);
  }

  lemma ClaimWhenMarked(s: System, a: Action, id: string)
    requires Indexed(s.store) && Granted(s) && !a.Restart?
    ensures ClaimedAsMarked(s, Next(s, a), id)
  {
    if Enabled(s, a) {
      match a
      case Grant(t, _) => ClaimOnGrant(s, t, id);
      case ManualRevoke(x) => ClaimOnRequest(s, x, 0, id);
      case RequestExtension(x, now) => ClaimOnRequest(s, x, now, id);
      case HandOver(x) => ClaimOnCall(s, x, Writing("", ""), 0, 0, None, id);
      case IssueReturns(call, asked, at, answer) => ClaimOnCall(s, "", call, asked, at, answer, id);
      case LateIssue(call, asked, at) => ClaimOnLateIssue(s, call, asked, at, id);
      case TickBegins(now, order) => ClaimOnTick(s, now, order, id);
      case PopOne => ClaimOnPop(s, id);
      case _ =>
    }
  }

  /** Recovery hands over exactly the sessions it enters as revoked. */
  lemma ClaimsAfterRestart(s: System, limits: Limits, at: Instant)
    requires Sane(s)
    ensures OneClaimEach(OnRestart(s, limits, at))
  {
    RecoveryRestores(s.saved, s.file, at);
    var r := Recover(s.file, at);
    forall id ensures multiset(r.handed)[id] == if id in r.state.toks && r.state.toks[id].revoked then 1 else 0 {
      assert id in r.state.toks <==> Live(s.saved, id);
    }
  }

  lemma OneClaimEachNext(s: System, a: Action)
    requires Sane(s) && Granted(s) && OneClaimEach(s)
    ensures OneClaimEach(Next(s, a))
  {
    hide Next, OnRestart, Snapshot;
    if a.Restart? {
      RestartNext(s, a.limits, a.at);
      ClaimsAfterRestart(s, a.limits, a.at);
    } else {
      forall id ensures Claims(Next(s, a), id) == if Marked(Next(s, a), id) then 1 else 0 {
        ClaimWhenMarked(s, a, id);
      }
    }
  }

  /**
   Exactly-once hand-over under every interleaving. At any moment of any run, the number of times a
   session has been or is about to be handed to the revoker since the process started is one if it
   is marked revoked and zero otherwise, and `revokedCount` counts the sessions so marked.
   */
  lemma {:induction false} HandedOverExactlyOnce(s: System, acts: seq<Action>)
    requires Sane(s) && Granted(s) && OneClaimEach(s)
    ensures OneClaimEach(Run(s, acts))
    ensures Run(s, acts).store.revokedCount == |RevokedIds(Run(s, acts).store.toks)|
    decreases |acts|
  {
    NoLiveSessionIsLost(s, acts);
    if acts != [] {
      SaneNext(s, acts[0]);
      OneClaimEachNext(s, acts[0]);
      HandedOverExactlyOnce(Next(s, acts[0]), acts[1..]);
    }
  }

  /** From the first start of the broker: in every state of every run nothing live is missing from
      the heap, and no session has been handed over twice by the running process. */
  lemma EveryRunIsSafe(limits: Limits, at: Instant, acts: seq<Action>)
    ensures var r := Run(Start(limits, at), acts);
            && Consistent(r.store)
            && (forall id :: r.past.handed[id] <= 1)
            && (forall id :: Marked(r, id) <==> r.pending[id] + r.past.handed[id] == 1)
            && (forall id :: !Marked(r, id) <==> r.pending[id] + r.past.handed[id] == 0)
  {
    var s, r := Start(limits, at), Run(Start(limits, at), acts);
    StartIsSane(limits, at);
    NoLiveSessionIsLost(s, acts);
    HandedOverExactlyOnce(s, acts);
    forall id
      ensures r.past.handed[id] <= 1
      ensures Marked(r, id) <==> r.pending[id] + r.past.handed[id] == 1
      ensures !Marked(r, id) <==> r.pending[id] + r.past.handed[id] == 0
    {
      assert Claims(r, id) == if Marked(r, id) then 1 else 0;
    }
  }
}
