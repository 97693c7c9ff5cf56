/**
 Hand-overs across restarts and failures: when a session can be handed over again, and when it never
 will be.
 */
module HandOvers {
  import opened Clock
  import opened Tokens
  import opened Sections
  import opened Ticks
  import opened Retry
  import opened Recovery
  import opened Protocol
  import opened Effects
  import opened Safety
  import Backoff

  // ---------- At most once over all restarts ----------

  /** Counting every process: one claim at most, and none for a live session. */
  ghost predicate OneClaimEver(s: System, id: string) {
    && s.pending[id] + s.past.handedEver[id] <= 1
    && (s.pending[id] + s.past.handedEver[id] > 0 ==> id in s.past.granted && !Live(s.store, id))
  }

  /** A restart keeps that exactly when the file does not hold live a session already handed over. */
  lemma OneClaimAfterRestartIff(s: System, limits: Limits, at: Instant, id: string)
    requires Sane(s) && Granted(s) && OneClaimEver(s, id)
    ensures OneClaimEver(OnRestart(s, limits, at), id) <==> Admits(Unhanded(id), s, Restart(limits, at))
  {
    hide Recover, Consistent;
    RecoveryRestores(s.saved, s.file, at);
  }

  lemma OneClaimNextIff(s: System, a: Action, id: string)
    requires Sane(s) && Granted(s) && OneClaimEver(s, id)
    ensures OneClaimEver(Next(s, a), id) <==> Admits(Unhanded(id), s, a)
  {
    hide Next, OnRestart, Recover, Snapshot;
    if a.Restart? {
      RestartNext(s, a.limits, a.at);
      OneClaimAfterRestartIff(s, a.limits, a.at, id);
    } else {
      ClaimWhenMarked(s, a, id);
    }
  }

  ghost predicate OneClaimThroughout(s: System, acts: seq<Action>, id: string)
    requires Indexed(s.store)
    decreases |acts|
  {
    OneClaimEver(s, id) && (acts != [] ==> OneClaimThroughout(Next(s, acts[0]), acts[1..], id))
  }

  /** Over any number of restarts a session is claimed at most once, and never again once it has
      been, exactly when no restart of the run reads a file that holds it live after it was handed
      over. */
  lemma {:induction false} OneClaimThroughoutIff(s: System, acts: seq<Action>, id: string)
    requires Sane(s) && Granted(s) && OneClaimEver(s, id)
    ensures OneClaimThroughout(s, acts, id) <==> Allowed(Unhanded(id), s, acts)
    decreases |acts|
  {
    if acts != [] {
      SaneNext(s, acts[0]);
      OneClaimNextIff(s, acts[0], id);
      if OneClaimEver(Next(s, acts[0]), id) {
        OneClaimThroughoutIff(Next(s, acts[0]), acts[1..], id);
      }
    }
  }

  lemma {:induction false} EndsClaimedOnce(s: System, acts: seq<Action>, id: string)
    requires Indexed(s.store) && OneClaimThroughout(s, acts, id)
    ensures OneClaimEver(Run(s, acts), id)
    decreases |acts|
  {
    if acts != [] {
      EndsClaimedOnce(Next(s, acts[0]), acts[1..], id);
    }
  }

  /** From the first start of the broker: on such a run no session is ever handed over twice. */
  lemma RunsNeverRepeat(limits: Limits, at: Instant, acts: seq<Action>, id: string)
    requires Allowed(Unhanded(id), Start(limits, at), acts)
    ensures Run(Start(limits, at), acts).past.handedEver[id] <= 1
  {
    StartIsSane(limits, at);
    OneClaimThroughoutIff(Start(limits, at), acts, id);
    EndsClaimedOnce(Start(limits, at), acts, id);
  }

  // ---------- Handed over again ----------

  /** What hands over a session that is live or claimed. */
  function TakeDown(s: System, id: string): seq<Action> {
    if id in s.pending then [HandOver(id)] else [ManualRevoke(id), HandOver(id)]
  }

  lemma TakenDown(s: System, id: string)
    requires Indexed(s.store) && (id in s.pending || Live(s.store, id))
    ensures Run(s, TakeDown(s, id)).past.handedEver[id] == s.past.handedEver[id] + 1
  {
    hide Run;
    var claimed := if id in s.pending then s else Next(s, ManualRevoke(id));
    assert id in claimed.pending && claimed.past.handedEver == s.past.handedEver;
    RunOne(claimed, HandOver(id), []);
    RunNone(Next(claimed, HandOver(id)));
    assert [HandOver(id)] + [] == [HandOver(id)];
    if id !in s.pending {
      RunOne(s, ManualRevoke(id), [HandOver(id)]);
      assert [ManualRevoke(id)] + [HandOver(id)] == TakeDown(s, id);
    }
  }

  /** What a restart makes of a session: what the file holds live comes back, live or claimed. */
  lemma AfterRestart(s: System, limits: Limits, at: Instant, id: string)
    requires Sane(s)
    ensures var r := OnRestart(s, limits, at);
            && Indexed(r.store) && r.past.handedEver == s.past.handedEver
            && (Live(r.store, id) || id in r.pending <==> Live(s.saved, id))
            && (id in r.past.granted <==> id in s.past.granted)
  {
    RecoveryRestores(s.saved, s.file, at);
  }

  /** A restart from a file that holds live a session already handed over lets the next process hand
      it over again. */
  lemma BehindFileRepeats(s: System, limits: Limits, at: Instant, id: string)
    requires Sane(s) && Granted(s) && !Admits(Unhanded(id), s, Restart(limits, at))
    ensures var r := OnRestart(s, limits, at); Indexed(r.store) && Run(r, TakeDown(r, id)).past.handedEver[id] >= 2
  {
    AfterRestart(s, limits, at, id);
    TakenDown(OnRestart(s, limits, at), id);
  }

  // ---------- Never handed over ----------

  /** Neither memory nor the file can bring the session's hand-over about. */
  ghost predicate Settled(s: System, id: string) {
    id in s.past.granted && !Live(s.store, id) && !Live(s.saved, id) && id !in s.pending
  }

  lemma SettledNext(s: System, a: Action, id: string)
    requires Sane(s) && Granted(s) && Settled(s, id)
    ensures Settled(Next(s, a), id) && Next(s, a).past.handedEver[id] == s.past.handedEver[id]
  {
    hide Next, OnRestart;
    if a.Restart? {
      RestartNext(s, a.limits, a.at);
      RestartKeepsFile(s, a.limits, a.at);
      AfterRestart(s, a.limits, a.at, id);
    } else {
      ClaimWhenMarked(s, a, id);
      HistoryNext(s, a);
    }
  }

  /** A settled session is never handed over any more, over any number of restarts. */
  lemma {:induction false} SettledForever(s: System, acts: seq<Action>, id: string)
    requires Sane(s) && Granted(s) && Settled(s, id)
    ensures Run(s, acts).past.handedEver[id] == s.past.handedEver[id]
    decreases |acts|
  {
    if acts != [] {
      SaneNext(s, acts[0]);
      SettledNext(s, acts[0], id);
      SettledForever(Next(s, acts[0]), acts[1..], id);
    }
  }

  lemma SettledByRestart(s: System, limits: Limits, at: Instant, id: string)
    requires Sane(s) && Granted(s) && id in s.past.granted && !Live(s.saved, id)
    ensures var r := OnRestart(s, limits, at);
            Sane(r) && Granted(r) && Settled(r, id) && r.past.handedEver == s.past.handedEver
  {
    hide OnRestart, Recover;
    SaneNext(s, Restart(limits, at));
    AfterRestart(s, limits, at, id);
    RestartNext(s, limits, at);
    RestartKeepsFile(s, limits, at);
  }

  /**
   What a restart loses. A session granted before the restart is never handed over by any run after
   it exactly when the file does not hold it live: one granted since the file was saved, one marked
   revoked in the file whose hand-over was still to come, and one that was never to be handed over
   again anyway.
   */
  lemma NeverHandedOverAgainIff(s: System, limits: Limits, at: Instant, id: string)
    requires Sane(s) && Granted(s) && id in s.past.granted
    ensures Indexed(OnRestart(s, limits, at).store)
    ensures (forall acts :: Run(OnRestart(s, limits, at), acts).past.handedEver[id] == s.past.handedEver[id])
            <==> !Live(s.saved, id)
  {
    hide Run, OnRestart, Sane, Granted, TakeDown;
    var r := OnRestart(s, limits, at);
    AfterRestart(s, limits, at, id);
    if Live(s.saved, id) {
      TakenDown(r, id);
      assert Run(r, TakeDown(r, id)).past.handedEver[id] != s.past.handedEver[id];
    } else {
      SettledByRestart(s, limits, at, id);
      forall acts ensures Run(r, acts).past.handedEver[id] == s.past.handedEver[id] {
        SettledForever(r, acts, id);
      }
    }
  }

  // ---------- No second try ----------

  /** In one process a session that has been handed over is not handed over again, whatever came of it. */
  lemma {:induction false} HandedOverIsFinal(s: System, acts: seq<Action>, id: string)
    requires Sane(s) && Granted(s) && OneClaimEach(s) && s.past.handed[id] == 1
    requires forall i :: 0 <= i < |acts| ==> !acts[i].Restart?
    ensures Run(s, acts).past.handed[id] == 1
    decreases |acts|
  {
    if acts != [] {
      SaneNext(s, acts[0]);
      OneClaimEachNext(s, acts[0]);
      ClaimWhenMarked(s, acts[0], id);
      assert Claims(Next(s, acts[0]), id) <= 1;
      HandedOverIsFinal(Next(s, acts[0]), acts[1..], id);
    }
  }

  /** A session whose revocation fails on every attempt stays marked revoked, and no later tick hands
      it over again. */
  lemma FailedRevocationNotRetried(s: State, now: Instant, later: Instant, p: Policy, net: Net, id: string)
    requires Consistent(s) && id in RevokeExpired(s, now).handed
    requires forall k :: net.outcome(id, k).Some?
    ensures Revocation(p, net, id).error.Some?
    ensures var next := RevokeExpired(s, now).state;
            && Indexed(next) && id in next.toks && next.toks[id].revoked
            && id !in RevokeExpired(next, later).handed
  {
    var next := RevokeExpired(s, now).state;
    Backoff.CallsAreBounded(WithDefaults(p), net, id, 1);
    TickIsSound(s, now);
    TickIsSound(next, later);
    assert id in multiset(RevokeExpired(s, now).handed);
    assert !Due(next, id, later);
    assert multiset(RevokeExpired(next, later).handed)[id] == 0;
  }
}
