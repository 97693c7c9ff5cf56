/** When every tick of a run is on time: exactly when no extension has disordered the heap. */
module Timeliness {
  import opened Clock
  import opened Tokens
  import opened ExpiryHeap
  import opened Sections
  import opened Ticks
  import opened Extensions
  import opened Disorder
  import opened Recovery
  import opened Protocol
  import opened Effects
  import opened Safety

  /** The new expiry of an extended session lies between those around it in the heap. */
  ghost predicate FitsSlot(s: State, id: string, expiry: Instant)
    requires Indexed(s)
  {
    forall slot :: 0 <= slot < |s.heap| && s.heap[slot] == id ==>
      && (slot > 0 ==> s.toks[s.heap[Parent(slot)]].expiresAt <= expiry)
      && (forall k :: 0 < k < |s.heap| && Parent(k) == slot ==> expiry <= s.toks[s.heap[k]].expiresAt)
  }

  /** An action that extends no session out of its place in the heap. */
  ghost predicate Fitting(s: System, a: Action)
    requires Indexed(s.store)
  {
    a.RequestExtension? && Lengthens(s, a, a.id) ==> FitsSlot(s.store, a.id, NewExpiry(s, a))
  }

  ghost predicate InOrder(s: State)
    requires Indexed(s)
  {
    Ordered(s.toks, s.heap)
  }

  lemma SameExpiriesInOrder(s: State, r: State)
    requires Indexed(s) && Indexed(r) && r.heap == s.heap && InOrder(s)
    requires forall id :: id in s.toks ==> id in r.toks && r.toks[id].expiresAt == s.toks[id].expiresAt
    ensures InOrder(r)
  {
  }

  lemma PopInOrder(s: System)
    requires Indexed(s.store) && s.worker.Popping? && InOrder(s.store)
    ensures InOrder(OnPop(s).store)
  {
    var now := s.worker.now;
    if !Inspect(s.store, now).Done? {
      PopKeepsOrder(s.store.toks, s.store.heap);
      var popped := s.store.(heap := Pop(s.store.toks, s.store.heap));
      SameExpiriesInOrder(popped, PopTop(s.store, now));
    }
  }

  lemma ExtensionInOrderIff(s: System, id: string, now: Instant)
    requires Consistent(s.store) && InOrder(s.store)
    ensures Indexed(OnExtension(s, id, now).store)
    ensures InOrder(OnExtension(s, id, now).store) <==> Fitting(s, RequestExtension(id, now))
  {
    hide Ordered, SessionEffect;
    var a, r := RequestExtension(id, now), OnExtension(s, id, now);
    if Lengthens(s, a, id) {
      assert id in multiset(s.store.heap);
      var slot :| 0 <= slot < |s.store.heap| && s.store.heap[slot] == id;
      ExtensionKeepsOrderIff(s.store, id, s.limits, now, slot);
      forall k | 0 <= k < |s.store.heap| && s.store.heap[k] == id ensures k == slot {
        if k != slot {
          NoRepeats(s.store.heap, k, slot);
        }
      }
    } else {
      ExtensionEffectOnAll(s, id, now);
      SameExpiriesInOrder(s.store, r.store);
    }
  }

  lemma ExtensionEffectOnAll(s: System, x: string, now: Instant)
    requires !Lengthens(s, RequestExtension(x, now), x)
    ensures OnExtension(s, x, now).store.heap == s.store.heap
    ensures forall id :: id in s.store.toks ==>
              id in OnExtension(s, x, now).store.toks
              && OnExtension(s, x, now).store.toks[id].expiresAt == s.store.toks[id].expiresAt
  {
  }

  lemma OtherInOrder(s: System, a: Action)
    requires Indexed(s.store) && InOrder(s.store)
    requires !a.Grant? && !a.PopOne? && !a.Restart? && !a.RequestExtension?
    ensures InOrder(Next(s, a).store)
  {
  }

  /** From an ordered heap, an action leads to an ordered heap exactly when it is fitting. */
  lemma InOrderNextIff(s: System, a: Action)
    requires Sane(s) && Granted(s) && InOrder(s.store)
    ensures InOrder(Next(s, a).store) <==> Fitting(s, a)
  {
    if !Enabled(s, a) {
      assert !a.RequestExtension?;
    } else {
      match a
      case Grant(t, _) => AddKeepsOrder(s.store, t);
      case RequestExtension(id, now) => ExtensionInOrderIff(s, id, now);
      case PopOne => PopInOrder(s);
      case Restart(_, at) => RecoveryRestores(s.saved, s.file, at);
      case _ => OtherInOrder(s, a);
    }
  }

  ghost predicate AlwaysInOrder(s: System, acts: seq<Action>)
    requires Indexed(s.store)
    decreases |acts|
  {
    InOrder(s.store) && (acts != [] ==> AlwaysInOrder(Next(s, acts[0]), acts[1..]))
  }

  ghost predicate AlwaysFitting(s: System, acts: seq<Action>)
    requires Indexed(s.store)
    decreases |acts|
  {
    acts != [] ==> Fitting(s, acts[0]) && AlwaysFitting(Next(s, acts[0]), acts[1..])
  }

  /**
   The heap is ordered in every state of a run exactly when every extension of the run puts the
   session's expiry where its slot allows. Grants, revocations, pops, warnings, write-backs, saves
   and restarts, in any interleaving, never disorder it.
   */
  lemma {:induction false} OrderedThroughoutIff(s: System, acts: seq<Action>)
    requires Sane(s) && Granted(s) && InOrder(s.store)
    ensures AlwaysInOrder(s, acts) <==> AlwaysFitting(s, acts)
    decreases |acts|
  {
    if acts != [] {
      var next := Next(s, acts[0]);
      SaneNext(s, acts[0]);
      InOrderNextIff(s, acts[0]);
      if InOrder(next.store) {
        OrderedThroughoutIff(next, acts[1..]);
      }
    }
  }

  /** In every state of the run no tick leaves a live session past its expiry, whatever sessions of at
      most `ttl` are granted before it. */
  ghost predicate NeverLate(s: System, acts: seq<Action>, ttl: Duration)
    requires Indexed(s.store)
    decreases |acts|
  {
    NothingLateWhateverComes(s.store, ttl) && (acts != [] ==> NeverLate(Next(s, acts[0]), acts[1..], ttl))
  }

  /** In every state of the run every tick is complete, whatever sessions of any life are granted. */
  ghost predicate AlwaysOnTime(s: System, acts: seq<Action>)
    requires Indexed(s.store)
    decreases |acts|
  {
    OnTimeWhateverComes(s.store) && (acts != [] ==> AlwaysOnTime(Next(s, acts[0]), acts[1..]))
  }

  lemma {:induction false} InOrderIsOnTime(s: System, acts: seq<Action>, ttl: Duration)
    requires Sane(s) && Granted(s) && ttl > 0
    ensures AlwaysInOrder(s, acts) <==> NeverLate(s, acts, ttl)
    ensures AlwaysInOrder(s, acts) <==> AlwaysOnTime(s, acts)
    decreases |acts|
  {
    hide OnTimeWhateverComes, NothingLateWhateverComes;
    OrderedIffNothingLateWhateverComes(s.store, ttl);
    if acts != [] {
      SaneNext(s, acts[0]);
      InOrderIsOnTime(Next(s, acts[0]), acts[1..], ttl);
    }
  }

  /**
   Ticks on time, over whole runs. From the first start of the broker, in every state of a run no tick
   leaves a live session past its expiry, whatever sessions of at most `ttl` are granted before it,
   exactly when every extension of the run fits its slot; and then every tick is complete and on time.
   */
  lemma TicksOnTimeIff(limits: Limits, at: Instant, acts: seq<Action>, ttl: Duration)
    requires ttl > 0
    ensures NeverLate(Start(limits, at), acts, ttl) <==> AlwaysFitting(Start(limits, at), acts)
    ensures AlwaysOnTime(Start(limits, at), acts) <==> AlwaysFitting(Start(limits, at), acts)
  {
    StartIsSane(limits, at);
    OrderedThroughoutIff(Start(limits, at), acts);
    InOrderIsOnTime(Start(limits, at), acts, ttl);
  }

  // ---------- The worker's loop ----------

  /** The rounds of the pop loop on a store that nobody else touches meanwhile. */
  function Rounds(s: State, now: Instant): nat
    requires Indexed(s)
    decreases |s.heap|
  {
    if Inspect(s, now).Done? then 1 else 1 + Rounds(PopTop(s, now), now)
  }

  lemma OneRound(s: System)
    requires Indexed(s.store) && s.worker.Popping? && !Inspect(s.store, s.worker.now).Done?
    ensures Next(s, PopOne)
            == s.(store := PopTop(s.store, s.worker.now),
                  pending := s.pending + multiset(ClaimedIn(Inspect(s.store, s.worker.now))))
  {
    hide PopTop;
    assert s.pending + multiset{} == s.pending;
  }

  /** What the worker's rounds leave of a system, given the sweep they make. */
  function AfterSweep(s: System, swept: Swept): System {
    s.(store := swept.state, pending := s.pending + multiset(swept.handed), worker := Idle)
  }

  lemma SweepAfterRound(s: System, next: System, claimed: seq<string>, rest: Swept)
    requires next == s.(store := next.store, pending := s.pending + multiset(claimed))
    ensures AfterSweep(next, rest) == AfterSweep(s, Swept(rest.state, claimed + rest.handed))
  {
  }

  function Pops(n: nat): seq<Action> {
    if n == 0 then [] else [PopOne] + Pops(n - 1)
  }

  lemma LastRound(s: System)
    requires Indexed(s.store) && s.worker.Popping? && Inspect(s.store, s.worker.now).Done?
    ensures Run(s, Pops(Rounds(s.store, s.worker.now))) == s.(worker := Idle)
    ensures RevokeExpired(s.store, s.worker.now) == Swept(s.store, [])
  {
    hide Run;
    assert Pops(1) == [PopOne] + Pops(0);
    RunOne(s, PopOne, []);
    RunNone(Next(s, PopOne));
  }

  lemma FirstRound(s: System)
    requires Indexed(s.store) && s.worker.Popping? && !Inspect(s.store, s.worker.now).Done?
    ensures var now := s.worker.now; var n := Rounds(PopTop(s.store, now), now);
            Run(s, Pops(Rounds(s.store, now))) == Run(Next(s, PopOne), Pops(n))
  {
    hide Run, Next, PopTop, Inspect;
    RunOne(s, PopOne, Pops(Rounds(PopTop(s.store, s.worker.now), s.worker.now)));
  }

  /** The worker's rounds, run without interruption, are the pop loop of the sequential store. */
  lemma {:induction false} UninterruptedTick(s: System)
    requires Indexed(s.store) && s.worker.Popping?
    ensures Run(s, Pops(Rounds(s.store, s.worker.now))) == AfterSweep(s, RevokeExpired(s.store, s.worker.now))
    decreases |s.store.heap|
  {
    hide Next, PopTop, Inspect, Run, Pops, Rounds, RevokeExpired;
    var now := s.worker.now;
    if Inspect(s.store, now).Done? {
      LastRound(s);
      assert s.pending + multiset{} == s.pending;
    } else {
      var next := Next(s, PopOne);
      OneRound(s);
      FirstRound(s);
      SweepUnfolds(s.store, now);
      PopTopShrinks(s.store, now);
      UninterruptedTick(next);
      SweepAfterRound(s, next, ClaimedIn(Inspect(s.store, now)), RevokeExpired(next.store, now));
    }
  }
}
