/** Rebuilding the map and the heap from the state file, and how that commutes with a tick. */
module Recovery {
  import opened Clock
  import opened Tokens
  import opened ExpiryHeap
  import opened Sections
  import opened Ticks
  import opened Persistence

  /** Adding the records that have neither expired nor an entry in the map, in file order. */
  function ReadmitInto(s0: State, rs: seq<Record>, now: Instant): (s: State)
    requires Indexed(s0)
    ensures Indexed(s)
  {
    if rs == [] then s0
    else
      var s, r := ReadmitInto(s0, rs[..|rs| - 1], now), rs[|rs| - 1];
      if r.revoked || r.expiresAt < now || r.id in s.toks then s else Add(s, ToToken(r))
  }

  /** ... to the store of a process that starts. */
  function Readmit(rs: seq<Record>, now: Instant): (s: State)
    ensures Indexed(s)
  {
    ReadmitInto(EMPTY, rs, now)
  }

  /** A missed record enters the map as a revoked session, without a heap entry. */
  function Enter(s: State, r: Record): State {
    State(s.toks[r.id := ToToken(r).(revoked := true)], s.heap, s.revokedCount + 1)
  }

  /** Entering the missed records, in file order. */
  function EnterMissed(s: State, missed: seq<Record>): (r: State)
    ensures Indexed(s) ==> Indexed(r)
  {
    if missed == [] then s
    else Enter(EnterMissed(s, missed[..|missed| - 1]), missed[|missed| - 1])
  }

  function Ids(rs: seq<Record>): (ids: seq<string>)
    ensures |ids| == |rs| && forall i :: 0 <= i < |rs| ==> ids[i] == rs[i].id
  {
    seq(|rs|, i requires 0 <= i < |rs| => rs[i].id)
  }

  /** The state that recovery into `s0` leaves, and the ids handed over for revocation, in order. */
  function RecoverInto(s0: State, file: seq<Record>, now: Instant): (r: Swept)
    requires Indexed(s0)
    ensures Indexed(r.state)
  {
    var active := Active(file);
    var missed := AllMissed(active, now);
    Swept(EnterMissed(ReadmitInto(s0, active, now), missed), Ids(missed))
  }

  /** ... at the start of a process. */
  function Recover(file: seq<Record>, now: Instant): (r: Swept)
    ensures Indexed(r.state)
  {
    RecoverInto(EMPTY, file, now)
  }

  /** Records that can be read back faithfully. */
  ghost predicate Faithful(rs: seq<Record>) {
    && DistinctIds(rs)
    && forall i :: 0 <= i < |rs| ==> Registered(ToToken(rs[i])) == ToToken(rs[i])
  }

  predicate Kept(r: Record, now: Instant) {
    !r.revoked && now <= r.expiresAt
  }

  function KeptIds(rs: seq<Record>, now: Instant): set<string> {
    set i | 0 <= i < |rs| && Kept(rs[i], now) :: rs[i].id
  }

  /** The map holds exactly the unexpired records, each as it was written. */
  ghost predicate Tabulates(rs: seq<Record>, now: Instant, toks: Sessions) {
    && toks.Keys == KeptIds(rs, now)
    && forall i :: 0 <= i < |rs| && Kept(rs[i], now) ==> toks[rs[i].id] == ToToken(rs[i])
  }

  /** What re-adding a faithful list of records builds. */
  ghost predicate Readmitted(rs: seq<Record>, now: Instant, s: State) {
    && Consistent(s)
    && s.revokedCount == 0
    && Ordered(s.toks, s.heap)
    && Tabulates(rs, now, s.toks)
  }

  lemma {:induction false} ReadmitBuilds(rs: seq<Record>, now: Instant)
    requires Faithful(rs)
    ensures Readmitted(rs, now, Readmit(rs, now))
  {
    if rs == [] {
      assert RevokedIds(EMPTY.toks) == {};
    } else {
      ReadmitBuilds(rs[..|rs| - 1], now);
      OneMoreReadmitted(rs, now, Readmit(rs[..|rs| - 1], now));
    }
  }

  lemma LastId(rs: seq<Record>, now: Instant)
    requires rs != []
    ensures var front, r := rs[..|rs| - 1], rs[|rs| - 1];
            KeptIds(rs, now) == KeptIds(front, now) + if Kept(r, now) then {r.id} else {}
  {
  }

  lemma TableGrows(rs: seq<Record>, now: Instant, toks: Sessions)
    requires rs != [] && DistinctIds(rs) && Tabulates(rs[..|rs| - 1], now, toks)
    ensures var r := rs[|rs| - 1];
            && r.id !in toks
            && Tabulates(rs, now, if Kept(r, now) then toks[r.id := ToToken(r)] else toks)
  {
    var front, r := rs[..|rs| - 1], rs[|rs| - 1];
    LastId(rs, now);
    assert r.id !in KeptIds(front, now);
    forall i | 0 <= i < |front| && Kept(rs[i], now)
      ensures rs[i].id in toks && rs[i].id != r.id && toks[rs[i].id] == ToToken(rs[i])
    {
      assert rs[i] == front[i];
    }
  }

  lemma OneMoreReadmitted(rs: seq<Record>, now: Instant, prior: State)
    requires rs != [] && Faithful(rs) && Readmitted(rs[..|rs| - 1], now, prior)
    ensures rs[|rs| - 1].id !in prior.toks
    ensures Readmitted(rs, now, if Kept(rs[|rs| - 1], now) then Add(prior, ToToken(rs[|rs| - 1])) else prior)
  {
    var r := rs[|rs| - 1];
    TableGrows(rs, now, prior.toks);
    if Kept(r, now) {
      AddConsistent(prior, ToToken(r));
      AddKeepsOrder(prior, ToToken(r));
      assert Add(prior, ToToken(r)).toks == prior.toks[r.id := ToToken(r)];
    }
  }

  /** Registering a fresh session keeps the heap ordered. */
  lemma AddKeepsOrder(s: State, t: Token)
    requires Indexed(s) && Ordered(s.toks, s.heap) && t.id !in s.toks
    ensures Ordered(Add(s, t).toks, Add(s, t).heap)
  {
    var toks := s.toks[t.id := Registered(t)];
    assert forall k :: 0 < k < |s.heap| ==> !Less(s.toks, s.heap[k], s.heap[Parent(k)]);
    assert Ordered(toks, s.heap);
    PushKeepsOrder(toks, s.heap, t.id);
  }

  // ---------- Missed expirations ----------

  function IdSet(rs: seq<Record>): set<string> {
    set i | 0 <= i < |rs| :: rs[i].id
  }

  /** Entering missed records adds them as revoked sessions and leaves the rest alone. */
  ghost predicate Entered(toks: Sessions, missed: seq<Record>, after: Sessions) {
    && after.Keys == toks.Keys + IdSet(missed)
    && (forall id :: id in toks ==> after[id] == toks[id])
    && (forall i :: 0 <= i < |missed| ==> after[missed[i].id] == ToToken(missed[i]).(revoked := true))
  }

  lemma OneMoreEntered(toks: Sessions, missed: seq<Record>, prior: Sessions)
    requires missed != [] && DistinctIds(missed) && IdSet(missed) !! toks.Keys
    requires Entered(toks, missed[..|missed| - 1], prior)
    ensures var r := missed[|missed| - 1];
            r.id !in prior && Entered(toks, missed, prior[r.id := ToToken(r).(revoked := true)])
  {
    var front, r := missed[..|missed| - 1], missed[|missed| - 1];
    assert forall i :: 0 <= i < |front| ==> front[i] == missed[i];
    assert r.id in IdSet(missed);
    assert IdSet(missed) == IdSet(front) + {r.id};
    forall i | 0 <= i < |front|
      ensures missed[i].id in prior && prior[missed[i].id] == ToToken(missed[i]).(revoked := true)
    {
      assert front[i].id in IdSet(front);
    }
  }

  lemma {:induction false} MissedAreEntered(s: State, missed: seq<Record>)
    requires Consistent(s) && Faithful(missed) && IdSet(missed) !! s.toks.Keys
    ensures Consistent(EnterMissed(s, missed))
    ensures EnterMissed(s, missed).heap == s.heap
    ensures Entered(s.toks, missed, EnterMissed(s, missed).toks)
  {
    if missed != [] {
      var front, r := missed[..|missed| - 1], missed[|missed| - 1];
      assert IdSet(front) <= IdSet(missed) by {
        assert forall i :: 0 <= i < |front| ==> front[i] == missed[i];
      }
      MissedAreEntered(s, front);
      var prior := EnterMissed(s, front);
      OneMoreEntered(s.toks, missed, prior.toks);
      EnterConsistent(prior, ToToken(r));
    }
  }

  /** A revoked session may enter the map without a heap entry. */
  lemma EnterConsistent(s: State, t: Token)
    requires Consistent(s) && t.id !in s.toks && Registered(t) == t
    ensures Consistent(State(s.toks[t.id := t.(revoked := true)], s.heap, s.revokedCount + 1))
  {
    var r := State(s.toks[t.id := t.(revoked := true)], s.heap, s.revokedCount + 1);
    assert RevokedIds(r.toks) == RevokedIds(s.toks) + {t.id};
    assert forall id :: Live(r, id) ==> Live(s, id);
  }

  lemma ReadmitOneMore(s0: State, rs: seq<Record>, now: Instant, i: nat)
    requires Indexed(s0) && i < |rs|
    ensures var s, r := ReadmitInto(s0, rs[..i], now), rs[i];
            ReadmitInto(s0, rs[..i + 1], now)
            == if r.revoked || r.expiresAt < now || r.id in s.toks then s else Add(s, ToToken(r))
  {
    assert rs[..i + 1][..i] == rs[..i];
  }

  lemma EnterOneMore(s: State, missed: seq<Record>, i: nat)
    requires i < |missed|
    ensures EnterMissed(s, missed[..i + 1]) == Enter(EnterMissed(s, missed[..i]), missed[i])
    ensures Ids(missed[..i + 1]) == Ids(missed[..i]) + [missed[i].id]
  {
    assert missed[..i + 1][..i] == missed[..i];
  }

  /** Whatever the file holds, recovery re-adds only kept records. */
  lemma {:induction false} ReadmitOnlyKept(rs: seq<Record>, now: Instant)
    ensures Readmit(rs, now).toks.Keys <= KeptIds(rs, now)
    ensures forall id :: id in Readmit(rs, now).heap ==> id in KeptIds(rs, now)
  {
    if rs != [] {
      var s, r := Readmit(rs[..|rs| - 1], now), rs[|rs| - 1];
      ReadmitOnlyKept(rs[..|rs| - 1], now);
      LastId(rs, now);
      if Kept(r, now) && r.id !in s.toks {
        forall id | id in Add(s, ToToken(r)).heap ensures id in KeptIds(rs, now) {
          assert id in multiset(s.heap) + multiset{r.id};
        }
      }
    }
  }

  /** From a file without repeated ids, such as PersistAll writes, no missed session is in the heap that
      recovery builds at the start of a process. */
  lemma NoneMissedInHeap(file: seq<Record>, now: Instant)
    requires DistinctIds(file)
    ensures var missed := AllMissed(Active(file), now); var heap := ReadmitInto(EMPTY, Active(file), now).heap;
            forall i, k :: 0 <= i < |heap| && 0 <= k < |missed| ==> heap[i] != missed[k].id
  {
    FiltersKeepDistinct(file, now);
    ReadmitOnlyKept(Active(file), now);
    var missed, heap := AllMissed(Active(file), now), Readmit(Active(file), now).heap;
    forall i, k | 0 <= i < |heap| && 0 <= k < |missed| ensures heap[i] != missed[k].id {
      assert heap[i] in KeptIds(Active(file), now);
    }
  }

  // ---------- Restart against tick ----------

  /** Every record was written from the session of its id. */
  ghost predicate WrittenFrom(toks: Sessions, rs: seq<Record>) {
    forall i :: 0 <= i < |rs| ==> rs[i].id in toks && rs[i] == ToRecord(toks[rs[i].id])
  }

  /** The file holds one record for each session of the map, in some order. */
  ghost predicate Snapshot(toks: Sessions, file: seq<Record>) {
    && DistinctIds(file)
    && WrittenFrom(toks, file)
    && forall id :: id in toks ==> ToRecord(toks[id]) in file
  }

  /** The sessions a restart at `now` brings back: those not revoked, without their warning flag,
      and revoked if they expired before `now`. */
  function Restored(toks: Sessions, now: Instant): Sessions {
    map id | id in toks && !toks[id].revoked ::
      if toks[id].expiresAt < now then Unwarned(toks[id]).(revoked := true) else Unwarned(toks[id])
  }

  lemma WrittenFromIsFaithful(s: State, rs: seq<Record>)
    requires Consistent(s) && WrittenFrom(s.toks, rs) && DistinctIds(rs)
    ensures Faithful(rs)
  {
  }

  /** Which sessions the two loops of recovery pick up. */
  lemma RecordsPickedUp(s: State, file: seq<Record>, now: Instant)
    requires Consistent(s) && Snapshot(s.toks, file)
    ensures WrittenFrom(s.toks, Active(file)) && WrittenFrom(s.toks, AllMissed(Active(file), now))
    ensures forall id :: id in KeptIds(Active(file), now) <==> Live(s, id) && now <= s.toks[id].expiresAt
    ensures forall id :: id in IdSet(AllMissed(Active(file), now)) <==> Live(s, id) && s.toks[id].expiresAt < now
  {
  }

  /**
   Recovery from a snapshot, in whatever order it was written, restores the live sessions, hands
   over each one that expired before `now` exactly once, and builds a consistent and ordered heap
   even when the saved store's heap had lost its order.
   */
  lemma RecoveryRestores(s: State, file: seq<Record>, now: Instant)
    requires Consistent(s) && Snapshot(s.toks, file)
    ensures var r := Recover(file, now);
            && Consistent(r.state) && Ordered(r.state.toks, r.state.heap)
            && r.state.toks == Restored(s.toks, now)
            && (forall id :: multiset(r.handed)[id] == if Live(s, id) && s.toks[id].expiresAt < now then 1 else 0)
  {
    var active := Active(file);
    var missed := AllMissed(active, now);
    var kept := Readmit(active, now);
    var r := Recover(file, now);
    RecordsPickedUp(s, file, now);
    FiltersKeepDistinct(file, now);
    FiltersKeepDistinct(active, now);
    WrittenFromIsFaithful(s, active);
    WrittenFromIsFaithful(s, missed);
    ReadmitBuilds(active, now);
    MissedAreEntered(kept, missed);
    RecoveredTable(s, active, missed, now, kept.toks, r.state.toks);
    RecoveredOrder(kept, r.state);
    forall id ensures multiset(r.handed)[id] == if id in IdSet(missed) then 1 else 0 {
      IdsOnce(missed, id);
    }
  }

  lemma RecoveredTable(s: State, active: seq<Record>, missed: seq<Record>, now: Instant,
                       kept: Sessions, after: Sessions)
    requires Consistent(s) && WrittenFrom(s.toks, active) && WrittenFrom(s.toks, missed)
    requires Tabulates(active, now, kept) && Entered(kept, missed, after)
    requires forall id :: id in IdSet(missed) <==> Live(s, id) && s.toks[id].expiresAt < now
    requires forall id :: id in KeptIds(active, now) <==> Live(s, id) && now <= s.toks[id].expiresAt
    ensures after == Restored(s.toks, now)
  {
  }

  lemma RecoveredOrder(kept: State, r: State)
    requires Indexed(kept) && Ordered(kept.toks, kept.heap) && r.heap == kept.heap
    requires forall id :: id in kept.toks ==> id in r.toks && r.toks[id] == kept.toks[id]
    ensures Indexed(r) && Ordered(r.toks, r.heap)
  {
  }

  lemma {:induction false} IdsOnce(rs: seq<Record>, id: string)
    requires DistinctIds(rs)
    ensures multiset(Ids(rs))[id] == if id in IdSet(rs) then 1 else 0
  {
    if rs != [] {
      var front, r := rs[..|rs| - 1], rs[|rs| - 1];
      IdsOnce(front, id);
      assert Ids(rs) == Ids(front) + [r.id];
      assert forall i :: 0 <= i < |front| ==> front[i] == rs[i];
      assert id in IdSet(rs) <==> id in IdSet(front) || id == r.id;
    }
  }

  /** What a caller can see of the live sessions, apart from the warning flag. */
  function LiveView(s: State): Sessions {
    map id | id in s.toks && Live(s, id) :: Unwarned(s.toks[id])
  }

  /** One session through a restart and the tick after it. */
  lemma SessionThroughRestart(s: State, now: Instant, mid: State, after: Swept, id: string)
    requires mid.toks == Restored(s.toks, now) && after.state.toks == AfterExpiry(mid.toks, now)
    ensures Due(mid, id, now) <==> Live(s, id) && s.toks[id].expiresAt == now
    ensures Live(after.state, id) <==> Live(s, id) && !Due(s, id, now)
    ensures Live(after.state, id) ==> Unwarned(after.state.toks[id]) == Unwarned(s.toks[id])
  {
  }

  /** A restart repairs the index: from any consistent state, however disordered its heap, a
      restart followed by a tick hands over exactly the due sessions and keeps exactly the rest. */
  lemma RestartThenTick(s: State, file: seq<Record>, now: Instant)
    requires Consistent(s) && Snapshot(s.toks, file)
    ensures var recovered := Recover(file, now);
            && Indexed(recovered.state)
            && var after := RevokeExpired(recovered.state, now);
            && (forall id :: multiset(recovered.handed)[id] + multiset(after.handed)[id]
                  == if Due(s, id, now) then 1 else 0)
            && (forall id :: Live(after.state, id) <==> Live(s, id) && !Due(s, id, now))
            && (forall id :: Live(after.state, id) ==> Unwarned(after.state.toks[id]) == Unwarned(s.toks[id]))
  {
    var recovered := Recover(file, now);
    RecoveryRestores(s, file, now);
    OrderedTickIsTimely(recovered.state, now);
    var after := RevokeExpired(recovered.state, now);
    forall id
      ensures multiset(recovered.handed)[id] + multiset(after.handed)[id] == if Due(s, id, now) then 1 else 0
      ensures Live(after.state, id) <==> Live(s, id) && !Due(s, id, now)
      ensures Live(after.state, id) ==> Unwarned(after.state.toks[id]) == Unwarned(s.toks[id])
    {
      SessionThroughRestart(s, now, recovered.state, after, id);
    }
  }

  /** A tick's sweep does to the live sessions, and hands over, what a restart and a tick do. */
  predicate SameAsRestart(recovered: Swept, after: Swept, direct: Swept) {
    && LiveView(after.state) == LiveView(direct.state)
    && multiset(recovered.handed) + multiset(after.handed) == multiset(direct.handed)
  }

  /**
   Restart commutes with time. Saving the state in any order, recovering from the file at `now` and
   ticking at `now` hands over the same sessions, once each, and leaves the same live sessions as
   ticking at `now` without the restart, exactly when the tick without it leaves no session due; so it
   does whenever no expired entry was hidden under an unexpired one. The instant `expiresAt == now`,
   which recovery re-adds and the tick revokes, is covered.
   */
  lemma RestartCommutesWithTick(s: State, file: seq<Record>, now: Instant)
    requires Consistent(s) && Snapshot(s.toks, file)
    ensures var recovered := Recover(file, now);
            && Indexed(recovered.state)
            && var after, direct := RevokeExpired(recovered.state, now), RevokeExpired(s, now);
            && (SameAsRestart(recovered, after, direct) <==> NothingDueLeft(s, now))
            && (forall id :: multiset(direct.handed)[id] <= 1)
    ensures ExpiredOnTop(s.toks, s.heap, now) ==> NothingDueLeft(s, now)
  {
    hide Recover, RevokeExpired, SameAsRestart, Snapshot, ExpiredOnTop;
    RestartThenTick(s, file, now);
    TickIsSound(s, now);
    if ExpiredOnTop(s.toks, s.heap, now) {
      TickIsTimely(s, now);
      TimelyLeavesNothing(s, now);
    }
    var recovered := Recover(file, now);
    SameOutcomeIff(s, now, recovered, RevokeExpired(recovered.state, now), RevokeExpired(s, now));
  }

  lemma SameOutcomeIff(s: State, now: Instant, recovered: Swept, after: Swept, direct: Swept)
    requires Sound(s, now, direct)
    requires forall id :: multiset(recovered.handed)[id] + multiset(after.handed)[id]
                            == if Due(s, id, now) then 1 else 0
    requires forall id :: Live(after.state, id) <==> Live(s, id) && !Due(s, id, now)
    requires forall id :: Live(after.state, id) ==>
               id in s.toks && Unwarned(after.state.toks[id]) == Unwarned(s.toks[id])
    ensures SameAsRestart(recovered, after, direct) <==> forall id :: !Due(direct.state, id, now)
  {
    hide Unwarned, Live;
    if forall id :: !Due(direct.state, id, now) {
      forall id
        ensures multiset(direct.handed)[id] == if Due(s, id, now) then 1 else 0
        ensures id in s.toks ==> direct.state.toks[id] == AfterExpiry(s.toks, now)[id]
      {
        NoLongerDue(s, now, direct, id);
      }
      assert direct.state.toks == AfterExpiry(s.toks, now);
      SameOutcome(s, now, recovered, after, direct);
    } else {
      var id :| Due(direct.state, id, now);
      StillDueNotHanded(s, now, direct, id);
      assert multiset(recovered.handed)[id] + multiset(after.handed)[id] == 1;
    }
  }

  lemma StillDueNotHanded(s: State, now: Instant, r: Swept, id: string)
    requires r.state.toks == Revoke(s.toks, r.handed) && Due(r.state, id, now)
    ensures Due(s, id, now) && multiset(r.handed)[id] == 0
  {
    assert id in multiset(r.handed) ==> id in r.handed;
  }

  lemma SameOutcome(s: State, now: Instant, recovered: Swept, after: Swept, direct: Swept)
    requires forall id :: multiset(recovered.handed)[id] + multiset(after.handed)[id]
                            == if Due(s, id, now) then 1 else 0
    requires forall id :: Live(after.state, id) <==> Live(s, id) && !Due(s, id, now)
    requires forall id :: Live(after.state, id) ==>
               id in s.toks && Unwarned(after.state.toks[id]) == Unwarned(s.toks[id])
    requires forall id :: multiset(direct.handed)[id] == if Due(s, id, now) then 1 else 0
    requires direct.state.toks == AfterExpiry(s.toks, now)
    ensures SameAsRestart(recovered, after, direct)
  {
  }

  // ---------- Any file, into any store ----------

  lemma ReadLast(s0: State, rs: seq<Record>, r: Record, now: Instant)
    requires Indexed(s0)
    ensures ReadmitInto(s0, rs + [r], now)
            == var s := ReadmitInto(s0, rs, now);
               if r.revoked || r.expiresAt < now || r.id in s.toks then s else Add(s, ToToken(r))
    ensures AllMissed(rs + [r], now) == AllMissed(rs, now) + if !r.revoked && r.expiresAt < now then [r] else []
    ensures Active(rs + [r]) == if r.revoked then Active(rs) else Active(rs) + [r]
  {
    hide Add;
    assert (rs + [r])[..|rs|] == rs;
  }

  /** Revoked records play no part. */
  lemma {:induction false} OnlyActiveCount(s0: State, file: seq<Record>, now: Instant)
    requires Indexed(s0)
    ensures ReadmitInto(s0, Active(file), now) == ReadmitInto(s0, file, now)
    ensures AllMissed(Active(file), now) == AllMissed(file, now)
  {
    if file != [] {
      hide ReadmitInto, Active, AllMissed, Add;
      var front, r := file[..|file| - 1], file[|file| - 1];
      assert file == front + [r];
      OnlyActiveCount(s0, front, now);
      ReadLast(s0, Active(front), r, now);
      ReadLast(s0, front, r, now);
    }
  }

  /** Whether a record of the file stands for a live session. */
  ghost predicate HasKept(rs: seq<Record>, now: Instant, id: string) {
    exists i :: 0 <= i < |rs| && rs[i].id == id && !rs[i].revoked && now <= rs[i].expiresAt
  }

  /** ... or for one that was missed. */
  ghost predicate HasMissed(rs: seq<Record>, now: Instant, id: string) {
    exists i :: 0 <= i < |rs| && rs[i].id == id && !rs[i].revoked && rs[i].expiresAt < now
  }

  lemma OneMoreRecord(rs: seq<Record>, now: Instant, id: string)
    requires rs != []
    ensures var front, r := rs[..|rs| - 1], rs[|rs| - 1];
            && (HasKept(rs, now, id)
                <==> HasKept(front, now, id) || (r.id == id && !r.revoked && now <= r.expiresAt))
            && (HasMissed(rs, now, id)
                <==> HasMissed(front, now, id) || (r.id == id && !r.revoked && r.expiresAt < now))
  {
    var front, n := rs[..|rs| - 1], |rs| - 1;
    assert forall i :: 0 <= i < |front| ==> front[i] == rs[i];
    assert rs[n].id == id && !rs[n].revoked && now <= rs[n].expiresAt ==> HasKept(rs, now, id);
    assert rs[n].id == id && !rs[n].revoked && rs[n].expiresAt < now ==> HasMissed(rs, now, id);
  }

  lemma {:induction false} ReadmittedInFields(s0: State, rs: seq<Record>, now: Instant, id: string)
    requires Indexed(s0)
    ensures var s := ReadmitInto(s0, rs, now);
            && s.revokedCount == s0.revokedCount
            && (id in s.toks <==> id in s0.toks || HasKept(rs, now, id))
            && (id in s0.toks ==> s.toks[id] == s0.toks[id])
            && multiset(s.heap)[id] == multiset(s0.heap)[id] + if id in s.toks && id !in s0.toks then 1 else 0
  {
    hide Push;
    if rs != [] {
      ReadmittedInFields(s0, rs[..|rs| - 1], now, id);
      OneMoreRecord(rs, now, id);
      hide HasKept, HasMissed;
    }
  }

  /** A session that is not there yet is read from its first kept record. */
  lemma {:induction false} FirstReadmitted(s0: State, rs: seq<Record>, now: Instant, i: nat)
    requires Indexed(s0) && i < |rs| && !rs[i].revoked && now <= rs[i].expiresAt && rs[i].id !in s0.toks
    requires !HasKept(rs[..i], now, rs[i].id)
    ensures var r, s := rs[i], ReadmitInto(s0, rs, now);
            && r.id in s.toks
            && s.toks[r.id]
               == Token(r.id, r.user, r.resource, r.secret, r.provider, r.issuedAt, r.expiresAt,
                        if r.originalIssuedAt == 0 then r.issuedAt else r.originalIssuedAt,
                        r.extensionCount, false, false, r.justificationType, r.justificationRef)
    decreases |rs|
  {
    hide Push, HasKept;
    var front := rs[..|rs| - 1];
    if i == |front| {
      ReadmittedInFields(s0, front, now, rs[i].id);
    } else {
      assert front[i] == rs[i] && front[..i] == rs[..i];
      FirstReadmitted(s0, front, now, i);
    }
  }

  lemma {:induction false} EnteredInFields(s: State, rs: seq<Record>, now: Instant, id: string)
    ensures var r := EnterMissed(s, AllMissed(rs, now));
            && r.heap == s.heap && r.revokedCount == s.revokedCount + |AllMissed(rs, now)|
            && (id in r.toks <==> id in s.toks || HasMissed(rs, now, id))
            && (id in s.toks && !HasMissed(rs, now, id) ==> r.toks[id] == s.toks[id])
  {
    if rs != [] {
      EnteredInFields(s, rs[..|rs| - 1], now, id);
      OneMoreRecord(rs, now, id);
      hide HasKept, HasMissed;
      LastEntry(s, rs, now);
    }
  }

  lemma EnterLast(s: State, missed: seq<Record>, r: Record)
    ensures EnterMissed(s, missed + [r]) == Enter(EnterMissed(s, missed), r)
  {
    hide Enter;
    assert (missed + [r])[..|missed|] == missed;
  }

  lemma LastEntry(s: State, rs: seq<Record>, now: Instant)
    requires rs != []
    ensures var front, r := rs[..|rs| - 1], rs[|rs| - 1];
            EnterMissed(s, AllMissed(rs, now))
            == if !r.revoked && r.expiresAt < now then Enter(EnterMissed(s, AllMissed(front, now)), r)
               else EnterMissed(s, AllMissed(front, now))
  {
    hide AllMissed, EnterMissed, Enter;
    var front, r := rs[..|rs| - 1], rs[|rs| - 1];
    assert rs == front + [r];
    ReadLast(EMPTY, front, r, now);
    EnterLast(s, AllMissed(front, now), r);
    assert AllMissed(front, now) + [] == AllMissed(front, now);
  }

  /** A missed session is entered as its last missed record has it, but revoked. */
  lemma {:induction false} LastEntered(s: State, rs: seq<Record>, now: Instant, i: nat)
    requires i < |rs| && !rs[i].revoked && rs[i].expiresAt < now
    requires forall j :: i < j < |rs| && rs[j].id == rs[i].id ==> rs[j].revoked || now <= rs[j].expiresAt
    ensures var r, entered := rs[i], EnterMissed(s, AllMissed(rs, now));
            && r.id in entered.toks
            && entered.toks[r.id]
               == Token(r.id, r.user, r.resource, r.secret, r.provider, r.issuedAt, r.expiresAt,
                        r.originalIssuedAt, r.extensionCount, true, false, r.justificationType, r.justificationRef)
    decreases |rs|
  {
    LastEntry(s, rs, now);
    var front := rs[..|rs| - 1];
    if i < |front| {
      assert forall j :: 0 <= j < |front| ==> front[j] == rs[j];
      LastEntered(s, front, now, i);
    }
  }

  /**
   Recovery in the fields of the file, whatever it holds and whatever the store held. A session with a
   missed record is entered as the last of them, revoked. Any other session that was there stays; one
   that was not is there exactly if it has a kept record, and as the first of them, in the heap once
   more. Missed records are counted one by one, and the heap gains nothing else.
   */
  lemma RecoverInFields(s0: State, file: seq<Record>, now: Instant, id: string)
    requires Indexed(s0)
    ensures var s := RecoverInto(s0, file, now).state;
            && (id in s.toks <==> id in s0.toks || HasKept(file, now, id) || HasMissed(file, now, id))
            && (id in s0.toks && !HasMissed(file, now, id) ==> s.toks[id] == s0.toks[id])
            && (forall i :: 0 <= i < |file| && file[i].id == id && !file[i].revoked ==>
                  var r := file[i];
                  if r.expiresAt < now then
                    (forall j :: i < j < |file| && file[j].id == id ==> file[j].revoked || now <= file[j].expiresAt)
                    ==> s.toks[id] == Token(id, r.user, r.resource, r.secret, r.provider, r.issuedAt, r.expiresAt,
                                            r.originalIssuedAt, r.extensionCount, true, false,
                                            r.justificationType, r.justificationRef)
                  else
                    id !in s0.toks && !HasMissed(file, now, id) && !HasKept(file[..i], now, id)
                    ==> s.toks[id] == Token(id, r.user, r.resource, r.secret, r.provider, r.issuedAt, r.expiresAt,
                                            if r.originalIssuedAt == 0 then r.issuedAt else r.originalIssuedAt,
                                            r.extensionCount, false, false, r.justificationType, r.justificationRef))
            && multiset(s.heap)[id]
               == multiset(s0.heap)[id] + (if id !in s0.toks && HasKept(file, now, id) then 1 else 0)
            && s.revokedCount == s0.revokedCount + |RecoverInto(s0, file, now).handed|
  {
    hide HasKept, HasMissed, ReadmitInto, EnterMissed, Active, AllMissed;
    OnlyActiveCount(s0, file, now);
    var mid := ReadmitInto(s0, file, now);
    ReadmittedInFields(s0, file, now, id);
    EnteredInFields(mid, file, now, id);
    forall i | 0 <= i < |file| && file[i].id == id && !file[i].revoked && file[i].expiresAt < now
               && forall j :: i < j < |file| && file[j].id == id ==> file[j].revoked || now <= file[j].expiresAt
      ensures id in EnterMissed(mid, AllMissed(file, now)).toks
      ensures EnterMissed(mid, AllMissed(file, now)).toks[id]
              == Token(id, file[i].user, file[i].resource, file[i].secret, file[i].provider, file[i].issuedAt,
                       file[i].expiresAt, file[i].originalIssuedAt, file[i].extensionCount, true, false,
                       file[i].justificationType, file[i].justificationRef)
    {
      LastEntered(mid, file, now, i);
    }
    forall i | 0 <= i < |file| && file[i].id == id && !file[i].revoked && now <= file[i].expiresAt
               && id !in s0.toks && !HasKept(file[..i], now, id)
      ensures id in mid.toks
      ensures mid.toks[id]
              == Token(id, file[i].user, file[i].resource, file[i].secret, file[i].provider, file[i].issuedAt,
                       file[i].expiresAt,
                       if file[i].originalIssuedAt == 0 then file[i].issuedAt else file[i].originalIssuedAt,
                       file[i].extensionCount, false, false, file[i].justificationType, file[i].justificationRef)
    {
      FirstReadmitted(s0, file, now, i);
    }
  }

  /** The hand-overs of recovery: the ids of the missed records, in the order of the file. */
  lemma MissedHandedInFileOrder(s0: State, file: seq<Record>, r: Record, now: Instant)
    requires Indexed(s0)
    ensures RecoverInto(s0, [], now).handed == []
    ensures RecoverInto(s0, file + [r], now).handed
            == RecoverInto(s0, file, now).handed + if !r.revoked && r.expiresAt < now then [r.id] else []
  {
    hide ReadmitInto, EnterMissed, Active, AllMissed;
    OnlyActiveCount(s0, [], now);
    OnlyActiveCount(s0, file, now);
    OnlyActiveCount(s0, file + [r], now);
    ReadLast(s0, file, r, now);
    NothingMissed(now);
  }

  lemma NothingMissed(now: Instant)
    ensures AllMissed([], now) == []
  {
  }
}
