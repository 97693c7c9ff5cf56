/** The pop loop of one worker tick, and when it is on time. */
module Ticks {
  import opened Clock
  import opened Tokens
  import opened ExpiryHeap
  import opened Sections

  /** The state after the loop and the ids it handed over for revocation, in order. */
  datatype Swept = Swept(state: State, handed: seq<string>)

  /** The id a round hands over, if any. */
  function ClaimedIn(round: Round): seq<string> {
    if round.Claimed? then [round.id] else []
  }

  function RevokeExpired(s: State, now: Instant): Swept
    requires Indexed(s)
    decreases |s.heap|
  {
    if Inspect(s, now).Done? then Swept(s, [])
    else
      var rest := RevokeExpired(PopTop(s, now), now);
      Swept(rest.state, ClaimedIn(Inspect(s, now)) + rest.handed)
  }

  /** The loop begun at `s0` has handed over `done` and stands at `s`. */
  ghost predicate Resumes(s0: State, now: Instant, s: State, done: seq<string>)
    requires Indexed(s0) && Indexed(s)
  {
    RevokeExpired(s0, now) == Swept(RevokeExpired(s, now).state, done + RevokeExpired(s, now).handed)
  }

  lemma ResumesAtStart(s: State, now: Instant)
    requires Indexed(s)
    ensures Resumes(s, now, s, [])
  {
  }

  lemma ResumesNext(s0: State, now: Instant, s: State, done: seq<string>)
    requires Indexed(s0) && Indexed(s) && Resumes(s0, now, s, done) && !Inspect(s, now).Done?
    ensures Resumes(s0, now, PopTop(s, now), done + ClaimedIn(Inspect(s, now)))
  {
    Regroup(done, ClaimedIn(Inspect(s, now)), RevokeExpired(PopTop(s, now), now).handed);
  }

  lemma Regroup(done: seq<string>, claimed: seq<string>, rest: seq<string>)
    ensures done + (claimed + rest) == done + claimed + rest
  {
  }

  lemma PopTopShrinks(s: State, now: Instant)
    requires Indexed(s)
    ensures Inspect(s, now).Done? ==> PopTop(s, now) == s
    ensures !Inspect(s, now).Done? ==> |PopTop(s, now).heap| < |s.heap|
  {
  }

  lemma ResumesDone(s0: State, now: Instant, s: State, done: seq<string>)
    requires Indexed(s0) && Indexed(s) && Resumes(s0, now, s, done) && Inspect(s, now).Done?
    ensures RevokeExpired(s0, now) == Swept(s, done)
  {
  }

  predicate Due(s: State, id: string, now: Instant) {
    Live(s, id) && Expired(s.toks, id, now)
  }

  function Revoke(toks: Sessions, ids: seq<string>): Sessions {
    map id | id in toks :: if id in ids then toks[id].(revoked := true) else toks[id]
  }

  /** One round, seen from outside: only a due root is claimed and only the root leaves. */
  lemma RoundEffect(s: State, now: Instant)
    requires Consistent(s) && !Inspect(s, now).Done?
    ensures Consistent(PopTop(s, now))
    ensures Inspect(s, now).Skipped? ==> PopTop(s, now).toks == s.toks
    ensures Inspect(s, now).Claimed? ==> Due(s, s.heap[0], now)
    ensures Inspect(s, now).Claimed? ==> PopTop(s, now).toks == Claim(s, s.heap[0]).toks
    ensures PopTop(s, now).heap == Pop(s.toks, s.heap)
  {
    PopTopConsistent(s, now);
  }

  /** What any sweep of `s` at `now` may do: hand over only due sessions, each at most once, revoke
      exactly what it hands over, drop only expired entries, and stop at an unexpired root. */
  ghost predicate Sound(s: State, now: Instant, r: Swept) {
    && Consistent(r.state)
    && r.state.toks == Revoke(s.toks, r.handed)
    && (forall id :: multiset(r.handed)[id] <= if Due(s, id, now) then 1 else 0)
    && (forall id :: multiset(r.state.heap)[id] <= multiset(s.heap)[id])
    && (forall id :: id in s.toks && !Expired(s.toks, id, now)
          ==> multiset(r.state.heap)[id] == multiset(s.heap)[id])
    && Inspect(r.state, now).Done?
  }

  /** Whatever the heap order, the pop loop is a sound sweep. */
  lemma {:induction false} TickIsSound(s: State, now: Instant)
    requires Consistent(s)
    ensures Sound(s, now, RevokeExpired(s, now))
    decreases |s.heap|
  {
    if Inspect(s, now).Done? {
      assert Revoke(s.toks, []) == s.toks;
    } else {
      var next, top := PopTop(s, now), s.heap[0];
      RoundEffect(s, now);
      forall id ensures multiset(s.heap)[id] == multiset(next.heap)[id] + (if id == top then 1 else 0) {
        PopCounts(s.toks, s.heap, id);
      }
      TickIsSound(next, now);
      if Inspect(s, now).Skipped? {
        assert [] + RevokeExpired(next, now).handed == RevokeExpired(next, now).handed;
        RootMayGo(s, now, next, RevokeExpired(next, now));
      } else {
        RootHandedOver(s, now, next, RevokeExpired(next, now));
      }
    }
  }

  /** A sound sweep stays sound when the expired root of a revoked session goes first. */
  lemma RootMayGo(s: State, now: Instant, next: State, rest: Swept)
    requires Indexed(s) && |s.heap| > 0 && Expired(s.toks, s.heap[0], now)
    requires next.toks == s.toks && Sound(next, now, rest)
    requires forall id :: multiset(s.heap)[id] == multiset(next.heap)[id] + (if id == s.heap[0] then 1 else 0)
    ensures Sound(s, now, rest)
  {
  }

  lemma RevokeOneMore(toks: Sessions, id: string, ids: seq<string>)
    requires id in toks
    ensures Revoke(toks[id := toks[id].(revoked := true)], ids) == Revoke(toks, [id] + ids)
  {
  }

  /** ... and when a due root is handed over first. */
  lemma RootHandedOver(s: State, now: Instant, next: State, rest: Swept)
    requires Indexed(s) && |s.heap| > 0 && Due(s, s.heap[0], now)
    requires next.toks == Claim(s, s.heap[0]).toks && Sound(next, now, rest)
    requires forall id :: multiset(s.heap)[id] == multiset(next.heap)[id] + (if id == s.heap[0] then 1 else 0)
    ensures Sound(s, now, rest.(handed := [s.heap[0]] + rest.handed))
  {
    var top := s.heap[0];
    var handed := [top] + rest.handed;
    RevokeOneMore(s.toks, top, rest.handed);
    forall id ensures multiset(handed)[id] <= if Due(s, id, now) then 1 else 0 {
      assert multiset(handed)[id] == multiset{top}[id] + multiset(rest.handed)[id];
      assert multiset(rest.handed)[id] <= if Due(next, id, now) then 1 else 0;
    }
    assert forall id :: id in s.toks ==> (Expired(next.toks, id, now) <==> Expired(s.toks, id, now));
  }

  /** Handed over: in the map, live, expired, and once each. */
  ghost predicate HandedInFields(toks: Sessions, now: Instant, handed: seq<string>) {
    && (forall i :: 0 <= i < |handed| ==>
          handed[i] in toks && !toks[handed[i]].revoked && toks[handed[i]].expiresAt <= now)
    && (forall i, j :: 0 <= i < j < |handed| ==> handed[i] != handed[j])
  }

  /** What any sweep does, in the fields of the state: it revokes exactly what it hands over, which was
      live and had expired, once each; it counts that; it drops no unexpired entry; and it stops at an
      empty heap or an unexpired root. */
  ghost predicate SweptInFields(s: State, now: Instant, r: State, handed: seq<string>) {
    && r.toks.Keys == s.toks.Keys
    && (forall id :: id in s.toks ==>
          r.toks[id] == if id in handed then s.toks[id].(revoked := true) else s.toks[id])
    && HandedInFields(s.toks, now, handed)
    && r.revokedCount == s.revokedCount + |handed|
    && (forall id :: id in s.toks && now < s.toks[id].expiresAt ==> multiset(r.heap)[id] == multiset(s.heap)[id])
    && multiset(r.heap) <= multiset(s.heap)
    && (r.heap == [] || (r.heap[0] in r.toks && now < r.toks[r.heap[0]].expiresAt))
  }

  lemma RoundInFields(s: State, now: Instant)
    requires Indexed(s) && !Inspect(s, now).Done?
    ensures var next := PopTop(s, now); var top := s.heap[0];
            && top in s.toks && s.toks[top].expiresAt <= now
            && multiset(s.heap) == multiset(next.heap) + multiset{top}
            && (if s.toks[top].revoked then
                  Inspect(s, now) == Skipped && next.toks == s.toks && next.revokedCount == s.revokedCount
                else
                  && Inspect(s, now) == Claimed(top) && next.toks == s.toks[top := s.toks[top].(revoked := true)]
                  && next.revokedCount == s.revokedCount + 1)
  {
  }

  lemma SweepUnfolds(s: State, now: Instant)
    requires Indexed(s) && !Inspect(s, now).Done?
    ensures var rest := RevokeExpired(PopTop(s, now), now);
            RevokeExpired(s, now) == Swept(rest.state, ClaimedIn(Inspect(s, now)) + rest.handed)
  {
  }

  lemma StoppedInFields(s: State, now: Instant)
    requires Indexed(s) && Inspect(s, now).Done?
    ensures RevokeExpired(s, now) == Swept(s, []) && SweptInFields(s, now, s, [])
  {
  }

  lemma {:induction false} SweepInFields(s: State, now: Instant)
    requires Indexed(s)
    ensures SweptInFields(s, now, RevokeExpired(s, now).state, RevokeExpired(s, now).handed)
    decreases |s.heap|
  {
    hide PopTop, Inspect, SweptInFields, RevokeExpired;
    if Inspect(s, now).Done? {
      StoppedInFields(s, now);
    } else {
      PopTopShrinks(s, now);
      RoundInFields(s, now);
      SweepUnfolds(s, now);
      var next, rest := PopTop(s, now), RevokeExpired(PopTop(s, now), now);
      SweepInFields(next, now);
      if s.toks[s.heap[0]].revoked {
        assert [] + rest.handed == rest.handed;
        SkippedInFields(s, now, next, rest.state, rest.handed);
      } else {
        ClaimedInFields(s, now, next, rest.state, rest.handed);
      }
    }
  }

  lemma SkippedInFields(s: State, now: Instant, next: State, r: State, handed: seq<string>)
    requires |s.heap| > 0 && s.heap[0] in s.toks && s.toks[s.heap[0]].expiresAt <= now
    requires multiset(s.heap) == multiset(next.heap) + multiset{s.heap[0]}
    requires next.toks == s.toks && next.revokedCount == s.revokedCount && SweptInFields(next, now, r, handed)
    ensures SweptInFields(s, now, r, handed)
  {
  }

  lemma OneMoreHanded(toks: Sessions, now: Instant, top: string, rest: seq<string>)
    requires top in toks && !toks[top].revoked && toks[top].expiresAt <= now
    requires HandedInFields(toks[top := toks[top].(revoked := true)], now, rest)
    ensures HandedInFields(toks, now, [top] + rest) && top !in rest
  {
    assert forall i :: 0 <= i < |rest| ==> rest[i] != top;
  }

  lemma RevokedInFields(toks: Sessions, after: Sessions, top: string, rest: seq<string>)
    requires top in toks && after.Keys == toks.Keys
    requires var next := toks[top := toks[top].(revoked := true)];
             forall id :: id in next ==> after[id] == if id in rest then next[id].(revoked := true) else next[id]
    ensures forall id :: id in toks ==>
              after[id] == if id in [top] + rest then toks[id].(revoked := true) else toks[id]
  {
    assert forall id :: id in [top] + rest <==> id == top || id in rest;
  }

  lemma ClaimedInFields(s: State, now: Instant, next: State, r: State, rest: seq<string>)
    requires |s.heap| > 0 && s.heap[0] in s.toks && s.toks[s.heap[0]].expiresAt <= now
    requires !s.toks[s.heap[0]].revoked && multiset(s.heap) == multiset(next.heap) + multiset{s.heap[0]}
    requires next.toks == s.toks[s.heap[0] := s.toks[s.heap[0]].(revoked := true)]
    requires next.revokedCount == s.revokedCount + 1 && SweptInFields(next, now, r, rest)
    ensures SweptInFields(s, now, r, [s.heap[0]] + rest)
  {
    hide HandedInFields;
    OneMoreHanded(s.toks, now, s.heap[0], rest);
    RevokedInFields(s.toks, r.toks, s.heap[0], rest);
  }

  /** The loop keeps the cut property at its own `now`, and heap order. */
  lemma {:induction false} SweepKeepsCut(s: State, now: Instant, at: Instant)
    requires Consistent(s) && ExpiredOnTop(s.toks, s.heap, at)
    ensures Indexed(RevokeExpired(s, now).state)
    ensures ExpiredOnTop(RevokeExpired(s, now).state.toks, RevokeExpired(s, now).state.heap, at)
    decreases |s.heap|
  {
    if !Inspect(s, now).Done? {
      hide PopTop, Pop, Consistent;
      RoundEffect(s, now);
      PopKeepsCut(s.toks, s.heap, at);
      var next := PopTop(s, now);
      assert forall id :: id in s.toks ==> (Expired(next.toks, id, at) <==> Expired(s.toks, id, at));
      SweepKeepsCut(next, now, at);
    }
  }

  /** Every session past its expiry is revoked, and nothing else has changed. */
  function AfterExpiry(toks: Sessions, now: Instant): Sessions {
    map id | id in toks :: if Expired(toks, id, now) then toks[id].(revoked := true) else toks[id]
  }

  /** A loop that stops at an unexpired root of a heap cut at `now` has left nothing due. */
  lemma StoppedMeansNoneDue(s: State, now: Instant)
    requires Consistent(s) && ExpiredOnTop(s.toks, s.heap, now) && Inspect(s, now).Done?
    ensures forall k :: 0 <= k < |s.heap| ==> !Expired(s.toks, s.heap[k], now)
    ensures forall id :: !Due(s, id, now)
  {
    forall k | 0 <= k < |s.heap| ensures !Expired(s.toks, s.heap[k], now) {
      if Expired(s.toks, s.heap[k], now) {
        RootExpiresFirst(s.toks, s.heap, k, now);
      }
    }
    forall id ensures !Due(s, id, now) {
      if Live(s, id) {
        assert id in multiset(s.heap);
      }
    }
  }

  /** A due session that is no longer due after the loop was handed over by it. */
  lemma NoLongerDue(s: State, now: Instant, r: Swept, id: string)
    requires r.state.toks == Revoke(s.toks, r.handed) && !Due(r.state, id, now)
    requires multiset(r.handed)[id] <= if Due(s, id, now) then 1 else 0
    ensures multiset(r.handed)[id] == if Due(s, id, now) then 1 else 0
    ensures id in s.toks ==> r.state.toks[id] == AfterExpiry(s.toks, now)[id]
  {
  }

  /** A sweep at `now` that is complete: it hands over exactly the due sessions, once each, marks
      exactly the expired ones revoked, touches nothing else, and keeps exactly the unexpired
      entries in the heap. */
  ghost predicate Timely(s: State, now: Instant, r: Swept) {
    && Consistent(r.state)
    && (forall id :: multiset(r.handed)[id] == if Due(s, id, now) then 1 else 0)
    && r.state.toks == AfterExpiry(s.toks, now)
    && (forall id :: id in s.toks ==>
          multiset(r.state.heap)[id] == if Expired(s.toks, id, now) then 0 else multiset(s.heap)[id])
  }

  lemma SoundAndEmptiedIsTimely(s: State, now: Instant, r: Swept)
    requires Sound(s, now, r) && ExpiredOnTop(r.state.toks, r.state.heap, now)
    ensures Timely(s, now, r)
  {
    StoppedMeansNoneDue(r.state, now);
    forall id
      ensures multiset(r.handed)[id] == if Due(s, id, now) then 1 else 0
      ensures id in s.toks ==> r.state.toks[id] == AfterExpiry(s.toks, now)[id]
    {
      NoLongerDue(s, now, r, id);
    }
    assert r.state.toks == AfterExpiry(s.toks, now);
    forall id | id in s.toks && Expired(s.toks, id, now) ensures multiset(r.state.heap)[id] == 0 {
      assert id in r.state.heap ==> Expired(r.state.toks, id, now);
    }
  }

  /** Timely expiry: a tick is complete whenever no expired token sits below an unexpired one, and
      so on every ordered heap. */
  lemma TickIsTimely(s: State, now: Instant)
    requires Consistent(s) && ExpiredOnTop(s.toks, s.heap, now)
    ensures Timely(s, now, RevokeExpired(s, now))
  {
    TickIsSound(s, now);
    SweepKeepsCut(s, now, now);
    SoundAndEmptiedIsTimely(s, now, RevokeExpired(s, now));
  }

  /** No live session past its expiry is left by a tick at `now`. */
  ghost predicate NothingDueLeft(s: State, now: Instant)
    requires Indexed(s)
  {
    forall id :: !Due(RevokeExpired(s, now).state, id, now)
  }

  lemma TimelyLeavesNothing(s: State, now: Instant)
    requires Indexed(s) && Timely(s, now, RevokeExpired(s, now))
    ensures NothingDueLeft(s, now)
  {
  }

  lemma OrderedTickIsTimely(s: State, now: Instant)
    requires Consistent(s) && Ordered(s.toks, s.heap)
    ensures Timely(s, now, RevokeExpired(s, now))
  {
    OrderedIsEveryCut(s.toks, s.heap);
    TickIsTimely(s, now);
  }

  lemma RootIsEarliest(toks: Sessions, h: seq<string>, id: string)
    requires Known(toks, h) && Ordered(toks, h) && id in h
    ensures toks[h[0]].expiresAt <= toks[id].expiresAt
  {
    var k :| 0 <= k < |h| && h[k] == id;
    OrderedIsEveryCut(toks, h);
    RootExpiresFirst(toks, h, k, toks[id].expiresAt);
  }

  /** What later rounds hand over was already in the heap, and so expires no earlier than its root. */
  lemma HandedOverLater(s: State, now: Instant, i: nat)
    requires Consistent(s) && Ordered(s.toks, s.heap) && !Inspect(s, now).Done?
    requires i < |RevokeExpired(PopTop(s, now), now).handed|
    ensures var id := RevokeExpired(PopTop(s, now), now).handed[i];
            id in s.toks && s.toks[s.heap[0]].expiresAt <= s.toks[id].expiresAt
  {
    RoundEffect(s, now);
    TickIsSound(PopTop(s, now), now);
    var handed := RevokeExpired(PopTop(s, now), now).handed;
    assert handed[i] in multiset(handed);
    assert Live(s, handed[i]);
    assert handed[i] in multiset(s.heap);
    RootIsEarliest(s.toks, s.heap, handed[i]);
  }

  ghost predicate InExpiryOrder(toks: Sessions, ids: seq<string>) {
    && Known(toks, ids)
    && forall i, j :: 0 <= i < j < |ids| ==> toks[ids[i]].expiresAt <= toks[ids[j]].expiresAt
  }

  lemma EarliestFirst(toks: Sessions, id: string, rest: seq<string>)
    requires id in toks && InExpiryOrder(toks, rest)
    requires forall i :: 0 <= i < |rest| ==> toks[id].expiresAt <= toks[rest[i]].expiresAt
    ensures InExpiryOrder(toks, [id] + rest)
  {
  }

  lemma SameExpiriesSameOrder(toks: Sessions, id: string, ids: seq<string>)
    requires id in toks && InExpiryOrder(toks[id := toks[id].(revoked := true)], ids)
    ensures InExpiryOrder(toks, ids)
  {
  }

  /** On an ordered heap sessions are handed over in order of expiry. */
  lemma {:induction false} TickFollowsExpiryOrder(s: State, now: Instant)
    requires Consistent(s) && Ordered(s.toks, s.heap)
    ensures InExpiryOrder(s.toks, RevokeExpired(s, now).handed)
    decreases |s.heap|
  {
    if !Inspect(s, now).Done? {
      var next, top := PopTop(s, now), s.heap[0];
      RoundEffect(s, now);
      PopKeepsOrder(s.toks, s.heap);
      if Inspect(s, now).Skipped? {
        assert [] + RevokeExpired(next, now).handed == RevokeExpired(next, now).handed;
        TickFollowsExpiryOrder(next, now);
      } else {
        MarkingKeepsOrder(s.toks, top, next.heap);
        TickFollowsExpiryOrder(next, now);
        var rest := RevokeExpired(next, now).handed;
        SameExpiriesSameOrder(s.toks, top, rest);
        forall i | 0 <= i < |rest| ensures s.toks[top].expiresAt <= s.toks[rest[i]].expiresAt {
          HandedOverLater(s, now, i);
        }
        EarliestFirst(s.toks, top, rest);
      }
    }
  }

  lemma MarkingKeepsOrder(toks: Sessions, id: string, h: seq<string>)
    requires Known(toks, h) && id in toks && Ordered(toks, h)
    ensures Ordered(toks[id := toks[id].(revoked := true)], h)
  {
  }

  /** A tick leaves an ordered heap ordered. */
  lemma TickKeepsOrder(s: State, now: Instant)
    requires Consistent(s) && Ordered(s.toks, s.heap)
    ensures Indexed(RevokeExpired(s, now).state)
    ensures Ordered(RevokeExpired(s, now).state.toks, RevokeExpired(s, now).state.heap)
  {
    OrderedIsEveryCut(s.toks, s.heap);
    var r := RevokeExpired(s, now).state;
    SweepKeepsCut(s, now, now);
    forall at ensures ExpiredOnTop(r.toks, r.heap, at) {
      SweepKeepsCut(s, now, at);
    }
    OrderedIsEveryCut(r.toks, r.heap);
  }

  /** Warning first, as a tick does, changes none of this: the flags play no part in the sweep. */
  lemma WholeTickIsTimely(s: State, limits: Limits, now: Instant)
    requires Consistent(s) && ExpiredOnTop(s.toks, s.heap, now)
    ensures var w := Warn(s, limits, now);
            && Indexed(w) && Timely(w, now, RevokeExpired(w, now))
            && (forall id :: Due(w, id, now) <==> Due(s, id, now))
            && (forall id :: Due(s, id, now) ==> id !in ToNotify(s, limits, now))
  {
    hide RevokeExpired, Timely;
    var w := Warn(s, limits, now);
    WarnConsistent(s, limits, now);
    assert forall id :: id in s.toks ==> (Expired(w.toks, id, now) <==> Expired(s.toks, id, now));
    TickIsTimely(w, now);
  }

  /**
   Drain without order. However extensions have disordered the heap, a tick at or past the expiry
   of everything in it empties it and hands over exactly the live sessions, once each.
   */
  lemma TickPastAllDrains(s: State, now: Instant)
    requires Consistent(s)
    requires forall k :: 0 <= k < |s.heap| ==> Expired(s.toks, s.heap[k], now)
    ensures var r := RevokeExpired(s, now);
            && r.state.heap == []
            && (forall id :: multiset(r.handed)[id] == if Live(s, id) then 1 else 0)
            && (forall id :: !Live(r.state, id))
  {
    var r := RevokeExpired(s, now);
    TickIsTimely(s, now);
    TickIsSound(s, now);
    forall id | Live(s, id) ensures Due(s, id, now) {
      assert id in multiset(s.heap);
    }
    forall id ensures multiset(r.state.heap)[id] == 0 {
      if id in s.heap {
        assert id in multiset(s.heap);
      }
    }
    assert |multiset(r.state.heap)| == 0;
  }
}
