/** Runs under the production limits that go past the ceiling of a session, or the limit on a grant. */
module Overruns {
  import opened Clock
  import opened Tokens
  import opened ExpiryHeap
  import opened Sections
  import opened Ticks
  import opened Protocol
  import opened Witnesses

  const PRODUCTION := Limits(60 * MINUTE, 4 * HOUR, 15 * MINUTE)

  // ---------- A session hidden until after its ceiling ----------

  /** A session of an hour, then one of a minute, which is extended four times at once. */
  const HIDING: seq<Action> :=
    [Grant(NewToken("b", 1 * MINUTE, 61 * MINUTE), 1 * MINUTE),
     Grant(NewToken("a", 59 * MINUTE, 60 * MINUTE), 59 * MINUTE),
     RequestExtension("a", 59 * MINUTE)]
  const PROLONGING: seq<Action> :=
    [RequestExtension("a", 59 * MINUTE), RequestExtension("a", 59 * MINUTE), RequestExtension("a", 59 * MINUTE)]

  function HidingTable(expiry: Instant): Table {
    map["a" := (59 * MINUTE, expiry), "b" := (1 * MINUTE, 61 * MINUTE)]
  }

  /** Granting a session that expires before the only other one. */
  lemma GrantEarlier(s: System, limits: Limits, other: string, first: Instant, last: Instant,
                     id: string, at: Instant, expiry: Instant)
    requires Tracks(s, limits, map[other := (first, last)]) && s.store.heap == [other]
    requires id != other && at != 0 && expiry < last
    ensures var r := Next(s, Grant(NewToken(id, at, expiry), at));
            Tracks(r, limits, map[other := (first, last), id := (at, expiry)]) && r.store.heap == [id, other]
  {
    var t := NewToken(id, at, expiry);
    assert Enabled(s, Grant(t, at));
    var toks := s.store.toks[id := Registered(t)];
    assert [other] + [id] == [other, id];
    assert Swap([other, id], 0, 1) == [id, other];
    assert Up(toks, [other, id], 1) == [id, other];
  }

  lemma AfterHiding(rest: seq<Action>) returns (s: System)
    ensures Tracks(s, PRODUCTION, HidingTable(299 * MINUTE)) && s.store.heap == ["a", "b"]
    ensures Run(Start(PRODUCTION, 0), HIDING + (PROLONGING + rest)) == Run(s, rest)
  {
    hide Run, Next, Tracks;
    var s0 := Start(PRODUCTION, 0);
    var extend := RequestExtension("a", 59 * MINUTE);
    StartTracks(PRODUCTION, 0);
    GrantLater(s0, PRODUCTION, map[], "b", 1 * MINUTE, 61 * MINUTE);
    var s1 := Next(s0, HIDING[0]);
    assert s1.store.heap == ["b"];
    GrantEarlier(s1, PRODUCTION, "b", 1 * MINUTE, 61 * MINUTE, "a", 59 * MINUTE, 60 * MINUTE);
    var s2 := Next(s1, HIDING[1]);
    assert map["b" := (1 * MINUTE, 61 * MINUTE), "a" := (59 * MINUTE, 60 * MINUTE)] == HidingTable(60 * MINUTE);
    ExtendHiding(s2, 60 * MINUTE, 120 * MINUTE);
    var s3 := Next(s2, extend);
    ExtendHiding(s3, 120 * MINUTE, 180 * MINUTE);
    var s4 := Next(s3, extend);
    ExtendHiding(s4, 180 * MINUTE, 240 * MINUTE);
    var s5 := Next(s4, extend);
    ExtendHiding(s5, 240 * MINUTE, 299 * MINUTE);
    s := Next(s5, extend);
    RunThree(s0, HIDING[0], HIDING[1], extend, PROLONGING + rest);
    RunThree(s3, extend, extend, extend, rest);
  }

  lemma ExtendHiding(s: System, expiry: Instant, next: Instant)
    requires Tracks(s, PRODUCTION, HidingTable(expiry))
    requires next == if expiry + 60 * MINUTE < 299 * MINUTE then expiry + 60 * MINUTE else 299 * MINUTE
    ensures var r := Next(s, RequestExtension("a", 59 * MINUTE));
            Tracks(r, PRODUCTION, HidingTable(next)) && r.store.heap == s.store.heap
  {
    hide Next, Tracks;
    ExtendTracked(s, PRODUCTION, HidingTable(expiry), "a", 59 * MINUTE);
    assert HidingTable(expiry)["a" := (59 * MINUTE, next)] == HidingTable(next);
  }

  /** A whole tick with nothing to warn about. */
  function Tick(now: Instant): seq<Action> {
    [TickBegins(now, []), StartPopping, PopOne]
  }

  function TickRun(nows: seq<Instant>): seq<Action> {
    if nows == [] then [] else Tick(nows[0]) + TickRun(nows[1..])
  }

  /** The second session is hidden under the first, until the warning of the first is due. */
  ghost predicate Hidden(s: System) {
    Tracks(s, PRODUCTION, HidingTable(299 * MINUTE)) && s.store.heap == ["a", "b"]
  }

  lemma StopsAboveHidden(s: System, now: Instant)
    requires Hidden(s) && now < 299 * MINUTE
    ensures Inspect(s.store, now).Done? && RevokeExpired(s.store, now) == Swept(s.store, [])
    ensures 61 * MINUTE <= now ==> Due(s.store, "b", now)
    ensures "b" in s.past.granted && s.past.granted["b"] == 1 * MINUTE
  {
    assert "b" in HidingTable(299 * MINUTE) && "a" in HidingTable(299 * MINUTE);
  }

  lemma NothingToWarn(s: System, now: Instant)
    requires Hidden(s) && 61 * MINUTE <= now < 284 * MINUTE
    ensures ToNotify(s.store, PRODUCTION, now) == {} && Warn(s.store, PRODUCTION, now) == s.store
  {
    assert "b" in HidingTable(299 * MINUTE) && "a" in HidingTable(299 * MINUTE);
    assert s.store.toks.Keys == {"a", "b"};
  }

  /** A tick leaves the store as it was. */
  lemma HiddenTick(s: System, now: Instant, rest: seq<Action>) returns (r: System)
    requires Hidden(s) && 61 * MINUTE <= now < 284 * MINUTE
    ensures Hidden(r) && r.calls == s.calls && Run(s, Tick(now) + rest) == Run(r, rest)
  {
    hide Run, Next, Warn, ToNotify, Inspect;
    NothingToWarn(s, now);
    StopsAboveHidden(s, now);
    QuietRound(s, now);
    r := s.(past := s.past.(lastWarn := now));
    RunThree(s, TickBegins(now, []), StartPopping, PopOne, rest);
  }

  lemma FirstTick(nows: seq<Instant>, rest: seq<Action>)
    requires nows != []
    ensures TickRun(nows) + rest == Tick(nows[0]) + (TickRun(nows[1..]) + rest)
  {
  }

  lemma {:induction false} HiddenTicks(s: System, nows: seq<Instant>, rest: seq<Action>) returns (r: System)
    requires Hidden(s) && forall i :: 0 <= i < |nows| ==> 61 * MINUTE <= nows[i] < 284 * MINUTE
    ensures Hidden(r) && r.calls == s.calls && Run(s, TickRun(nows) + rest) == Run(r, rest)
    decreases |nows|
  {
    if nows == [] {
      r := s;
      assert TickRun(nows) + rest == rest;
    } else {
      hide Run, Tracks, Tick, TickRun;
      FirstTick(nows, rest);
      var r1 := HiddenTick(s, nows[0], TickRun(nows[1..]) + rest);
      r := HiddenTicks(r1, nows[1..], rest);
    }
  }

  /**
   A session can outlive its ceiling by almost an hour: from minute 61, when it expires, through any
   number of ticks up to minute 284, any sweep before minute 299 stops above it, although its ceiling is
   minute 241.
   */
  lemma OutlivesItsCeiling(nows: seq<Instant>, now: Instant)
    requires forall i :: 0 <= i < |nows| ==> 61 * MINUTE <= nows[i] < 284 * MINUTE
    requires 61 * MINUTE <= now < 299 * MINUTE
    ensures var s := Run(Start(PRODUCTION, 0), HIDING + (PROLONGING + TickRun(nows)));
            && Due(s.store, "b", now) && "b" in s.past.granted && s.past.granted["b"] + 4 * HOUR == 241 * MINUTE
            && RevokeExpired(s.store, now) == Swept(s.store, [])
  {
    hide Run, RevokeExpired;
    var s := AfterHiding(TickRun(nows));
    var r := HiddenTicks(s, nows, []);
    RunNone(r);
    assert TickRun(nows) + [] == TickRun(nows);
    StopsAboveHidden(r, now);
  }

  const PAST_CEILING: seq<Action> :=
    [RequestExtension("b", 245 * MINUTE),
     IssueReturns(Reissuing("b", 61 * MINUTE, 121 * MINUTE, false, 60 * MINUTE), 245 * MINUTE, 245 * MINUTE,
                  Some("s"))]

  /** ... and a request for it past the ceiling does not revoke it: it is extended, and a credential is
      minted that lapses more than an hour past the ceiling, whatever ticks there were. */
  lemma ExtendedPastItsCeiling(nows: seq<Instant>)
    requires forall i :: 0 <= i < |nows| ==> 61 * MINUTE <= nows[i] <= 245 * MINUTE
    ensures AcceptedLimits(PRODUCTION)
    ensures var r := Run(Start(PRODUCTION, 0), HIDING + (PROLONGING + (TickRun(nows) + PAST_CEILING)));
            && Live(r.store, "b") && r.store.toks["b"].expiresAt == 121 * MINUTE
            && Credential("b", 245 * MINUTE, 60 * MINUTE) in r.past.minted
            && "b" in r.past.granted && r.past.granted["b"] + 5 * HOUR < 305 * MINUTE
  {
    hide Run, TickRun, Next, Tracks;
    var s0 := AfterHiding(TickRun(nows) + PAST_CEILING);
    var s := HiddenTicks(s0, nows, PAST_CEILING);
    ThenExtended(s);
    RunTwo(s, PAST_CEILING[0], PAST_CEILING[1]);
  }

  lemma ThenExtended(s: System)
    requires Hidden(s)
    ensures Indexed(s.store)
    ensures var r := Next(Next(s, PAST_CEILING[0]), PAST_CEILING[1]);
            && Live(r.store, "b") && r.store.toks["b"].expiresAt == 121 * MINUTE
            && Credential("b", 245 * MINUTE, 60 * MINUTE) in r.past.minted
            && "b" in r.past.granted && r.past.granted["b"] + 5 * HOUR < 305 * MINUTE
  {
    hide Next;
    var table := HidingTable(299 * MINUTE);
    ExtendTracked(s, PRODUCTION, table, "b", 245 * MINUTE);
    var s1 := Next(s, PAST_CEILING[0]);
    assert "b" in table["b" := (1 * MINUTE, 121 * MINUTE)];
    IssueTracked(s1, PAST_CEILING[1].call, 245 * MINUTE, "s");
  }

  lemma RunTwo(s: System, a: Action, b: Action)
    requires Indexed(s.store)
    ensures Run(s, [a, b]) == Next(Next(s, a), b)
  {
    hide Run, Next;
    assert [a] + [b] == [a, b] && [b] + [] == [b];
    RunOne(s, a, [b]);
    RunOne(Next(s, a), b, []);
    RunNone(Next(Next(s, a), b));
  }

  lemma IssueTracked(s: System, call: Call, at: Instant, secret: string)
    requires Indexed(s.store) && call.Reissuing? && call in s.calls
    ensures var r := Next(s, IssueReturns(call, at, at, Some(secret)));
            && r.store == s.store && r.past.granted == s.past.granted && Minted(call, at, at) in r.past.minted
  {
  }

  // ---------- A re-issue above the limit on a grant ----------

  /** A session of an hour, requested three times a minute later. */
  const ASKING: seq<Action> :=
    [Grant(NewToken("a", 1 * MINUTE, 61 * MINUTE), 1 * MINUTE),
     RequestExtension("a", 2 * MINUTE), RequestExtension("a", 2 * MINUTE)]
  const ASKED: seq<Action> :=
    [RequestExtension("a", 2 * MINUTE),
     IssueReturns(Reissuing("a", 181 * MINUTE, 241 * MINUTE, true, 60 * MINUTE), 2 * MINUTE, 2 * MINUTE,
                  Some("s"))]

  function AskingTable(expiry: Instant): Table {
    map["a" := (1 * MINUTE, expiry)]
  }

  lemma AfterAsking() returns (s: System)
    ensures Tracks(s, PRODUCTION, AskingTable(181 * MINUTE))
    ensures Run(Start(PRODUCTION, 0), ASKING + ASKED) == Run(s, ASKED)
  {
    hide Run, Next, Tracks;
    var s0 := Start(PRODUCTION, 0);
    StartTracks(PRODUCTION, 0);
    GrantLater(s0, PRODUCTION, map[], "a", 1 * MINUTE, 61 * MINUTE);
    var s1 := Next(s0, ASKING[0]);
    assert map["a" := (1 * MINUTE, 61 * MINUTE)] == AskingTable(61 * MINUTE);
    ExtendTracked(s1, PRODUCTION, AskingTable(61 * MINUTE), "a", 2 * MINUTE);
    var s2 := Next(s1, ASKING[1]);
    assert AskingTable(61 * MINUTE)["a" := (1 * MINUTE, 121 * MINUTE)] == AskingTable(121 * MINUTE);
    ExtendTracked(s2, PRODUCTION, AskingTable(121 * MINUTE), "a", 2 * MINUTE);
    s := Next(s2, ASKING[2]);
    assert AskingTable(121 * MINUTE)["a" := (1 * MINUTE, 181 * MINUTE)] == AskingTable(181 * MINUTE);
    RunThree(s0, ASKING[0], ASKING[1], ASKING[2], ASKED);
  }

  /** The third request has the provider mint a credential of 239 minutes. */
  lemma MintedAboveTheLimit()
    ensures var r := Run(Start(PRODUCTION, 0), ASKING + ASKED);
            Credential("a", 2 * MINUTE, 239 * MINUTE) in r.past.minted && 239 * MINUTE > MAX_TTL
  {
    hide Run, Next;
    var s := AfterAsking();
    ExtendTracked(s, PRODUCTION, AskingTable(181 * MINUTE), "a", 2 * MINUTE);
    IssueTracked(Next(s, ASKED[0]), ASKED[1].call, 2 * MINUTE, "s");
    RunTwo(s, ASKED[0], ASKED[1]);
  }
}
