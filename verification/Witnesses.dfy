/** Runs of the broker that show which assumptions of the run theorems are needed. */
module Witnesses {
  import opened Clock
  import opened Tokens
  import opened ExpiryHeap
  import opened Sections
  import opened Ticks
  import opened Persistence
  import opened Recovery
  import opened Protocol
  import opened Safety
  import opened Warnings
  import opened Disorder
  import opened HandOvers

  function NewToken(id: string, at: Instant, expiry: Instant): Token {
    Token(id, "", "", "", "", at, expiry, 0, 0, false, false, "", "")
  }

  lemma ThreeFirst(a: Action, b: Action, c: Action, rest: seq<Action>)
    ensures [a, b, c] + rest == [a] + ([b] + ([c] + rest))
  {
  }

  lemma RunThree(s: System, a: Action, b: Action, c: Action, rest: seq<Action>)
    requires Indexed(s.store)
    ensures Run(s, [a, b, c] + rest) == Run(Next(Next(Next(s, a), b), c), rest)
  {
    hide Next, Run, Indexed;
    ThreeFirst(a, b, c, rest);
    RunOne(s, a, [b] + ([c] + rest));
    RunOne(Next(s, a), b, [c] + rest);
    RunOne(Next(Next(s, a), b), c, rest);
  }

  /** The first grant and the expiry of each session. */
  type Table = map<string, (Instant, Instant)>

  /** The store holds the sessions of the table, all live, and has granted no others; the worker is
      idle. */
  ghost predicate Tracks(s: System, limits: Limits, table: Table) {
    && s.limits == limits && Indexed(s.store) && s.worker.Idle? && s.pending == multiset{}
    && s.store.toks.Keys == table.Keys && s.past.granted.Keys == table.Keys
    && forall id :: id in table ==>
         var t := s.store.toks[id];
         && t.id == id && !t.revoked && t.originalIssuedAt == table[id].0 && t.expiresAt == table[id].1
         && s.past.granted[id] == table[id].0
  }

  lemma StartTracks(limits: Limits, at: Instant)
    ensures Tracks(Start(limits, at), limits, map[])
  {
  }

  /** Granting a session that expires no earlier than the others. */
  lemma GrantLater(s: System, limits: Limits, table: Table, id: string, at: Instant, expiry: Instant)
    requires Tracks(s, limits, table) && id !in table && at != 0
    requires forall x :: x in table ==> table[x].1 <= expiry
    ensures var r := Next(s, Grant(NewToken(id, at, expiry), at));
            && Tracks(r, limits, table[id := (at, expiry)]) && r.store.heap == s.store.heap + [id]
            && r.past.minted >= s.past.minted && r.calls == s.calls
  {
    var t := NewToken(id, at, expiry);
    LateStaysLast(s.store, t);
    assert Enabled(s, Grant(t, at));
  }

  lemma ExtensionNext(s: System, id: string, now: Instant, expiry: Instant)
    requires Indexed(s.store) && Live(s.store, id)
    requires var t := s.store.toks[id]; var ceiling := Ceiling(t, s.limits);
             && (t.expiresAt + s.limits.ttl < ceiling || now < ceiling)
             && expiry == if t.expiresAt + s.limits.ttl < ceiling then t.expiresAt + s.limits.ttl else ceiling
    ensures var t := s.store.toks[id];
            Next(s, RequestExtension(id, now))
            == Extending(s, Prolong(s.store, id, expiry),
                         Reissuing(id, t.expiresAt, expiry, !(t.expiresAt + s.limits.ttl < Ceiling(t, s.limits)),
                                   s.limits.ttl))
  {
    hide Prolong;
  }

  /** Extending a session of the table, by a full ttl or up to its ceiling. */
  lemma ExtendTracked(s: System, limits: Limits, table: Table, id: string, now: Instant)
    requires Tracks(s, limits, table) && id in table
    requires var ceiling := table[id].0 + limits.maxSession; table[id].1 + limits.ttl < ceiling || now < ceiling
    ensures var r := Next(s, RequestExtension(id, now));
            var full, ceiling := table[id].1 + limits.ttl, table[id].0 + limits.maxSession;
            var expiry := if full < ceiling then full else ceiling;
            && Tracks(r, limits, table[id := (table[id].0, expiry)]) && r.store.heap == s.store.heap
            && r.past.minted == s.past.minted
            && r.calls == s.calls + multiset{Reissuing(id, table[id].1, expiry, !(full < ceiling), limits.ttl)}
  {
    hide Next;
    var full, ceiling := table[id].1 + limits.ttl, table[id].0 + limits.maxSession;
    ExtensionNext(s, id, now, if full < ceiling then full else ceiling);
  }

  const WIDE := Limits(1000, 10000, 15)

  /** Two sessions, of which the one that expires first is extended past the other. */
  const OVERTAKING: seq<Action> :=
    [Grant(NewToken("a", 10, 110), 10), Grant(NewToken("b", 10, 200), 10), RequestExtension("a", 50)]

  /** One tick of the worker, with nothing to warn about. */
  const QUIET_TICK: seq<Action> := [TickBegins(300, []), StartPopping, PopOne]

  ghost predicate Overtaken(s: System) {
    && s.store.heap == ["a", "b"] && s.worker.Idle? && s.limits == WIDE
    && s.store.toks.Keys == {"a", "b"}
    && !s.store.toks["b"].revoked && !s.store.toks["a"].revoked
    && s.store.toks["a"].expiresAt == 1110 && s.store.toks["b"].expiresAt == 200
    && s.pending == multiset{}
  }

  lemma AfterOvertaking(rest: seq<Action>) returns (s: System)
    ensures Overtaken(s)
    ensures Run(Start(WIDE, 0), OVERTAKING + rest) == Run(s, rest)
  {
    hide Run, Next;
    var s0 := Start(WIDE, 0);
    var a, b, c := OVERTAKING[0], OVERTAKING[1], OVERTAKING[2];
    StartTracks(WIDE, 0);
    GrantLater(s0, WIDE, map[], "a", 10, 110);
    var s1 := Next(s0, a);
    assert s1.store.heap == ["a"];
    GrantLater(s1, WIDE, map["a" := (10, 110)], "b", 10, 200);
    var s2 := Next(s1, b);
    assert s2.store.heap == ["a", "b"];
    ExtendTracked(s2, WIDE, map["a" := (10, 110), "b" := (10, 200)], "a", 50);
    s := Next(s2, c);
    assert map["a" := (10, 110), "b" := (10, 200)]["a" := (10, 1110)] == map["a" := (10, 1110), "b" := (10, 200)];
    RunThree(s0, a, b, c, rest);
  }

  /** A whole tick with nothing to warn about that stops at once changes only the time of the last
      warning round. */
  lemma QuietRound(s: System, now: Instant)
    requires Indexed(s.store) && s.worker.Idle? && Inspect(s.store, now).Done?
    requires ToNotify(s.store, s.limits, now) == {} && Warn(s.store, s.limits, now) == s.store
    ensures Next(Next(Next(s, TickBegins(now, [])), StartPopping), PopOne)
            == s.(past := s.past.(lastWarn := now))
  {
    hide Warn, ToNotify, Inspect;
    var s1 := Next(s, TickBegins(now, []));
    assert s1 == s.(worker := Warning(now, []), past := s.past.(lastWarn := now));
    var s2 := Next(s1, StartPopping);
    assert s2 == s1.(worker := Popping(now));
  }

  lemma QuietTick(s: System)
    requires Overtaken(s)
    ensures Indexed(s.store)
    ensures var r := Run(s, QUIET_TICK); r.worker.Idle? && Due(r.store, "b", 300) && r.pending == multiset{}
  {
    hide Run, Next;
    assert ToNotify(s.store, WIDE, 300) == {} && Warn(s.store, WIDE, 300) == s.store;
    QuietRound(s, 300);
    RunThree(s, TickBegins(300, []), StartPopping, PopOne, []);
    RunNone(s.(past := s.past.(lastWarn := 300)));
    assert QUIET_TICK + [] == QUIET_TICK;
  }

  /** A reachable state in which an extension has disordered the heap, and a tick at 300 that stops
      at the extended root above a live session that expired at 200. */
  lemma ExtensionCanHideExpired()
    ensures var s := Run(Start(WIDE, 0), OVERTAKING);
            Consistent(s.store) && !Ordered(s.store.toks, s.store.heap) && Due(s.store, "b", 300)
    ensures var r := Run(Start(WIDE, 0), OVERTAKING + QUIET_TICK);
            r.worker.Idle? && Due(r.store, "b", 300) && r.pending == multiset{}
  {
    StartIsSane(WIDE, 0);
    NoLiveSessionIsLost(Start(WIDE, 0), OVERTAKING);
    var s := AfterOvertaking([]);
    assert OVERTAKING + [] == OVERTAKING;
    assert Less(s.store.toks, s.store.heap[1], s.store.heap[Parent(1)]);
    var s' := AfterOvertaking(QUIET_TICK);
    QuietTick(s');
  }

  // ---------- Out of order, and on time for now ----------

  const ROOMY := Limits(300, 10000, 15)

  /** Four sessions, of which the second is extended past the one below it in the heap. */
  const FOUR_GRANTS: seq<Action> :=
    [Grant(NewToken("r", 10, 100), 10), Grant(NewToken("p", 10, 200), 10), Grant(NewToken("q", 10, 300), 10),
     Grant(NewToken("x", 10, 400), 10)]
  const EXTENDED_ABOVE: seq<Action> := FOUR_GRANTS + [RequestExtension("p", 50)]

  /** The last entry is under a session that outlives it, and will be moved first. */
  ghost predicate LeafBelow(s: State) {
    && s.heap == ["r", "p", "q", "x"] && s.toks.Keys == {"r", "p", "q", "x"}
    && s.toks["r"].expiresAt == 100 && s.toks["p"].expiresAt == 500
    && s.toks["q"].expiresAt == 300 && s.toks["x"].expiresAt == 400
  }

  lemma AfterFourGrants() returns (s: System)
    ensures Tracks(s, ROOMY, map["r" := (10, 100), "p" := (10, 200), "q" := (10, 300), "x" := (10, 400)])
    ensures Run(Start(ROOMY, 0), EXTENDED_ABOVE) == Run(s, [RequestExtension("p", 50)])
    ensures s.store.heap == ["r", "p", "q", "x"]
  {
    hide Run, Next, Tracks;
    var s0 := Start(ROOMY, 0);
    StartTracks(ROOMY, 0);
    GrantLater(s0, ROOMY, map[], "r", 10, 100);
    var s1 := Next(s0, FOUR_GRANTS[0]);
    GrantLater(s1, ROOMY, map["r" := (10, 100)], "p", 10, 200);
    var s2 := Next(s1, FOUR_GRANTS[1]);
    GrantLater(s2, ROOMY, map["r" := (10, 100), "p" := (10, 200)], "q", 10, 300);
    var s3 := Next(s2, FOUR_GRANTS[2]);
    GrantLater(s3, ROOMY, map["r" := (10, 100), "p" := (10, 200), "q" := (10, 300)], "x", 10, 400);
    s := Next(s3, FOUR_GRANTS[3]);
    var rest := [FOUR_GRANTS[3]] + [RequestExtension("p", 50)];
    RunThree(s0, FOUR_GRANTS[0], FOUR_GRANTS[1], FOUR_GRANTS[2], rest);
    RunOne(s3, FOUR_GRANTS[3], [RequestExtension("p", 50)]);
    assert [FOUR_GRANTS[0], FOUR_GRANTS[1], FOUR_GRANTS[2]] + rest == EXTENDED_ABOVE;
  }

  lemma AfterExtendedAbove()
    ensures LeafBelow(Run(Start(ROOMY, 0), EXTENDED_ABOVE).store)
  {
    hide Run, Next;
    var s := AfterFourGrants();
    ExtendTracked(s, ROOMY, map["r" := (10, 100), "p" := (10, 200), "q" := (10, 300), "x" := (10, 400)], "p", 50);
    RunOne(s, RequestExtension("p", 50), []);
    RunNone(Next(s, RequestExtension("p", 50)));
    assert [RequestExtension("p", 50)] + [] == [RequestExtension("p", 50)];
  }

  /** A sift of one step, on four entries. */
  lemma SiftsOnce(toks: Sessions, a: string, b: string, c: string, d: string)
    requires a in toks && b in toks && c in toks && d in toks
    requires Less(toks, c, a) && Less(toks, c, b)
    ensures Known(toks, [a, b, c, d]) && Down(toks, [a, b, c, d], 0, 3) == [c, b, a, d]
  {
    hide Down;
    var h := [a, b, c, d];
    assert Earlier(toks, h, 0, 3) == 2;
    DownMoves(toks, h, 0, 3, 2);
    assert Swap(h, 0, 2) == [c, b, a, d];
    DownStops(toks, Swap(h, 0, 2), 2, 3);
  }

  lemma EndsSwapped(a: string, b: string, c: string, d: string)
    ensures Swap([a, b, c, d], 0, 3) == [d, b, c, a]
  {
  }

  /** Popping the root takes the last entry from under its parent. */
  lemma LeafEscapes(toks: Sessions, a: string, b: string, c: string, d: string)
    requires a in toks && b in toks && c in toks && d in toks
    requires Less(toks, c, d) && Less(toks, c, b)
    ensures Known(toks, [a, b, c, d]) && Pop(toks, [a, b, c, d]) == [c, b, d]
  {
    hide Down, Pop, Swap;
    EndsSwapped(a, b, c, d);
    SiftsOnce(toks, d, b, c, a);
    PopCutsRoot(toks, [a, b, c, d], [c, b, d, a]);
  }

  lemma LeafIsTimely(s: State, now: Instant)
    requires Consistent(s) && LeafBelow(s)
    ensures Timely(s, now, RevokeExpired(s, now))
  {
    hide Timely, RevokeExpired, Pop, PopTop, Consistent;
    if 400 <= now < 500 {
      LeafEscapes(s.toks, "r", "p", "q", "x");
      RoundEffect(s, now);
      MarkedRootOnTop(s, now);
      OneRoundToOrder(s, now);
    } else {
      assert ExpiredOnTop(s.toks, s.heap, now);
      TickIsTimely(s, now);
    }
  }

  lemma LeafDisorders(s: State)
    requires Indexed(s) && LeafBelow(s)
    ensures !Ordered(s.toks, s.heap)
  {
    assert Less(s.toks, s.heap[3], s.heap[Parent(3)]);
  }

  lemma MarkedRootOnTop(s: State, now: Instant)
    requires Indexed(s) && LeafBelow(s) && 400 <= now < 500 && Pop(s.toks, s.heap) == ["q", "p", "x"]
    ensures ExpiredOnTop(PopTop(s, now).toks, PopTop(s, now).heap, now)
  {
    hide Pop;
  }

  /** A reachable state whose heap is out of order although a tick at any instant is on time; but there
      are grants of at most the configured ttl after which one leaves a live session due. */
  lemma DisorderedYetTimely()
    ensures var s := Run(Start(ROOMY, 0), EXTENDED_ABOVE).store;
            && Consistent(s) && !Ordered(s.toks, s.heap)
            && (forall now :: Timely(s, now, RevokeExpired(s, now)))
            && !NothingLateWhateverComes(s, ROOMY.ttl)
  {
    hide NothingLateWhateverComes, Run, Timely, RevokeExpired, LeafBelow, Ordered;
    var s := Run(Start(ROOMY, 0), EXTENDED_ABOVE).store;
    StartIsSane(ROOMY, 0);
    NoLiveSessionIsLost(Start(ROOMY, 0), EXTENDED_ABOVE);
    AfterExtendedAbove();
    LeafDisorders(s);
    forall now ensures Timely(s, now, RevokeExpired(s, now)) {
      LeafIsTimely(s, now);
    }
    OrderedIffNothingLateWhateverComes(s, ROOMY.ttl);
  }

  // ---------- Restarts that repeat and lose hand-overs ----------

  const LOST := Registered(NewToken("a", 10, 110))
  const STALE_FILE: seq<Record> := [ToRecord(LOST)]

  /** A session revoked after the file was saved, and a restart from that file. */
  const REVOKED_SINCE_SAVE: seq<Action> := [Grant(NewToken("a", 10, 110), 10), Save(STALE_FILE), ManualRevoke("a")]
  const RESTARTED: seq<Action> := [HandOver("a"), Restart(WIDE, 120), HandOver("a")]

  lemma AfterLateRevoke(rest: seq<Action>) returns (s: System)
    ensures Indexed(s.store) && s.pending == multiset{"a"} && s.file == STALE_FILE
    ensures s.past.handedEver == multiset{}
    ensures Run(Start(WIDE, 0), REVOKED_SINCE_SAVE + rest) == Run(s, rest)
  {
    hide Run;
    var s0 := Start(WIDE, 0);
    var a, b, c := REVOKED_SINCE_SAVE[0], REVOKED_SINCE_SAVE[1], REVOKED_SINCE_SAVE[2];
    var s1 := Next(s0, a);
    assert s1.store.toks == map["a" := LOST];
    assert ToRecord(LOST) == STALE_FILE[0];
    var s2 := Next(s1, b);
    s := Next(s2, c);
    RunThree(s0, a, b, c, rest);
  }

  lemma RestartPending(s: System, limits: Limits, at: Instant)
    requires Indexed(s.store)
    ensures Next(s, Restart(limits, at)).pending == multiset(Recover(s.file, at).handed)
    ensures Next(s, Restart(limits, at)).past.handedEver == s.past.handedEver
  {
    hide Next, Recover;
    RestartNext(s, limits, at);
  }

  lemma HandOverNext(s: System, id: string)
    requires Indexed(s.store) && id in s.pending
    ensures Next(s, HandOver(id)).past.handedEver == s.past.handedEver + multiset{id}
    ensures Next(s, HandOver(id)).file == s.file
  {
  }

  /** Without a save right before the restart, the next process can hand a session over again. */
  lemma StaleFileHandsOverAgain()
    ensures Run(Start(WIDE, 0), REVOKED_SINCE_SAVE + RESTARTED).past.handedEver["a"] == 2
  {
    var s := AfterLateRevoke(RESTARTED);
    HandOverNext(s, "a");
    var s1 := Next(s, HandOver("a"));
    RestartPending(s1, WIDE, 120);
    HandOverNext(Next(s1, Restart(WIDE, 120)), "a");
    RunThree(s, RESTARTED[0], RESTARTED[1], RESTARTED[2], []);
    assert RESTARTED + [] == RESTARTED;
  }

  const REVOKED_FILE: seq<Record> := [ToRecord(LOST.(revoked := true))]

  /** A session revoked by hand, and a save before it is handed over. */
  const SAVED_TOO_SOON: seq<Action> := [Grant(NewToken("a", 10, 110), 10), ManualRevoke("a"), Save(REVOKED_FILE)]

  lemma AfterSavedTooSoon() returns (s: System)
    ensures s == Run(Start(WIDE, 0), SAVED_TOO_SOON) && Sane(s) && Granted(s)
    ensures "a" in s.pending && "a" in s.past.granted && s.past.handedEver == multiset{} && !Live(s.saved, "a")
  {
    hide Run;
    var s0 := Start(WIDE, 0);
    var a, b, c := SAVED_TOO_SOON[0], SAVED_TOO_SOON[1], SAVED_TOO_SOON[2];
    var s1 := Next(s0, a);
    assert s1.store.toks == map["a" := LOST];
    var s2 := Next(s1, b);
    assert s2.store.toks == map["a" := LOST.(revoked := true)];
    assert ToRecord(LOST.(revoked := true)) == REVOKED_FILE[0];
    s := Next(s2, c);
    RunThree(s0, a, b, c, []);
    RunNone(s);
    assert SAVED_TOO_SOON + [] == SAVED_TOO_SOON;
    StartIsSane(WIDE, 0);
    NoLiveSessionIsLost(s0, SAVED_TOO_SOON);
  }

  /** A session marked revoked in the file, and claimed but not handed over when the process dies, is
      never handed over, whatever happens after the restart. */
  lemma RestartLosesHandOver(limits: Limits, at: Instant, acts: seq<Action>)
    ensures "a" in Run(Start(WIDE, 0), SAVED_TOO_SOON).pending
    ensures Run(Next(Run(Start(WIDE, 0), SAVED_TOO_SOON), Restart(limits, at)), acts).past.handedEver["a"] == 0
  {
    hide Run, Next, OnRestart;
    var s := AfterSavedTooSoon();
    SettledByRestart(s, limits, at, "a");
    RestartNext(s, limits, at);
    SettledForever(OnRestart(s, limits, at), acts, "a");
  }

  // ---------- Expiring exactly at a tick ----------

  /** A tick, and ten later another, with a warning window of fifteen; between them a session of ten. */
  const EARLY_TICK: seq<Action> := [TickBegins(5, []), StartPopping, PopOne]
  const EXPIRING_TICK: seq<Action> := [Grant(NewToken("a", 5, 15), 5), TickBegins(15, []), StartPopping]

  /** Exactly the ticks' spacing of life left is not enough: the session expires at the very tick that
      would have warned it, and is claimed unwarned. */
  lemma ExpiresUnwarned()
    ensures var r := Run(Start(WIDE, 0), EARLY_TICK + EXPIRING_TICK);
            && r.worker == Popping(15) && Inspect(r.store, 15) == Claimed("a")
            && r.past.warnings == multiset{} && "a" !in r.past.warnedSince
  {
    hide Run, Next;
    var s := AfterEarlyTick();
    ExpiringGrant(s);
    var s1 := Next(s, EXPIRING_TICK[0]);
    ExpiringTick(s1);
    var s2 := Next(s1, EXPIRING_TICK[1]);
    RunThree(s, EXPIRING_TICK[0], EXPIRING_TICK[1], StartPopping, []);
    RunNone(Next(s2, StartPopping));
    assert EXPIRING_TICK + [] == EXPIRING_TICK;
  }

  lemma ExpiringGrant(s: System)
    requires s == Start(WIDE, 0).(past := Start(WIDE, 0).past.(lastWarn := 5))
    ensures var r := Next(s, EXPIRING_TICK[0]);
            && r == s.(store := r.store, past := r.past)
            && r.past.warnings == multiset{} && "a" !in r.past.warnedSince
            && r.store.toks == map["a" := Registered(NewToken("a", 5, 15))] && r.store.heap == ["a"]
  {
    assert Enabled(s, EXPIRING_TICK[0]);
  }

  lemma ExpiringTick(s: System)
    requires s.limits == WIDE && s.worker.Idle? && s.store.heap == ["a"]
    requires s.store.toks == map["a" := Registered(NewToken("a", 5, 15))]
    ensures Indexed(s.store)
    ensures var r := Next(Next(s, TickBegins(15, [])), StartPopping);
            && r.worker == Popping(15) && Inspect(r.store, 15) == Claimed("a")
            && r.past.warnings == s.past.warnings && r.past.warnedSince == s.past.warnedSince
  {
    assert ToNotify(s.store, WIDE, 15) == {};
    var s1 := Next(s, TickBegins(15, []));
    assert s1.worker == Warning(15, []);
  }

  lemma AfterEarlyTick() returns (s: System)
    ensures s == Start(WIDE, 0).(past := s.past) && s.past == Start(WIDE, 0).past.(lastWarn := 5)
    ensures Run(Start(WIDE, 0), EARLY_TICK + EXPIRING_TICK) == Run(s, EXPIRING_TICK)
  {
    hide Run;
    var s0 := Start(WIDE, 0);
    assert ToNotify(EMPTY, WIDE, 5) == {};
    var s1 := Next(s0, EARLY_TICK[0]);
    assert s1.store.toks == map[];
    var s2 := Next(s1, StartPopping);
    s := Next(s2, PopOne);
    RunThree(s0, EARLY_TICK[0], StartPopping, PopOne, EXPIRING_TICK);
  }

  // ---------- Warnings after a restart from a stale file ----------

  const WATCHFUL := Limits(1000, 10000, 5000)

  const WARNED_ONCE: seq<Action> :=
    [Grant(NewToken("a", 10, 110), 10), Save(STALE_FILE), TickBegins(20, ["a"])]
  const TICKED: seq<Action> := [SendWarning, StartPopping, PopOne]
  const WARNED_AGAIN: seq<Action> := [RequestExtension("a", 30), TickBegins(40, ["a"]), SendWarning]
  const WARNED_AFTER_RESTART: seq<Action> := [Restart(WATCHFUL, 50), TickBegins(60, ["a"]), SendWarning]

  /** One session, in the heap, with a file from before its extension. */
  ghost predicate OneSession(s: System, t: Token, warnings: multiset<string>) {
    && s.limits == WATCHFUL && s.file == STALE_FILE && s.past.warnings == warnings
    && s.store.toks == map["a" := t] && s.store.heap == ["a"]
  }

  lemma FirstGranted(s: System)
    requires s == Start(WATCHFUL, 0)
    ensures var r := Next(s, WARNED_ONCE[0]);
            && r == s.(store := r.store, past := r.past) && r.past.warnings == multiset{} && r.past.restarts == 0
            && r.store.toks == map["a" := LOST] && r.store.heap == ["a"]
  {
  }

  lemma SaveNext(s: System, file: seq<Record>)
    requires Indexed(s.store) && Snapshot(s.store.toks, file)
    ensures Next(s, Save(file)) == s.(file := file, saved := s.store)
  {
  }

  lemma FirstTick(s: System)
    requires OneSession(s, LOST, multiset{}) && s.worker.Idle?
    ensures Indexed(s.store)
    ensures var r := Next(s, TickBegins(20, ["a"]));
            && OneSession(r, LOST.(notifiedExpiry := true), multiset{})
            && r.worker == Warning(20, ["a"]) && r.past.restarts == s.past.restarts
  {
    assert ToNotify(s.store, WATCHFUL, 20) == {"a"};
  }

  lemma FirstWarning(rest: seq<Action>) returns (s: System)
    ensures OneSession(s, LOST.(notifiedExpiry := true), multiset{})
    ensures s.worker == Warning(20, ["a"]) && s.past.restarts == 0
    ensures Run(Start(WATCHFUL, 0), WARNED_ONCE + rest) == Run(s, rest)
  {
    hide Run, Next;
    var s0 := Start(WATCHFUL, 0);
    var s1 := Next(s0, WARNED_ONCE[0]);
    FirstGranted(s0);
    assert ToRecord(LOST) == STALE_FILE[0];
    var s2 := Next(s1, WARNED_ONCE[1]);
    SaveNext(s1, STALE_FILE);
    s := Next(s2, WARNED_ONCE[2]);
    FirstTick(s2);
    RunThree(s0, WARNED_ONCE[0], WARNED_ONCE[1], WARNED_ONCE[2], rest);
  }

  lemma FinishTick(s: System, rest: seq<Action>) returns (r: System)
    requires OneSession(s, LOST.(notifiedExpiry := true), multiset{}) && s.worker == Warning(20, ["a"])
    ensures OneSession(r, LOST.(notifiedExpiry := true), multiset{"a"})
    ensures r.worker == Idle && r.past.restarts == s.past.restarts
    ensures Indexed(s.store) && Run(s, TICKED + rest) == Run(r, rest)
  {
    hide Run;
    var s1 := Next(s, SendWarning);
    var s2 := Next(s1, StartPopping);
    assert s2.worker == Popping(20);
    r := Next(s2, PopOne);
    RunThree(s, SendWarning, StartPopping, PopOne, rest);
  }

  /** A tick that warns the one session, and the sending. */
  lemma WarnOnce(s: System, t: Token, warnings: multiset<string>, now: Instant)
    requires OneSession(s, t, warnings) && s.worker == Idle && WarningDue(t, WATCHFUL, now)
    ensures Indexed(s.store)
    ensures var r := Next(Next(s, TickBegins(now, ["a"])), SendWarning);
            && OneSession(r, t.(notifiedExpiry := true), warnings + multiset{"a"})
            && r.past.restarts == s.past.restarts
  {
    hide WarningDue;
    assert ToNotify(s.store, WATCHFUL, now) == {"a"};
    var s1 := Next(s, TickBegins(now, ["a"]));
    assert s1.worker == Warning(now, ["a"]);
  }

  lemma ExtendOnce(s: System)
    requires OneSession(s, LOST.(notifiedExpiry := true), multiset{"a"}) && s.worker == Idle
    ensures Indexed(s.store)
    ensures var r := Next(s, RequestExtension("a", 30));
            && OneSession(r, Lengthened(LOST, 1110), multiset{"a"})
            && r.worker == Idle && r.past.restarts == s.past.restarts
  {
  }

  lemma SecondWarning(s: System, rest: seq<Action>) returns (r: System)
    requires OneSession(s, LOST.(notifiedExpiry := true), multiset{"a"}) && s.worker == Idle
    ensures OneSession(r, Lengthened(LOST, 1110).(notifiedExpiry := true), multiset{"a", "a"})
    ensures r.past.restarts == s.past.restarts
    ensures Indexed(s.store) && Run(s, WARNED_AGAIN + rest) == Run(r, rest)
  {
    hide Run, Next, WarningDue;
    ExtendOnce(s);
    var s1 := Next(s, WARNED_AGAIN[0]);
    DueInWindow(Lengthened(LOST, 1110), 40);
    WarnOnce(s1, Lengthened(LOST, 1110), multiset{"a"}, 40);
    r := Next(Next(s1, WARNED_AGAIN[1]), SendWarning);
    RunThree(s, WARNED_AGAIN[0], WARNED_AGAIN[1], SendWarning, rest);
  }

  lemma DueInWindow(t: Token, now: Instant)
    requires !t.revoked && !t.notifiedExpiry && now < t.expiresAt <= now + 5000
    ensures WarningDue(t, WATCHFUL, now)
  {
  }

  lemma StaleReadmission()
    ensures Recover(STALE_FILE, 50).state.toks == map["a" := LOST]
    ensures Recover(STALE_FILE, 50).state.heap == ["a"]
  {
    var r := ToRecord(LOST);
    assert STALE_FILE[..0] == [] && [r][..0] == [];
    assert Active(STALE_FILE) == [r];
    assert AllMissed([r], 50) == [];
    assert ReadmitInto(EMPTY, [r][..0], 50) == EMPTY;
    assert Readmit([r], 50) == Add(EMPTY, LOST);
  }

  lemma RestartStore(s: System, limits: Limits, at: Instant)
    requires Indexed(s.store)
    ensures var r := Next(s, Restart(limits, at));
            && r.store == Recover(s.file, at).state && r.limits == limits && r.file == s.file && r.worker == Idle
            && r.past.warnings == s.past.warnings && r.past.restarts == s.past.restarts + 1
  {
    hide Next, Recover;
    RestartNext(s, limits, at);
  }

  lemma ThirdWarning(s: System)
    requires OneSession(s, Lengthened(LOST, 1110).(notifiedExpiry := true), multiset{"a", "a"})
    ensures Indexed(s.store)
    ensures var r := Run(s, WARNED_AFTER_RESTART);
            && OneSession(r, LOST.(notifiedExpiry := true), multiset{"a", "a", "a"})
            && r.past.restarts == s.past.restarts + 1
  {
    hide Run, Next, Recover, WarningDue;
    StaleReadmission();
    RestartStore(s, WATCHFUL, 50);
    var s1 := Next(s, Restart(WATCHFUL, 50));
    assert OneSession(s1, LOST, multiset{"a", "a"}) && s1.worker == Idle;
    var s2 := Next(s1, WARNED_AFTER_RESTART[1]);
    DueInWindow(LOST, 60);
    WarnOnce(s1, LOST, multiset{"a", "a"}, 60);
    RunThree(s, WARNED_AFTER_RESTART[0], WARNED_AFTER_RESTART[1], SendWarning, []);
    RunNone(Next(s2, SendWarning));
    assert WARNED_AFTER_RESTART + [] == WARNED_AFTER_RESTART;
  }

  /** A restart from a file older than an extension loses the count but not the warnings: three
      warnings, no extension on record and one restart. */
  lemma StaleFileHidesAnExtension()
    ensures var r := Run(Start(WATCHFUL, 0), WARNED_ONCE + (TICKED + (WARNED_AGAIN + WARNED_AFTER_RESTART)));
            && "a" in r.store.toks
            && r.past.warnings["a"] > 1 + r.store.toks["a"].extensionCount + r.past.restarts
  {
    var s1 := FirstWarning(TICKED + (WARNED_AGAIN + WARNED_AFTER_RESTART));
    var s2 := FinishTick(s1, WARNED_AGAIN + WARNED_AFTER_RESTART);
    var s3 := SecondWarning(s2, WARNED_AFTER_RESTART);
    ThirdWarning(s3);
  }

  const EXTENDED_SINCE_SAVE: seq<Action> :=
    [Grant(NewToken("a", 10, 110), 10), Save(STALE_FILE), RequestExtension("a", 30)]

  lemma AfterExtendedSinceSave() returns (s: System)
    ensures s == Run(Start(WATCHFUL, 0), EXTENDED_SINCE_SAVE) && Indexed(s.store)
    ensures s.store.toks == map["a" := Lengthened(LOST, 1110)] && s.saved.toks == map["a" := LOST]
    ensures s.past.warnings == multiset{} && s.past.restarts == 0
  {
    hide Run;
    var s0 := Start(WATCHFUL, 0);
    var a, b, c := EXTENDED_SINCE_SAVE[0], EXTENDED_SINCE_SAVE[1], EXTENDED_SINCE_SAVE[2];
    var s1 := Next(s0, a);
    FirstGranted(s0);
    assert ToRecord(LOST) == STALE_FILE[0];
    SaveNext(s1, STALE_FILE);
    var s2 := Next(s1, b);
    s := Next(s2, c);
    RunThree(s0, a, b, c, []);
    RunNone(s);
    assert EXTENDED_SINCE_SAVE + [] == EXTENDED_SINCE_SAVE;
  }

  /** Such a restart need not break the bound: before any warning was sent the forgotten extension
      leaves room, and no run of the new process can break it. */
  lemma StaleFileCanBeHarmless()
    ensures var s := Run(Start(WATCHFUL, 0), EXTENDED_SINCE_SAVE);
            && !Admits(Counted("a"), s, Restart(WATCHFUL, 50))
            && Indexed(OnRestart(s, WATCHFUL, 50).store)
            && ToldByProcess(OnRestart(s, WATCHFUL, 50), "a")
  {
    hide Run, Next, OnRestart, ToldByProcess, Bounded, Sane, Granted;
    var s := AfterExtendedSinceSave();
    RunIsBounded(WATCHFUL, 0, EXTENDED_SINCE_SAVE);
    ToldAfterRestartIff(s, WATCHFUL, 50, "a");
  }
}
