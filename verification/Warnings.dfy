/** How often a session is warned, and that the worker warns it before revoking it. */
module Warnings {
  import opened Clock
  import opened Tokens
  import opened ExpiryHeap
  import opened Sections
  import opened Recovery
  import opened Protocol
  import opened Effects
  import opened Safety

  /** Warnings decided in the current tick and not yet sent. */
  function Todo(s: System): multiset<string> {
    if s.worker.Warning? then multiset(s.worker.todo) else multiset{}
  }

  /** Warnings sent or about to be sent for a session. */
  function Decided(s: System, id: string): nat {
    s.past.warnings[id] + Todo(s)[id]
  }

  predicate Ticked(s: System, a: Action, id: string) {
    a.TickBegins? && id in s.store.toks && WarningDue(s.store.toks[id], s.limits, a.now)
  }

  /** What an action other than a restart does to a session's warnings. */
  ghost predicate WarningEffect(s: System, a: Action, r: System, id: string) {
    && Decided(r, id) == Decided(s, id) + (if Enabled(s, a) && Ticked(s, a, id) then 1 else 0)
    && (Enabled(s, a) && Ticked(s, a, id) ==> id in Todo(r))
    && r.past.extensions[id] == s.past.extensions[id] + (if Lengthens(s, a, id) then 1 else 0)
    && r.past.restarts == s.past.restarts
    && r.past.lastWarn == (if Enabled(s, a) && a.TickBegins? then a.now else s.past.lastWarn)
    && (id in s.past.warnedSince && !Enters(s, a, id) && !Lengthens(s, a, id) ==> id in r.past.warnedSince)
    && (id in Todo(s) ==> id in Todo(r) || id in r.past.warnedSince)
  }

  lemma TickWarns(s: System, now: Instant, order: seq<string>, id: string)
    requires s.worker.Idle? && multiset(order) == multiset(ToNotify(s.store, s.limits, now))
    ensures WarningEffect(s, TickBegins(now, order), OnTick(s, now, order), id)
  {
  }

  lemma SendWarns(s: System, id: string)
    requires s.worker.Warning? && s.worker.todo != []
    ensures WarningEffect(s, SendWarning, OnSend(s), id)
  {
    var todo := s.worker.todo;
    assert todo == [todo[0]] + todo[1..];
    assert multiset(todo)[id] == multiset{todo[0]}[id] + multiset(todo[1..])[id];
  }

  lemma ExtensionWarns(s: System, x: string, now: Instant, id: string)
    ensures WarningEffect(s, RequestExtension(x, now), OnExtension(s, x, now), id)
  {
    var a, r := RequestExtension(x, now), OnExtension(s, x, now);
    match Decide(s.store, x, s.limits, now)
    case Gone => QuietEffect(s, a, r, id);
    case Forced(_) => QuietEffect(s, a, r, id);
    case Clamped(_) => assert Decided(r, id) == Decided(s, id);
    case Renewed(_, _) => assert Decided(r, id) == Decided(s, id);
  }

  /** An action that touches neither the worker nor what is recorded of warnings. */
  lemma QuietEffect(s: System, a: Action, r: System, id: string)
    requires !Ticked(s, a, id) && !a.TickBegins? && !Lengthens(s, a, id)
    requires Quiet(s, r)
    ensures WarningEffect(s, a, r, id)
  {
  }

  predicate Quiet(s: System, r: System) {
    && Todo(r) == Todo(s)
    && r.past.warnings == s.past.warnings && r.past.warnedSince == s.past.warnedSince
    && r.past.extensions == s.past.extensions
    && r.past.restarts == s.past.restarts && r.past.lastWarn == s.past.lastWarn
  }

  lemma GrantWarns(s: System, t: Token, at: Instant, id: string)
    requires Indexed(s.store) && Fresh(s, t)
    ensures WarningEffect(s, Grant(t, at), OnGrant(s, t), id)
  {
  }

  lemma PopWarns(s: System, id: string)
    requires Indexed(s.store) && s.worker.Popping?
    ensures WarningEffect(s, PopOne, OnPop(s), id)
  {
  }

  predicate Unrelated(a: Action) {
    a.ManualRevoke? || a.HandOver? || a.IssueReturns? || a.LateIssue? || a.WriteBack? || a.StartPopping? || a.Save?
  }

  lemma CallsAreQuiet(s: System, x: string, call: Call, asked: Instant, at: Instant, answer: Option<string>)
    ensures Quiet(s, OnRevoke(s, x))
    ensures Quiet(s, OnHandOver(s, x))
    ensures call.Reissuing? ==>
              Quiet(s, OnIssue(s, call, asked, at, answer)) && Quiet(s, OnLateIssue(s, call, asked, at))
  {
  }

  lemma UnrelatedIsQuiet(s: System, a: Action)
    requires Indexed(s.store) && Unrelated(a) && Enabled(s, a)
    ensures Quiet(s, Next(s, a))
  {
    hide Snapshot, OnRevoke, OnHandOver, OnIssue, OnLateIssue, WriteSecret;
    hide OnGrant, OnExtension, OnTick, OnSend, OnPop, OnRestart;
    match a
    case ManualRevoke(id) => CallsAreQuiet(s, id, Writing("", ""), 0, 0, None);
    case HandOver(id) => CallsAreQuiet(s, id, Writing("", ""), 0, 0, None);
    case IssueReturns(call, asked, at, answer) => CallsAreQuiet(s, "", call, asked, at, answer);
    case LateIssue(call, asked, at) => CallsAreQuiet(s, "", call, asked, at, None);
    case WriteBack(_) =>
    case StartPopping => NothingTodo(s);
    case Save(_) =>
  }

  lemma NothingTodo(s: System)
    requires s.worker.Warning? && s.worker.todo == []
    ensures Todo(s) == multiset{} && Todo(s.(worker := Popping(s.worker.now))) == multiset{}
  {
  }

  lemma QuietNext(s: System, a: Action, id: string)
    requires Indexed(s.store) && Unrelated(a)
    ensures WarningEffect(s, a, Next(s, a), id)
  {
    if Enabled(s, a) {
      UnrelatedIsQuiet(s, a);
    }
    QuietEffect(s, a, Next(s, a), id);
  }

  lemma WarningNext(s: System, a: Action, id: string)
    requires Indexed(s.store) && !a.Restart?
    ensures WarningEffect(s, a, Next(s, a), id)
  {
    match a
    case Grant(t, at) => if Enabled(s, a) { GrantWarns(s, t, at, id); }
    case RequestExtension(x, now) => ExtensionWarns(s, x, now, id);
    case TickBegins(now, order) => if Enabled(s, a) { TickWarns(s, now, order, id); }
    case SendWarning => if Enabled(s, a) { SendWarns(s, id); }
    case PopOne => if Enabled(s, a) { PopWarns(s, id); }
    case ManualRevoke(_) => QuietNext(s, a, id);
    case HandOver(_) => QuietNext(s, a, id);
    case IssueReturns(_, _, _, _) => QuietNext(s, a, id);
    case LateIssue(_, _, _) => QuietNext(s, a, id);
    case WriteBack(_) => QuietNext(s, a, id);
    case StartPopping => QuietNext(s, a, id);
    case Save(_) => QuietNext(s, a, id);
  }

  // ---------- When a warning is decided ----------

  /** The ticks of a run that find the session live, not warned in its current window, and with no more
      time left than the window then configured, but some. */
  ghost function TicksInWindow(s: System, acts: seq<Action>, id: string): nat
    requires Indexed(s.store)
    decreases |acts|
  {
    if acts == [] then 0
    else
      var a := acts[0];
      var due := && a.TickBegins? && Enabled(s, a) && id in s.store.toks
                 && var t := s.store.toks[id]; var window := s.limits.warningBefore;
                    && !t.revoked && !t.notifiedExpiry && a.now < t.expiresAt
                    && (t.expiresAt - a.now <= window || MAX_INT64 <= window);
      (if due then 1 else 0) + TicksInWindow(Next(s, a), acts[1..], id)
  }

  lemma DecidedNext(s: System, a: Action, id: string)
    requires Indexed(s.store)
    ensures Decided(Next(s, a), id)
            <= Decided(s, id) + (if a.TickBegins? && Enabled(s, a) && Ticked(s, a, id) then 1 else 0)
    ensures !a.Restart? ==>
              Decided(Next(s, a), id)
              == Decided(s, id) + (if a.TickBegins? && Enabled(s, a) && Ticked(s, a, id) then 1 else 0)
  {
    hide Next, OnRestart, Enabled;
    if a.Restart? {
      RestartNext(s, a.limits, a.at);
      RestartDrops(s, a.limits, a.at, id);
    } else {
      WarningNext(s, a, id);
    }
  }

  lemma RestartDrops(s: System, limits: Limits, at: Instant, id: string)
    ensures Decided(OnRestart(s, limits, at), id) <= Decided(s, id)
  {
    hide Recover;
  }

  /**
   Every warning is decided in its window: over any run a session is warned at most once for each tick
   that finds it within the configured window of the expiry then in force, and without a restart exactly
   once, counting the warnings still to be sent.
   */
  lemma {:induction false} WarningsAreInWindow(s: System, acts: seq<Action>, id: string)
    requires Indexed(s.store)
    ensures Decided(Run(s, acts), id) <= Decided(s, id) + TicksInWindow(s, acts, id)
    ensures (forall i :: 0 <= i < |acts| ==> !acts[i].Restart?) ==>
              Decided(Run(s, acts), id) == Decided(s, id) + TicksInWindow(s, acts, id)
    decreases |acts|
  {
    if acts != [] {
      hide Next, Decided, Enabled, WarningDue;
      var a := acts[0];
      DecidedNext(s, a, id);
      if a.TickBegins? && id in s.store.toks {
        DueInFields(s.store.toks[id], s.limits, a.now);
      }
      WarningsAreInWindow(Next(s, a), acts[1..], id);
    }
  }

  /** ... from the first start of the broker. */
  lemma EveryWarningIsInWindow(limits: Limits, at: Instant, acts: seq<Action>, id: string)
    ensures Run(Start(limits, at), acts).past.warnings[id] <= TicksInWindow(Start(limits, at), acts, id)
  {
    WarningsAreInWindow(Start(limits, at), acts, id);
  }

  // ---------- How many warnings ----------

  /** One warning for the grant, one for each extension and one for each restart. */
  function Allowance(s: System, id: string): nat {
    (if id in s.past.granted then 1 else 0) + s.past.extensions[id] + s.past.restarts
  }

  /** A warning still to come in the session's current window. */
  function Owed(toks: Sessions, id: string): nat {
    if id in toks && !toks[id].notifiedExpiry then 1 else 0
  }

  ghost predicate Bounded(s: System) {
    && (forall id :: Decided(s, id) + Owed(s.store.toks, id) <= Allowance(s, id))
    && (forall id :: id in s.store.toks ==> s.store.toks[id].extensionCount <= s.past.extensions[id])
    && (forall id :: id in s.saved.toks ==> s.saved.toks[id].extensionCount <= s.past.extensions[id])
    && (forall id :: id !in s.past.granted ==> s.past.extensions[id] == 0)
  }

  lemma SessionBounded(s: System, a: Action, r: System, id: string)
    requires Bounded(s) && Granted(s)
    requires SessionEffect(s, a, r, id) && HistoryEffect(s, a, r) && WarningEffect(s, a, r, id)
    ensures Decided(r, id) + Owed(r.store.toks, id) <= Allowance(r, id)
    ensures id in r.store.toks ==> r.store.toks[id].extensionCount <= r.past.extensions[id]
    ensures id in r.saved.toks ==> r.saved.toks[id].extensionCount <= r.past.extensions[id]
    ensures id !in r.past.granted ==> r.past.extensions[id] == 0
  {
  }

  lemma RestartAllowance(s: System, r: System, id: string)
    requires Decided(s, id) + Owed(s.store.toks, id) <= Allowance(s, id)
    requires r.worker.Idle? && r.past.warnings == s.past.warnings && r.past.granted == s.past.granted
    requires r.past.extensions == s.past.extensions && r.past.restarts == s.past.restarts + 1
    ensures Decided(r, id) + Owed(r.store.toks, id) <= Allowance(r, id)
  {
  }

  lemma RestartBounded(s: System, limits: Limits, at: Instant)
    requires Sane(s) && Granted(s) && Bounded(s)
    ensures Bounded(OnRestart(s, limits, at))
  {
    hide Recover, Consistent, Ordered, Snapshot;
    RecoveryRestores(s.saved, s.file, at);
    var r := OnRestart(s, limits, at);
    forall id
      ensures Decided(r, id) + Owed(r.store.toks, id) <= Allowance(r, id)
      ensures id in r.store.toks ==> id in s.saved.toks
      ensures id in r.store.toks ==> r.store.toks[id].extensionCount == s.saved.toks[id].extensionCount
    {
      RestartAllowance(s, r, id);
    }
  }

  lemma BoundedNext(s: System, a: Action)
    requires Sane(s) && Granted(s) && Bounded(s)
    ensures Bounded(Next(s, a))
  {
    hide Next, OnRestart, Snapshot, Decided, Owed, Allowance;
    if a.Restart? {
      RestartNext(s, a.limits, a.at);
      RestartBounded(s, a.limits, a.at);
    } else {
      var r := Next(s, a);
      HistoryNext(s, a);
      forall id
        ensures Decided(r, id) + Owed(r.store.toks, id) <= Allowance(r, id)
        ensures id in r.store.toks ==> r.store.toks[id].extensionCount <= r.past.extensions[id]
        ensures id in r.saved.toks ==> r.saved.toks[id].extensionCount <= r.past.extensions[id]
        ensures id !in r.past.granted ==> r.past.extensions[id] == 0
      {
        SessionNext(s, a, id);
        WarningNext(s, a, id);
        SessionBounded(s, a, r, id);
      }
    }
  }

  /** Over every run, the warnings sent for a session number at most one more than its extensions
      and the restarts together. */
  lemma {:induction false} WarningsAreBounded(s: System, acts: seq<Action>)
    requires Sane(s) && Granted(s) && Bounded(s)
    ensures Bounded(Run(s, acts))
    ensures forall id :: Run(s, acts).past.warnings[id]
                           <= 1 + Run(s, acts).past.extensions[id] + Run(s, acts).past.restarts
    decreases |acts|
  {
    if acts != [] {
      SaneNext(s, acts[0]);
      BoundedNext(s, acts[0]);
      WarningsAreBounded(Next(s, acts[0]), acts[1..]);
    } else {
      forall id ensures s.past.warnings[id] <= 1 + s.past.extensions[id] + s.past.restarts {
        assert Decided(s, id) + Owed(s.store.toks, id) <= Allowance(s, id);
      }
    }
  }

  lemma RunIsBounded(limits: Limits, at: Instant, acts: seq<Action>)
    ensures var r := Run(Start(limits, at), acts); Sane(r) && Granted(r) && Bounded(r)
  {
    StartIsSane(limits, at);
    NoLiveSessionIsLost(Start(limits, at), acts);
    WarningsAreBounded(Start(limits, at), acts);
  }

  /** ... from the first start of the broker. */
  lemma EveryRunBoundsWarnings(limits: Limits, at: Instant, acts: seq<Action>, id: string)
    ensures var past := Run(Start(limits, at), acts).past;
            past.warnings[id] <= 1 + past.extensions[id] + past.restarts
  {
    StartIsSane(limits, at);
    WarningsAreBounded(Start(limits, at), acts);
  }

  // ---------- Read off the session ----------

  /** The session's own counter tells how often it has been extended. */
  predicate CountExact(s: System, id: string) {
    id in s.store.toks ==> s.store.toks[id].extensionCount == s.past.extensions[id]
  }

  lemma RestoredCount(toks: Sessions, now: Instant, id: string)
    ensures id in Restored(toks, now) <==> id in toks && !toks[id].revoked
    ensures id in Restored(toks, now) ==>
              var t := Restored(toks, now)[id];
              && t.extensionCount == toks[id].extensionCount && !t.notifiedExpiry
              && (t.revoked <==> toks[id].expiresAt < now)
  {
  }

  /** A restart keeps the counter exact exactly when the file's count of the session, if it holds it
      live, is the current one. */
  lemma CountAfterRestartIff(s: System, limits: Limits, at: Instant, id: string)
    requires Sane(s) && FileKnown(s) && CountExact(s, id)
    ensures CountExact(OnRestart(s, limits, at), id) <==> Admits(Counted(id), s, Restart(limits, at))
  {
    hide Recover, Ordered, Snapshot, Restored;
    RecoveryRestores(s.saved, s.file, at);
    RestoredCount(s.saved.toks, at, id);
  }

  lemma CountStaysExact(s: System, a: Action, r: System, id: string)
    requires Bounded(s) && Granted(s) && CountExact(s, id)
    requires SessionEffect(s, a, r, id) && WarningEffect(s, a, r, id)
    ensures CountExact(r, id)
  {
  }

  lemma CountNextIff(s: System, a: Action, id: string)
    requires Sane(s) && Granted(s) && Bounded(s) && FileKnown(s) && CountExact(s, id)
    ensures CountExact(Next(s, a), id) <==> Admits(Counted(id), s, a)
  {
    hide Next, OnRestart, Recover, Snapshot;
    if a.Restart? {
      RestartNext(s, a.limits, a.at);
      CountAfterRestartIff(s, a.limits, a.at, id);
    } else {
      SessionNext(s, a, id);
      WarningNext(s, a, id);
      CountStaysExact(s, a, Next(s, a), id);
    }
  }

  ghost predicate CountExactThroughout(s: System, acts: seq<Action>, id: string)
    requires Indexed(s.store)
    decreases |acts|
  {
    CountExact(s, id) && (acts != [] ==> CountExactThroughout(Next(s, acts[0]), acts[1..], id))
  }

  /** A session's counter is exact in every state of a run exactly when no restart of the run reads
      a file that holds the session live with an older count. */
  lemma {:induction false} CountExactThroughoutIff(s: System, acts: seq<Action>, id: string)
    requires Sane(s) && Granted(s) && Bounded(s) && FileKnown(s) && CountExact(s, id)
    ensures CountExactThroughout(s, acts, id) <==> Allowed(Counted(id), s, acts)
    decreases |acts|
  {
    if acts != [] {
      SaneNext(s, acts[0]);
      BoundedNext(s, acts[0]);
      FileKnownNext(s, acts[0]);
      CountNextIff(s, acts[0], id);
      if CountExact(Next(s, acts[0]), id) {
        CountExactThroughoutIff(Next(s, acts[0]), acts[1..], id);
      }
    }
  }

  // ---------- The bound without exact counts ----------

  /** The bound as it is read off the session. */
  predicate Told(s: System, id: string) {
    id in s.store.toks ==> s.past.warnings[id] <= 1 + s.store.toks[id].extensionCount + s.past.restarts
  }

  predicate NoRestart(acts: seq<Action>) {
    forall i :: 0 <= i < |acts| ==> !acts[i].Restart?
  }

  /** No run of the process that starts here breaks the bound. */
  ghost predicate ToldByProcess(s: System, id: string)
    requires Indexed(s.store)
  {
    forall acts :: NoRestart(acts) ==> Told(Run(s, acts), id)
  }

  /** A warning that may still come in the session's current window. */
  function ToCome(s: State, id: string): nat {
    if Live(s, id) && !s.toks[id].notifiedExpiry then 1 else 0
  }

  /** The session's count leaves room for it. */
  predicate Room(s: System, id: string) {
    id in s.store.toks ==>
      Decided(s, id) + ToCome(s.store, id) <= 1 + s.store.toks[id].extensionCount + s.past.restarts
  }

  lemma RoomAfter(s: System, a: Action, r: System, id: string)
    requires Bounded(s) && Granted(s) && Room(s, id)
    requires SessionEffect(s, a, r, id) && WarningEffect(s, a, r, id)
    ensures Room(r, id)
  {
  }

  lemma RoomAfterRestartIff(s: System, limits: Limits, at: Instant, id: string)
    requires Sane(s)
    ensures Room(OnRestart(s, limits, at), id) <==> Admits(Roomy(id), s, Restart(limits, at))
  {
    hide Recover, Ordered, Snapshot, Restored, Consistent;
    RecoveryRestores(s.saved, s.file, at);
    RestoredCount(s.saved.toks, at, id);
  }

  lemma RoomNext(s: System, a: Action, id: string)
    requires Sane(s) && Granted(s) && Bounded(s) && Room(s, id) && Admits(Roomy(id), s, a)
    ensures Room(Next(s, a), id)
  {
    hide Next, OnRestart, Recover, Snapshot;
    if a.Restart? {
      RestartNext(s, a.limits, a.at);
      RoomAfterRestartIff(s, a.limits, a.at, id);
    } else {
      SessionNext(s, a, id);
      WarningNext(s, a, id);
      RoomAfter(s, a, Next(s, a), id);
    }
  }

  lemma {:induction false} RoomHolds(s: System, acts: seq<Action>, id: string)
    requires Sane(s) && Granted(s) && Bounded(s) && Room(s, id) && Allowed(Roomy(id), s, acts)
    ensures Room(Run(s, acts), id)
    decreases |acts|
  {
    if acts != [] {
      SaneNext(s, acts[0]);
      BoundedNext(s, acts[0]);
      RoomNext(s, acts[0], id);
      RoomHolds(Next(s, acts[0]), acts[1..], id);
    }
  }

  lemma {:induction false} NoRestartIsRoomy(s: System, acts: seq<Action>, id: string)
    requires Indexed(s.store) && NoRestart(acts)
    ensures Allowed(Roomy(id), s, acts)
    decreases |acts|
  {
    if acts != [] {
      NoRestartIsRoomy(Next(s, acts[0]), acts[1..], id);
    }
  }

  /** The members of a set in some order, with a given one first. */
  lemma {:induction false} InOrderFrom(ids: set<string>, first: string) returns (order: seq<string>)
    requires first in ids
    ensures multiset(order) == multiset(ids) && order != [] && order[0] == first
    decreases |ids|
  {
    var others := ids - {first};
    assert ids == others + {first};
    if others == {} {
      order := [first];
    } else {
      var next :| next in others;
      var rest := InOrderFrom(others, next);
      order := [first] + rest;
    }
  }

  /** A live session not warned in its window can be warned by the next tick. */
  lemma CanBeWarned(s: System, id: string) returns (acts: seq<Action>)
    requires Indexed(s.store) && s.worker.Idle? && Live(s.store, id) && !s.store.toks[id].notifiedExpiry
    requires s.limits.warningBefore > 0
    ensures NoRestart(acts)
    ensures var r := Run(s, acts);
            && id in r.store.toks && r.store.toks[id].extensionCount == s.store.toks[id].extensionCount
            && r.past.warnings[id] == s.past.warnings[id] + 1 && r.past.restarts == s.past.restarts
  {
    var now := s.store.toks[id].expiresAt - 1;
    assert WarningDue(s.store.toks[id], s.limits, now);
    var order := InOrderFrom(ToNotify(s.store, s.limits, now), id);
    var tick := TickBegins(now, order);
    acts := [tick, SendWarning];
    RunOne(s, tick, [SendWarning]);
    RunOne(Next(s, tick), SendWarning, []);
    RunNone(Next(Next(s, tick), SendWarning));
    assert [tick] + [SendWarning] == acts && [SendWarning] + [] == [SendWarning];
  }

  /**
   When a restart makes the session tell less than its warnings. After a restart at `at` no run of the
   new process breaks the bound, exactly when the file does not hold the session live, or the warnings
   sent and the one it may still get number at most two more than the file's count and the restarts
   before; it gets none when it expired before the restart.
   */
  lemma ToldAfterRestartIff(s: System, limits: Limits, at: Instant, id: string)
    requires Sane(s) && Granted(s) && Bounded(s) && limits.warningBefore > 0
    ensures Indexed(OnRestart(s, limits, at).store)
    ensures ToldByProcess(OnRestart(s, limits, at), id) <==> Admits(Roomy(id), s, Restart(limits, at))
  {
    hide Run, Sane, Bounded;
    var r := OnRestart(s, limits, at);
    RoomAfterRestartIff(s, limits, at, id);
    AfterSomeRestart(s, limits, at);
    if Room(r, id) {
      forall acts | NoRestart(acts) ensures Told(Run(r, acts), id) {
        NoRestartIsRoomy(r, acts, id);
        RoomHolds(r, acts, id);
      }
    } else if Live(r.store, id) {
      var acts := CanBeWarned(r, id);
      assert !Told(Run(r, acts), id);
    } else {
      RunNone(r);
      assert NoRestart([]) && !Told(Run(r, []), id);
    }
  }

  lemma AfterSomeRestart(s: System, limits: Limits, at: Instant)
    requires Sane(s) && Granted(s) && Bounded(s)
    ensures var r := OnRestart(s, limits, at);
            && Sane(r) && Granted(r) && Bounded(r) && r.worker.Idle? && r.limits == limits
            && forall id :: id in r.store.toks ==> !r.store.toks[id].notifiedExpiry
  {
    hide Recover, Bounded;
    RestartNext(s, limits, at);
    SaneNext(s, Restart(limits, at));
    BoundedNext(s, Restart(limits, at));
    RecoveryRestores(s.saved, s.file, at);
  }

  /** Every process that a restart of the run starts keeps to the bound, whatever it goes on to do. */
  ghost predicate ToldByEachProcess(s: System, acts: seq<Action>, id: string)
    requires Indexed(s.store)
    decreases |acts|
  {
    acts != [] ==>
      && (acts[0].Restart? ==> ToldByProcess(Next(s, acts[0]), id))
      && ToldByEachProcess(Next(s, acts[0]), acts[1..], id)
  }

  lemma ToldNextIff(s: System, a: Action, id: string)
    requires Sane(s) && Granted(s) && Bounded(s) && (a.Restart? ==> a.limits.warningBefore > 0)
    ensures (a.Restart? ==> ToldByProcess(Next(s, a), id)) <==> Admits(Roomy(id), s, a)
  {
    hide ToldByProcess, Bounded, Next, OnRestart;
    if a.Restart? {
      RestartNext(s, a.limits, a.at);
      ToldAfterRestartIff(s, a.limits, a.at, id);
    }
  }

  /** Over whole runs: that is so exactly when no restart of the run reads a file without that room. */
  lemma {:induction false} ToldThroughoutIff(s: System, acts: seq<Action>, id: string)
    requires Sane(s) && Granted(s) && Bounded(s)
    requires forall i :: 0 <= i < |acts| && acts[i].Restart? ==> acts[i].limits.warningBefore > 0
    ensures ToldByEachProcess(s, acts, id) <==> Allowed(Roomy(id), s, acts)
    decreases |acts|
  {
    if acts != [] {
      hide ToldByProcess, Bounded, Next, Admits;
      SaneNext(s, acts[0]);
      BoundedNext(s, acts[0]);
      ToldNextIff(s, acts[0], id);
      ToldThroughoutIff(Next(s, acts[0]), acts[1..], id);
    }
  }

  /** From the first start of the broker: on such runs the bound can be read off the session. */
  lemma WarningsTold(limits: Limits, at: Instant, acts: seq<Action>, id: string)
    requires Allowed(Roomy(id), Start(limits, at), acts)
    ensures Told(Run(Start(limits, at), acts), id)
  {
    StartIsSane(limits, at);
    RoomHolds(Start(limits, at), acts, id);
  }

  /** Where the count is exact there is room. */
  lemma ExactIsRoomy(s: System, a: Action, id: string)
    requires Sane(s) && Granted(s) && Bounded(s) && FileKnown(s) && CountExact(s, id) && Admits(Counted(id), s, a)
    ensures Admits(Roomy(id), s, a)
  {
    if a.Restart? && Live(s.saved, id) {
      assert Decided(s, id) + Owed(s.store.toks, id) <= Allowance(s, id);
    }
  }

  lemma {:induction false} ExactRunsAreRoomy(s: System, acts: seq<Action>, id: string)
    requires Sane(s) && Granted(s) && Bounded(s) && FileKnown(s) && CountExact(s, id)
    requires Allowed(Counted(id), s, acts)
    ensures Allowed(Roomy(id), s, acts)
    decreases |acts|
  {
    if acts != [] {
      SaneNext(s, acts[0]);
      BoundedNext(s, acts[0]);
      FileKnownNext(s, acts[0]);
      CountNextIff(s, acts[0], id);
      ExactIsRoomy(s, acts[0], id);
      ExactRunsAreRoomy(Next(s, acts[0]), acts[1..], id);
    }
  }

  /** So it can be in particular when every restart reads a file with the current count. */
  lemma WarningsBoundedByCount(limits: Limits, at: Instant, acts: seq<Action>, id: string)
    requires Allowed(Counted(id), Start(limits, at), acts)
    ensures var r := Run(Start(limits, at), acts);
            id in r.store.toks ==>
              r.past.warnings[id] <= 1 + r.store.toks[id].extensionCount + r.past.restarts
  {
    StartIsSane(limits, at);
    ExactRunsAreRoomy(Start(limits, at), acts, id);
    WarningsTold(limits, at, acts, id);
  }

  // ---------- Warned before revoked ----------

  /** The worker's tick carries the instant at which it warned. */
  predicate WorkerClock(s: System) {
    s.worker.Idle? || s.worker.now == s.past.lastWarn
  }

  /** A live session not yet warned in its window has more than `gap` left after the last warning
      round, and one that is flagged has been, or is about to be, warned. */
  predicate WindowOpen(s: System, gap: Duration, id: string) {
    Live(s.store, id) ==>
      var t := s.store.toks[id];
      if t.notifiedExpiry then id in s.past.warnedSince || id in Todo(s)
      else s.past.lastWarn + gap < t.expiresAt
  }

  ghost predicate OnSchedule(s: System, gap: Duration) {
    && gap <= s.limits.warningBefore
    && WorkerClock(s)
    && forall id :: WindowOpen(s, gap, id)
  }

  lemma WindowAfter(s: System, a: Action, r: System, id: string, gap: Duration)
    requires OnSchedule(s, gap) && Granted(s) && Enabled(s, a) && PacedAction(gap, s, a)
    requires SessionEffect(s, a, r, id) && WarningEffect(s, a, r, id)
    ensures WindowOpen(r, gap, id)
  {
    assert WindowOpen(s, gap, id);
  }

  lemma WorkerClockNext(s: System, a: Action)
    requires Indexed(s.store) && WorkerClock(s) && !a.Restart?
    ensures WorkerClock(Next(s, a)) && Next(s, a).limits == s.limits
  {
  }

  lemma OnScheduleAfterRestart(s: System, limits: Limits, at: Instant, gap: Duration)
    requires Sane(s) && PacedAction(gap, s, Restart(limits, at))
    ensures OnSchedule(OnRestart(s, limits, at), gap)
  {
    RecoveryRestores(s.saved, s.file, at);
    var r := OnRestart(s, limits, at);
    forall id ensures WindowOpen(r, gap, id) {
      assert id in r.store.toks ==> !r.store.toks[id].notifiedExpiry;
    }
  }

  lemma OnScheduleNext(s: System, a: Action, gap: Duration)
    requires Sane(s) && Granted(s) && OnSchedule(s, gap) && PacedAction(gap, s, a)
    ensures OnSchedule(Next(s, a), gap)
  {
    if a.Restart? {
      OnScheduleAfterRestart(s, a.limits, a.at, gap);
    } else if Enabled(s, a) {
      WorkerClockNext(s, a);
      forall id ensures WindowOpen(Next(s, a), gap, id) {
        SessionNext(s, a, id);
        WarningNext(s, a, id);
        WindowAfter(s, a, Next(s, a), id, gap);
      }
    }
  }

  lemma {:induction false} ScheduleHolds(s: System, acts: seq<Action>, gap: Duration)
    requires Sane(s) && Granted(s) && OnSchedule(s, gap) && Allowed(Paced(gap), s, acts)
    ensures OnSchedule(Run(s, acts), gap)
    decreases |acts|
  {
    if acts != [] {
      SaneNext(s, acts[0]);
      OnScheduleNext(s, acts[0], gap);
      ScheduleHolds(Next(s, acts[0]), acts[1..], gap);
    }
  }

  /**
   Warned before revoked. In any run whose ticks are at most `gap` apart, with `gap` within the
   warning window and more than `gap` of life left after every grant, extension and recovery, each
   session the worker pops for revocation has been warned since its expiry was last set. Heap order
   plays no part.
   */
  lemma WarnedBeforeRevoked(limits: Limits, at: Instant, acts: seq<Action>, gap: Duration)
    requires gap <= limits.warningBefore && Allowed(Paced(gap), Start(limits, at), acts)
    requires 0 <= gap
    ensures var r := Run(Start(limits, at), acts);
            r.worker.Popping? && Inspect(r.store, r.worker.now).Claimed?
            ==> Inspect(r.store, r.worker.now).id in r.past.warnedSince
  {
    var s, r := Start(limits, at), Run(Start(limits, at), acts);
    StartIsSane(limits, at);
    ScheduleHolds(s, acts, gap);
    if r.worker.Popping? && Inspect(r.store, r.worker.now).Claimed? {
      assert WindowOpen(r, gap, Inspect(r.store, r.worker.now).id);
    }
  }
}
