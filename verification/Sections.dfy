/**
 The store's critical sections as functions on the state its mutex guards. Each function is one
 lock-to-unlock stretch; provider calls happen between sections and are not part of them.
 */
module Sections {
  import opened Clock
  import opened Tokens
  import opened ExpiryHeap

  /** What the mutex guards: the session map, the expiry heap and the revocation counter. */
  datatype State = State(toks: Sessions, heap: seq<string>, revokedCount: int)

  const EMPTY := State(map[], [], 0)

  ghost predicate Indexed(s: State) {
    Known(s.toks, s.heap)
  }

  predicate Live(s: State, id: string) {
    id in s.toks && !s.toks[id].revoked
  }

  function RevokedIds(toks: Sessions): set<string> {
    set id | id in toks && toks[id].revoked
  }

  /** A token with its first issue instant recorded. */
  function Registered(t: Token): Token {
    if t.originalIssuedAt == 0 then t.(originalIssuedAt := t.issuedAt) else t
  }

  /** The index agrees with the map: nothing live is missing from the heap, nothing is in it
      twice, every entry names a session, and the counter counts the revoked sessions. */
  ghost predicate Consistent(s: State) {
    && (forall id :: id in s.toks ==> s.toks[id].id == id && Registered(s.toks[id]) == s.toks[id])
    && Indexed(s)
    && (forall id :: multiset(s.heap)[id] <= 1)
    && (forall id :: Live(s, id) ==> multiset(s.heap)[id] == 1)
    && s.revokedCount == |RevokedIds(s.toks)|
  }

  // ---------- Add ----------

  function Add(s: State, t: Token): State
    requires Indexed(s)
  {
    var toks := s.toks[t.id := Registered(t)];
    State(toks, Push(toks, s.heap, t.id), s.revokedCount)
  }

  lemma RegisteredOnce(t: Token)
    ensures Registered(Registered(t)) == Registered(t)
    ensures Registered(t).id == t.id && Registered(t).revoked == t.revoked
  {
  }

  lemma AddConsistent(s: State, t: Token)
    requires Consistent(s) && t.id !in s.toks && !t.revoked
    ensures Consistent(Add(s, t))
  {
    hide Push, Registered;
    var r := Add(s, t);
    RegisteredOnce(t);
    assert t.id !in s.heap;
    assert RevokedIds(r.toks) == RevokedIds(s.toks);
    forall id | Live(r, id) ensures multiset(r.heap)[id] == 1 {
      assert id != t.id ==> Live(s, id);
    }
  }

  // ---------- Claiming a session for revocation ----------

  /** The step shared by RevokeNow, the forced branch of Extend and the worker. */
  function Claim(s: State, id: string): State
    requires id in s.toks
  {
    State(s.toks[id := s.toks[id].(revoked := true)], s.heap, s.revokedCount + 1)
  }

  function RevokeNow(s: State, id: string): State {
    if Live(s, id) then Claim(s, id) else s
  }

  lemma ClaimConsistent(s: State, id: string)
    requires Consistent(s) && Live(s, id)
    ensures Consistent(Claim(s, id))
  {
    var r := Claim(s, id);
    assert RevokedIds(r.toks) == RevokedIds(s.toks) + {id};
    forall other | Live(r, other) ensures multiset(r.heap)[other] == 1 {
      assert Live(s, other);
    }
  }

  // ---------- Extend ----------

  /** How an extension request is decided under the lock. */
  datatype Decision =
    | Gone
    | Forced(ceiling: Instant)
    | Clamped(ceiling: Instant)
    | Renewed(expiry: Instant, ceiling: Instant)

  function Ceiling(t: Token, limits: Limits): Instant {
    t.originalIssuedAt + limits.maxSession
  }

  function Decide(s: State, id: string, limits: Limits, now: Instant): Decision {
    if !Live(s, id) then Gone
    else
      var t := s.toks[id];
      var newExpiry, ceiling := t.expiresAt + limits.ttl, Ceiling(t, limits);
      if newExpiry < ceiling then Renewed(newExpiry, ceiling)
      else if now >= ceiling then Forced(ceiling)
      else Clamped(ceiling)
  }

  function Lengthened(t: Token, expiry: Instant): Token {
    t.(expiresAt := expiry, extensionCount := t.extensionCount + 1, notifiedExpiry := false)
  }

  function Prolong(s: State, id: string, expiry: Instant): State
    requires id in s.toks
  {
    s.(toks := s.toks[id := Lengthened(s.toks[id], expiry)])
  }

  function Extend(s: State, id: string, limits: Limits, now: Instant): State {
    match Decide(s, id, limits, now)
    case Gone => s
    case Forced(_) => Claim(s, id)
    case Clamped(ceiling) => Prolong(s, id, ceiling)
    case Renewed(expiry, _) => Prolong(s, id, expiry)
  }

  /** The state an extension leaves, by decision. */
  lemma ExtendOutcome(s: State, id: string, limits: Limits, now: Instant)
    ensures match Decide(s, id, limits, now)
            case Gone => Extend(s, id, limits, now) == s
            case Forced(_) => Live(s, id) && Extend(s, id, limits, now) == Claim(s, id)
            case Clamped(ceiling) =>
              && Live(s, id) && Extend(s, id, limits, now) == Prolong(s, id, ceiling)
              && Extend(s, id, limits, now).toks[id] == Lengthened(s.toks[id], ceiling)
            case Renewed(expiry, _) =>
              && Live(s, id) && Extend(s, id, limits, now) == Prolong(s, id, expiry)
              && Extend(s, id, limits, now).toks[id] == Lengthened(s.toks[id], expiry)
  {
  }

  /** The ttl an extension asks the provider for: what is left to the ceiling it was clamped to when
      the provider is asked, or the configured one. */
  function ReissueTtl(ttl: Duration, expiry: Instant, clamped: bool, at: Instant): Duration {
    if clamped then Sub(expiry, at) else ttl
  }

  /** Writing back the re-issued secret, whatever became of the session meanwhile. */
  function WriteSecret(s: State, id: string, secret: string): State {
    if id in s.toks then s.(toks := s.toks[id := s.toks[id].(secret := secret)]) else s
  }

  /** `maxExtensionsForCeiling`, read at `now` after the expiry has been moved. */
  function ExtensionsLeft(t: Token, limits: Limits, now: Instant): int
    requires limits.ttl != 0
  {
    var remaining := Sub(Ceiling(t, limits), now);
    if remaining <= 0 then 0 else remaining / limits.ttl
  }

  /** Replacing a session by one with the same id and revocation flag changes no index. */
  lemma RewriteConsistent(s: State, id: string, t: Token)
    requires Consistent(s) && id in s.toks
    requires t.id == id && t.revoked == s.toks[id].revoked && Registered(t) == t
    ensures Consistent(s.(toks := s.toks[id := t]))
  {
    var r := s.(toks := s.toks[id := t]);
    assert RevokedIds(r.toks) == RevokedIds(s.toks);
    forall other | Live(r, other) ensures multiset(r.heap)[other] == 1 {
      assert Live(s, other);
    }
  }

  lemma ExtendConsistent(s: State, id: string, limits: Limits, now: Instant)
    requires Consistent(s)
    ensures Consistent(Extend(s, id, limits, now))
  {
    match Decide(s, id, limits, now)
    case Gone =>
    case Forced(_) => ClaimConsistent(s, id);
    case Clamped(ceiling) => RewriteConsistent(s, id, Lengthened(s.toks[id], ceiling));
    case Renewed(expiry, _) => RewriteConsistent(s, id, Lengthened(s.toks[id], expiry));
  }

  lemma WriteSecretConsistent(s: State, id: string, secret: string)
    requires Consistent(s)
    ensures Consistent(WriteSecret(s, id, secret))
  {
    if id in s.toks {
      RewriteConsistent(s, id, s.toks[id].(secret := secret));
    }
  }

  // ---------- fireWarnings ----------

  predicate WarningDue(t: Token, limits: Limits, now: Instant) {
    && !t.revoked
    && !t.notifiedExpiry
    && Sub(t.expiresAt, now) <= limits.warningBefore
    && Sub(t.expiresAt, now) > 0
  }

  /** In the session's fields: it has not been revoked or warned, and less time than the window is left,
      but some; a window of the largest duration takes in every later expiry. */
  lemma DueInFields(t: Token, limits: Limits, now: Instant)
    ensures WarningDue(t, limits, now) <==>
            && !t.revoked && !t.notifiedExpiry && now < t.expiresAt
            && (t.expiresAt - now <= limits.warningBefore || MAX_INT64 <= limits.warningBefore)
  {
  }

  function ToNotify(s: State, limits: Limits, now: Instant): set<string> {
    set id | id in s.toks && WarningDue(s.toks[id], limits, now)
  }

  function Flagged(t: Token, limits: Limits, now: Instant): Token {
    if WarningDue(t, limits, now) then t.(notifiedExpiry := true) else t
  }

  function Warn(s: State, limits: Limits, now: Instant): State {
    s.(toks := map id | id in s.toks :: Flagged(s.toks[id], limits, now))
  }

  lemma WarnConsistent(s: State, limits: Limits, now: Instant)
    requires Consistent(s)
    ensures Consistent(Warn(s, limits, now))
  {
    var r := Warn(s, limits, now);
    assert RevokedIds(r.toks) == RevokedIds(s.toks);
    forall id | Live(r, id) ensures multiset(r.heap)[id] == 1 {
      assert Live(s, id);
    }
  }

  // ---------- One round of revokeExpired ----------

  /** What one round under the lock finds: nothing due, an entry revoked earlier, or a session
      to hand over. */
  datatype Round = Done | Skipped | Claimed(id: string)

  function Inspect(s: State, now: Instant): Round
    requires Indexed(s)
  {
    if |s.heap| == 0 || !Expired(s.toks, s.heap[0], now) then Done
    else if s.toks[s.heap[0]].revoked then Skipped
    else Claimed(s.heap[0])
  }

  function PopTop(s: State, now: Instant): (r: State)
    requires Indexed(s)
    ensures Indexed(r)
  {
    if Inspect(s, now).Done? then s
    else
      var popped := s.(heap := Pop(s.toks, s.heap));
      if Inspect(s, now).Skipped? then popped else Claim(popped, s.heap[0])
  }

  /** A pop takes away one occurrence of the root and nothing else. */
  lemma PopCounts(toks: Sessions, h: seq<string>, id: string)
    requires Known(toks, h) && |h| > 0
    ensures multiset(h)[id] == multiset(Pop(toks, h))[id] + (if id == h[0] then 1 else 0)
  {
  }

  /** The entry of a revoked session can leave the heap. */
  lemma DropConsistent(s: State, id: string, rest: seq<string>)
    requires Consistent(s) && id in s.toks && s.toks[id].revoked
    requires Known(s.toks, rest)
    requires forall x :: multiset(s.heap)[x] == multiset(rest)[x] + (if x == id then 1 else 0)
    ensures Consistent(s.(heap := rest))
  {
  }

  lemma PopTopConsistent(s: State, now: Instant)
    requires Consistent(s)
    ensures Consistent(PopTop(s, now))
  {
    hide Pop, RevokedIds;
    if !Inspect(s, now).Done? {
      var top, rest := s.heap[0], Pop(s.toks, s.heap);
      forall x ensures multiset(s.heap)[x] == multiset(rest)[x] + (if x == top then 1 else 0) {
        PopCounts(s.toks, s.heap, x);
      }
      if Inspect(s, now).Skipped? {
        DropConsistent(s, top, rest);
      } else {
        ClaimConsistent(s, top);
        DropConsistent(Claim(s, top), top, rest);
        assert PopTop(s, now) == Claim(s, top).(heap := rest);
      }
    }
  }
}
