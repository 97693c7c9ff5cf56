/**
 The token store. Sessions are shared mutable objects, indexed by a map and by a heap of references;
 every method is proved against the critical-section functions on the store's abstract state.
 */
module TokenStore {
  import opened Clock
  import opened Tokens
  import opened Persistence
  import opened Retry
  import ExpiryHeap
  import Sections
  import Ticks
  import Recovery
  import Backoff

  type State = Sections.State
  type Sessions = ExpiryHeap.Sessions

  datatype ExtendResult = ExtendResult(
    extended: bool,
    token: IssuedToken?,
    newExpiresAt: Instant,
    maxSessionAt: Instant,
    extensionsLeft: int,
    reason: string)

  const CEILING_REACHED := "session ceiling reached \U{2014} token forcibly revoked"

  function IdsOf(ts: seq<IssuedToken>): (ids: seq<string>)
    ensures |ids| == |ts| && forall i :: 0 <= i < |ts| ==> ids[i] == ts[i].id
  {
    seq(|ts|, i requires 0 <= i < |ts| => ts[i].id)
  }

  /** The sessions among `ids` that are due a warning. */
  function DueAmong(toks: Sessions, ids: set<string>, limits: Limits, now: Instant): set<string> {
    set id | id in ids && id in toks && Sections.WarningDue(toks[id], limits, now)
  }

  /** The map after fireWarnings has visited all but `rest`. */
  function Partly(toks: Sessions, rest: set<string>, limits: Limits, now: Instant): Sessions {
    map id | id in toks :: if id in rest then toks[id] else Sections.Flagged(toks[id], limits, now)
  }

  lemma PartlyMore(toks: Sessions, rest: set<string>, id: string, limits: Limits, now: Instant)
    requires id in rest && id in toks
    ensures Partly(toks, rest, limits, now)[id := Sections.Flagged(toks[id], limits, now)]
            == Partly(toks, rest - {id}, limits, now)
    ensures toks.Keys - (rest - {id}) == toks.Keys - rest + {id}
    ensures toks.Keys - (rest - {id}) - {id} == toks.Keys - rest
  {
  }

  lemma NotifyGrows(toks: Sessions, ids: set<string>, ts: seq<IssuedToken>, t: IssuedToken,
                    limits: Limits, now: Instant)
    requires t.id in ids && t.id in toks
    requires multiset(IdsOf(ts)) == multiset(DueAmong(toks, ids - {t.id}, limits, now))
    ensures Sections.WarningDue(toks[t.id], limits, now) ==>
              multiset(IdsOf(ts + [t])) == multiset(DueAmong(toks, ids, limits, now))
    ensures !Sections.WarningDue(toks[t.id], limits, now) ==>
              multiset(IdsOf(ts)) == multiset(DueAmong(toks, ids, limits, now))
  {
    var before, after := DueAmong(toks, ids - {t.id}, limits, now), DueAmong(toks, ids, limits, now);
    assert IdsOf(ts + [t]) == IdsOf(ts) + [t.id];
    assert after == before + if Sections.WarningDue(toks[t.id], limits, now) then {t.id} else {};
  }

  lemma SwapMovesReferences(ts: seq<IssuedToken>, i: nat, j: nat)
    requires i < |ts| && j < |ts|
    ensures var r := ts[i := ts[j]][j := ts[i]];
            multiset(r) == multiset(ts) && IdsOf(r) == ExpiryHeap.Swap(IdsOf(ts), i, j)
  {
  }

  class Store {
    var tokens: map<string, IssuedToken>
    var pq: seq<IssuedToken>
    var revokedCount: int
    var limits: Limits
    var revoker: RetryRevoker?
    ghost var handed: seq<string>

    /** Each session is filed under its id. */
    ghost predicate Filed()
      reads this`tokens
    {
      forall id :: id in tokens ==> tokens[id].id == id
    }

    /** Moreover the heap holds the very objects the map holds. */
    ghost predicate Valid()
      reads this`tokens, this`pq
    {
      && Filed()
      && (forall i :: 0 <= i < |pq| ==> pq[i].id in tokens && tokens[pq[i].id] == pq[i])
    }

    ghost function Toks(): Sessions
      reads this`tokens, tokens.Values
    {
      map id | id in tokens :: tokens[id].Value()
    }

    /** What the store's fields hold, by id. */
    ghost function Snap(): State
      reads this`tokens, this`pq, this`revokedCount, tokens.Values
    {
      Sections.State(Toks(), IdsOf(pq), revokedCount)
    }

    /** The state behind the objects of a valid store. */
    ghost function Abs(): (s: State)
      requires Valid()
      reads this`tokens, this`pq, this`revokedCount, tokens.Values
      ensures Sections.Indexed(s)
    {
      Snap()
    }

    lemma SessionSeen(id: string)
      requires Valid()
      ensures id in Abs().toks <==> id in tokens
      ensures id in tokens ==> Abs().toks[id] == tokens[id].Value()
    {
    }

    constructor ()
      ensures Valid() && Abs() == Sections.EMPTY
      ensures tokens == map[] && revoker == null && handed == []
      ensures limits == Limits(60 * 60_000_000_000, 4 * 60 * 60_000_000_000, 15 * 60_000_000_000)
    {
      tokens, pq, revokedCount := map[], [], 0;
      limits := Limits(MAX_TTL, MAX_SESSION, DEFAULT_WARNING);
      revoker, handed := null, [];
    }

    method SetSessionLimits(limits: Limits)
      requires Valid()
      modifies this`limits
      ensures this.limits == limits && Valid() && Abs() == old(Abs())
    {
      this.limits := limits;
    }

    // ---------- The heap ----------

    predicate Less(i: nat, j: nat)
      requires i < |pq| && j < |pq|
      reads this`pq, pq
    {
      pq[i].expiresAt < pq[j].expiresAt
    }

    /** `toks` gives every entry of the heap its current expiry. */
    ghost predicate Mirrors(toks: Sessions)
      reads this`pq, pq
    {
      forall i :: 0 <= i < |pq| ==> pq[i].id in toks && toks[pq[i].id].expiresAt == pq[i].expiresAt
    }

    lemma ToksMirror()
      requires Valid()
      ensures Mirrors(Toks())
    {
    }

    lemma MirroredIsKnown(toks: Sessions)
      requires Mirrors(toks)
      ensures ExpiryHeap.Known(toks, IdsOf(pq))
    {
    }

    lemma LessIsLess(toks: Sessions, i: nat, j: nat)
      requires Mirrors(toks) && i < |pq| && j < |pq|
      ensures IdsOf(pq)[i] in toks && IdsOf(pq)[j] in toks
      ensures Less(i, j) == ExpiryHeap.Less(toks, IdsOf(pq)[i], IdsOf(pq)[j])
    {
    }

    method Swap(i: nat, j: nat, ghost toks: Sessions)
      requires i < |pq| && j < |pq|
      modifies this`pq
      ensures |pq| == old(|pq|) && multiset(pq) == old(multiset(pq))
      ensures IdsOf(pq) == ExpiryHeap.Swap(old(IdsOf(pq)), i, j)
      ensures old(Valid() && Mirrors(toks)) ==> Valid() && Mirrors(toks)
    {
      SwapMovesReferences(pq, i, j);
      pq := pq[i := pq[j]][j := pq[i]];
    }

    /** A swap in a valid store. */
    method SwapValid(i: nat, j: nat, ghost toks: Sessions)
      requires Valid() && Mirrors(toks) && i < |pq| && j < |pq|
      modifies this`pq
      ensures Valid() && Mirrors(toks) && IdsOf(pq) == ExpiryHeap.Swap(old(IdsOf(pq)), i, j)
      ensures multiset(pq) == old(multiset(pq))
    {
      Swap(i, j, toks);
    }

    /** `h` is the heap that the ids of `h0` become by sifting `j0` up. */
    ghost predicate SiftedUp(toks: Sessions, h0: seq<string>, j0: nat, h: seq<string>) {
      j0 < |h0| && ExpiryHeap.Known(toks, h0) && h == ExpiryHeap.Up(toks, h0, j0)
    }

    /** Sifting up only moves references; in a valid store it is the specified sift. */
    method Up(j0: nat, ghost toks: Sessions)
      requires j0 < |pq|
      modifies this`pq
      ensures multiset(pq) == old(multiset(pq))
      ensures old(Valid() && Mirrors(toks)) ==>
                Valid() && Mirrors(toks) && SiftedUp(toks, old(IdsOf(pq)), j0, IdsOf(pq))
    {
      var j: nat := j0;
      ghost var good := Valid() && Mirrors(toks);
      if good {
        MirroredIsKnown(toks);
      }
      while j > 0
        invariant j < |pq| && multiset(pq) == old(multiset(pq))
        invariant good ==> Valid() && Mirrors(toks)
        invariant good ==> ExpiryHeap.Known(toks, IdsOf(pq)) && ExpiryHeap.Known(toks, old(IdsOf(pq)))
        invariant good ==> ExpiryHeap.Up(toks, IdsOf(pq), j) == ExpiryHeap.Up(toks, old(IdsOf(pq)), j0)
        decreases j
      {
        var i: nat := (j - 1) / 2;
        if good {
          LessIsLess(toks, j, i);
        }
        if !Less(j, i) {
          break;
        }
        Swap(i, j, toks);
        if good {
          MirroredIsKnown(toks);
        }
        j := i;
      }
    }

    /** The child that expires first; the left one on a tie. */
    method EarlierChild(i: nat, n: nat, ghost toks: Sessions) returns (j: nat)
      requires Mirrors(toks) && 2 * i + 1 < n <= |pq|
      ensures ExpiryHeap.Known(toks, IdsOf(pq)) && j == ExpiryHeap.Earlier(toks, IdsOf(pq), i, n)
    {
      MirroredIsKnown(toks);
      j := 2 * i + 1;
      var right := j + 1;
      if right < n && Less(right, j) {
        j := right;
      }
    }

    method Down(i0: nat, n: nat, ghost toks: Sessions)
      requires Valid() && Mirrors(toks) && n <= |pq|
      modifies this`pq
      ensures Valid() && Mirrors(toks) && ExpiryHeap.Known(toks, old(IdsOf(pq)))
      ensures IdsOf(pq) == ExpiryHeap.Down(toks, old(IdsOf(pq)), i0, n)
      ensures multiset(pq) == old(multiset(pq))
    {
      var i: nat := i0;
      MirroredIsKnown(toks);
      while 2 * i + 1 < n
        invariant Valid() && Mirrors(toks) && n <= |pq| && ExpiryHeap.Known(toks, IdsOf(pq))
        invariant multiset(pq) == old(multiset(pq))
        invariant ExpiryHeap.Down(toks, IdsOf(pq), i, n) == ExpiryHeap.Down(toks, old(IdsOf(pq)), i0, n)
        decreases n - i
      {
        var j := EarlierChild(i, n, toks);
        LessIsLess(toks, j, i);
        if !Less(j, i) {
          break;
        }
        ExpiryHeap.DownMoves(toks, IdsOf(pq), i, n, j);
        SwapValid(i, j, toks);
        i := j;
      }
      ExpiryHeap.DownStops(toks, IdsOf(pq), i, n);
    }

    /** Append, then sift up: one more reference, and in a valid store the specified push. */
    method HeapPush(t: IssuedToken, ghost toks: Sessions)
      modifies this`pq
      ensures multiset(pq) == old(multiset(pq)) + multiset{t}
      ensures old(Valid() && Mirrors(toks)) && t.id in tokens && tokens[t.id] == t
              && t.id in toks && toks[t.id].expiresAt == t.expiresAt ==>
                && Valid() && ExpiryHeap.Known(toks, old(IdsOf(pq)))
                && IdsOf(pq) == ExpiryHeap.Push(toks, old(IdsOf(pq)), t.id)
    {
      hide ExpiryHeap.Up;
      if Valid() && Mirrors(toks) {
        MirroredIsKnown(toks);
      }
      pq := pq + [t];
      assert IdsOf(pq) == old(IdsOf(pq)) + [t.id];
      Up(|pq| - 1, toks);
    }

    /** Dropping the last entry of the heap. */
    method CutLast() returns (last: IssuedToken)
      requires Valid() && |pq| > 0
      modifies this`pq
      ensures Valid() && last == old(pq[|pq| - 1])
      ensures IdsOf(pq) == old(IdsOf(pq))[..|old(pq)| - 1]
      ensures old(multiset(pq)) == multiset(pq) + multiset{last}
    {
      assert pq == pq[..|pq| - 1] + [pq[|pq| - 1]];
      last := pq[|pq| - 1];
      pq := pq[..|pq| - 1];
    }

    lemma EntryIsFiled(i: nat)
      requires Valid() && i < |pq|
      ensures pq[i].id in tokens && tokens[pq[i].id] == pq[i]
    {
    }

    /** Move the root to the end, sift down over the rest, and cut the end off. */
    method HeapPop(ghost toks: Sessions) returns (top: IssuedToken)
      requires Valid() && Mirrors(toks) && |pq| > 0
      modifies this`pq
      ensures Valid() && top == old(pq[0]) && ExpiryHeap.Known(toks, old(IdsOf(pq)))
      ensures IdsOf(pq) == ExpiryHeap.Pop(toks, old(IdsOf(pq)))
      ensures old(multiset(pq)) == multiset(pq) + multiset{top}
    {
      hide ExpiryHeap.Pop, ExpiryHeap.Down, ExpiryHeap.Swap, Valid, Mirrors;
      var n: nat := |pq| - 1;
      MirroredIsKnown(toks);
      ghost var was, root := IdsOf(pq), pq[0];
      EntryIsFiled(0);
      SwapValid(0, n, toks);
      Down(0, n, toks);
      ExpiryHeap.PopCutsRoot(toks, was, IdsOf(pq));
      EntryIsFiled(n);
      assert pq[n].id == was[0] == root.id;
      top := CutLast();
    }

    // ---------- Critical sections ----------

    /** No entry of the heap is another object with the id of `t`. */
    ghost predicate Unclaimed(t: IssuedToken)
      reads this`pq
    {
      forall i :: 0 <= i < |pq| && pq[i].id == t.id ==> pq[i] == t
    }

    /** Filing a token under its id, with its first issue instant recorded. */
    method File(t: IssuedToken)
      requires Valid()
      modifies this`tokens, t
      ensures tokens == old(tokens)[t.id := t] && Filed() && (Valid() <==> Unclaimed(t))
      ensures t.Value() == old(t.Value()).(originalIssuedAt := if old(t.originalIssuedAt) == 0 then t.issuedAt
                                                               else old(t.originalIssuedAt))
      ensures t.Value() == Sections.Registered(old(t.Value()))
      ensures Toks() == old(Toks())[t.id := Sections.Registered(old(t.Value()))]
    {
      if t.originalIssuedAt == 0 {
        t.originalIssuedAt := t.issuedAt;
      }
      tokens := tokens[t.id := t];
    }

    lemma SeenWhenFiled(t: IssuedToken)
      requires t.id in tokens && tokens[t.id] == t
      ensures t.id in Toks() && Toks()[t.id].expiresAt == t.expiresAt
    {
    }

    /** A valid heap stays valid when references go, and an invalid one stays so when some come. */
    twostate lemma FewerReferences()
      requires tokens == old(tokens) && Filed() && Valid()
      requires old(multiset(pq)) <= multiset(pq)
      ensures old(Valid())
    {
      forall i | 0 <= i < |old(pq)| ensures old(pq)[i].id in tokens && tokens[old(pq)[i].id] == old(pq)[i] {
        assert old(pq)[i] in multiset(pq);
      }
    }

    /** Pushes a token that is filed. */
    method PushFiled(t: IssuedToken)
      requires Filed() && t.id in tokens && tokens[t.id] == t
      modifies this`pq
      ensures multiset(pq) == old(multiset(pq)) + multiset{t}
      ensures Valid() <==> old(Valid())
      ensures Valid() ==>
                && ExpiryHeap.Known(Toks(), old(IdsOf(pq)))
                && IdsOf(pq) == ExpiryHeap.Push(Toks(), old(IdsOf(pq)), t.id)
    {
      hide ExpiryHeap.Push, Mirrors;
      ghost var toks := Toks();
      if Valid() {
        ToksMirror();
      }
      SeenWhenFiled(t);
      HeapPush(t, toks);
      if Valid() {
        FewerReferences();
      }
    }

    /** Registers a newly issued token: it is filed, and the heap has one more reference, to it. The map
        and the heap still hold the same objects exactly when no other entry of the heap has its id; the
        pop loop looks entries up by id, and would miss such an entry's own object. */
    method Add(t: IssuedToken)
      requires Valid()
      modifies this`tokens, this`pq, t
      ensures tokens == old(tokens)[t.id := t] && multiset(pq) == old(multiset(pq)) + multiset{t}
      ensures t.Value() == old(t.Value()).(originalIssuedAt := if old(t.originalIssuedAt) == 0 then t.issuedAt
                                                               else old(t.originalIssuedAt))
      ensures Valid() <==> old(Unclaimed(t))
      ensures Valid() ==> Abs() == Sections.Add(old(Abs()), old(t.Value()))
    {
      hide ExpiryHeap.Push, Sections.Registered, Toks;
      File(t);
      PushFiled(t);
    }

    /** A live session, or null if it is absent or revoked. */
    method Get(id: string) returns (t: IssuedToken?)
      requires Valid()
      ensures t != null <==> id in tokens && !tokens[id].revoked
      ensures t != null ==> t == tokens[id] && t.id == id
      ensures t != null <==> Sections.Live(Abs(), id)
    {
      t := null;
      if id in tokens && !tokens[id].revoked {
        t := tokens[id];
      }
    }

    method Claim(t: IssuedToken)
      requires Valid() && t.id in tokens && tokens[t.id] == t
      modifies t`revoked, this`revokedCount
      ensures Valid() && Abs() == Sections.Claim(old(Abs()), t.id)
      ensures t.Value() == old(t.Value()).(revoked := true) && revokedCount == old(revokedCount) + 1
    {
      ghost var was := Toks();
      t.revoked := true;
      revokedCount := revokedCount + 1;
      assert Toks() == was[t.id := was[t.id].(revoked := true)];
    }

    /** The locked part of RevokeNow: the session it claims, if any. */
    method BeginRevoke(id: string) returns (t: IssuedToken?)
      requires Valid()
      modifies this`revokedCount, if id in tokens then {tokens[id]} else {}
      ensures Valid() && Abs() == Sections.RevokeNow(old(Abs()), id)
      ensures t != null <==> id in tokens && !old(tokens[id].revoked)
      ensures t != null ==>
                && t == tokens[id] && t.Value() == old(t.Value()).(revoked := true)
                && revokedCount == old(revokedCount) + 1
      ensures t == null ==>
                && revokedCount == old(revokedCount)
                && (id in tokens ==> tokens[id].Value() == old(tokens[id].Value()))
    {
      t := Get(id);
      if t != null {
        Claim(t);
      }
    }

    method Prolong(t: IssuedToken, expiry: Instant)
      requires Valid() && t.id in tokens && tokens[t.id] == t
      modifies t
      ensures Valid() && Abs() == Sections.Prolong(old(Abs()), t.id, expiry)
      ensures t.Value() == old(t.Value()).(expiresAt := expiry, extensionCount := old(t.extensionCount) + 1,
                                           notifiedExpiry := false)
    {
      ghost var was := Toks();
      t.expiresAt := expiry;
      t.extensionCount := t.extensionCount + 1;
      t.notifiedExpiry := false;
      assert Toks() == was[t.id := Sections.Lengthened(was[t.id], expiry)];
    }

    method MaxExtensionsForCeiling(t: IssuedToken, now: Instant) returns (left: int)
      requires limits.ttl != 0
      ensures left == Sections.ExtensionsLeft(t.Value(), limits, now)
      ensures var remaining := t.originalIssuedAt + limits.maxSession - now;
              left == if remaining <= 0 then 0
                      else (if remaining <= MAX_INT64 then remaining else MAX_INT64) / limits.ttl
    {
      var maxSessionAt := t.originalIssuedAt + limits.maxSession;
      var remaining := Sub(maxSessionAt, now);
      if remaining <= 0 {
        return 0;
      }
      left := remaining / limits.ttl;
    }

    /** The first locked part of Extend: the decision, carried out on the session. */
    method BeginExtend(id: string, now: Instant) returns (d: Sections.Decision, left: int)
      requires Valid() && limits.ttl != 0
      modifies this`revokedCount, if id in tokens then {tokens[id]} else {}
      ensures Valid() && Abs() == Sections.Extend(old(Abs()), id, limits, now)
      ensures d == Sections.Decide(old(Abs()), id, limits, now)
      ensures !(id in tokens && !old(tokens[id].revoked)) ==>
                && d == Sections.Gone && left == 0 && revokedCount == old(revokedCount)
                && (id in tokens ==> tokens[id].Value() == old(tokens[id].Value()))
      ensures id in tokens && !old(tokens[id].revoked) ==>
                var t := old(tokens[id].Value());
                var full, ceiling := t.expiresAt + limits.ttl, t.originalIssuedAt + limits.maxSession;
                var moved := t.(extensionCount := t.extensionCount + 1, notifiedExpiry := false);
                var remaining := ceiling - now;
                if full < ceiling then
                  && d == Sections.Renewed(full, ceiling) && tokens[id].Value() == moved.(expiresAt := full)
                  && left == (if remaining <= 0 then 0
                              else (if remaining <= MAX_INT64 then remaining else MAX_INT64) / limits.ttl)
                  && revokedCount == old(revokedCount)
                else if ceiling <= now then
                  && d == Sections.Forced(ceiling) && tokens[id].Value() == t.(revoked := true)
                  && left == 0 && revokedCount == old(revokedCount) + 1
                else
                  && d == Sections.Clamped(ceiling) && tokens[id].Value() == moved.(expiresAt := ceiling)
                  && left == 0 && revokedCount == old(revokedCount)
    {
      hide Abs, Toks, Sections.Extend, Sections.Prolong, Sections.Claim, Sections.ExtensionsLeft;
      Sections.ExtendOutcome(Abs(), id, limits, now);
      SessionSeen(id);
      left := 0;
      var t := Get(id);
      if t == null {
        return Sections.Gone, 0;
      }
      var newExpiry := t.expiresAt + limits.ttl;
      var maxSessionAt := t.originalIssuedAt + limits.maxSession;
      if newExpiry >= maxSessionAt {
        if now >= maxSessionAt {
          Claim(t);
          return Sections.Forced(maxSessionAt), 0;
        }
        Prolong(t, maxSessionAt);
        return Sections.Clamped(maxSessionAt), 0;
      }
      Prolong(t, newExpiry);
      SessionSeen(id);
      left := MaxExtensionsForCeiling(t, now);
      d := Sections.Renewed(newExpiry, maxSessionAt);
    }

    /** The second locked part of Extend: the re-issued secret is stored. */
    method FinishExtend(id: string, secret: string)
      requires Valid()
      modifies if id in tokens then {tokens[id]} else {}
      ensures Valid() && Abs() == Sections.WriteSecret(old(Abs()), id, secret)
      ensures id in tokens ==> tokens[id].Value() == old(tokens[id].Value()).(secret := secret)
    {
      ghost var was := Toks();
      if id in tokens {
        tokens[id].secret := secret;
        assert Toks() == was[id := was[id].(secret := secret)];
      }
    }

    /** Flags one session if it is due a warning. */
    method FlagIfDue(t: IssuedToken, now: Instant) returns (due: bool)
      modifies t`notifiedExpiry
      ensures due == Sections.WarningDue(old(t.Value()), limits, now)
      ensures t.Value() == Sections.Flagged(old(t.Value()), limits, now)
      ensures due <==> !t.revoked && !old(t.notifiedExpiry) && now < t.expiresAt
                       && (t.expiresAt - now <= limits.warningBefore || MAX_INT64 <= limits.warningBefore)
      ensures t.Value() == if due then old(t.Value()).(notifiedExpiry := true) else old(t.Value())
    {
      if t.revoked || t.notifiedExpiry {
        return false;
      }
      var timeLeft := Sub(t.expiresAt, now);
      if timeLeft <= limits.warningBefore && timeLeft > 0 {
        t.notifiedExpiry := true;
        return true;
      }
      return false;
    }

    method FlagSession(id: string, now: Instant) returns (due: bool)
      requires Valid() && id in tokens
      modifies tokens[id]
      ensures Toks() == old(Toks())[id := Sections.Flagged(old(Toks())[id], limits, now)]
      ensures due == Sections.WarningDue(old(Toks())[id], limits, now)
    {
      due := FlagIfDue(tokens[id], now);
    }

    /** What a warning round does, in the fields of each session. */
    twostate lemma WarnedInFields(new toNotify: seq<IssuedToken>, now: Instant)
      requires tokens == old(tokens) && limits == old(limits) && old(Valid()) && Valid()
      requires Abs() == Sections.Warn(old(Abs()), limits, now)
      requires multiset(IdsOf(toNotify)) == multiset(Sections.ToNotify(old(Abs()), limits, now))
      ensures forall id :: id in tokens ==>
                var t := old(tokens[id].Value());
                var due := && !t.revoked && !t.notifiedExpiry && now < t.expiresAt
                           && (t.expiresAt - now <= limits.warningBefore || MAX_INT64 <= limits.warningBefore);
                && tokens[id].Value() == (if due then t.(notifiedExpiry := true) else t)
                && multiset(IdsOf(toNotify))[id] == if due then 1 else 0
    {
      forall id | id in tokens
        ensures var t := old(tokens[id].Value());
                && tokens[id].Value() == Sections.Flagged(t, limits, now)
                && multiset(IdsOf(toNotify))[id] == if Sections.WarningDue(t, limits, now) then 1 else 0
      {
        assert Toks()[id] == tokens[id].Value() && old(Toks())[id] == old(tokens[id].Value());
        assert Abs().toks[id] == Sections.Flagged(old(Abs()).toks[id], limits, now);
      }
      forall id | id in tokens {
        Sections.DueInFields(old(tokens[id].Value()), limits, now);
      }
    }

    /** All of these are filed objects. */
    ghost predicate Listed(ts: seq<IssuedToken>)
      reads this`tokens
    {
      forall i :: 0 <= i < |ts| ==> ts[i].id in tokens && tokens[ts[i].id] == ts[i]
    }

    lemma ListedMore(ts: seq<IssuedToken>, t: IssuedToken)
      requires Listed(ts) && t.id in tokens && tokens[t.id] == t
      ensures Listed(ts + [t])
    {
    }

    /** The loop of fireWarnings, which visits the map in any order. */
    method FlagDue(now: Instant) returns (toNotify: seq<IssuedToken>)
      requires Valid()
      modifies tokens.Values
      ensures Valid() && Abs() == Sections.Warn(old(Abs()), limits, now)
      ensures multiset(IdsOf(toNotify)) == multiset(Sections.ToNotify(old(Abs()), limits, now))
      ensures Listed(toNotify)
    {
      ghost var was := Toks();
      toNotify := [];
      var rest := tokens.Keys;
      while rest != {}
        invariant rest <= tokens.Keys
        invariant Listed(toNotify)
        invariant Toks() == Partly(was, rest, limits, now)
        invariant multiset(IdsOf(toNotify)) == multiset(DueAmong(was, was.Keys - rest, limits, now))
        decreases rest
      {
        hide Listed;
        var id :| id in rest;
        PartlyMore(was, rest, id, limits, now);
        rest := rest - {id};
        var due := FlagSession(id, now);
        NotifyGrows(was, was.Keys - rest, toNotify, tokens[id], limits, now);
        if due {
          ListedMore(toNotify, tokens[id]);
          toNotify := toNotify + [tokens[id]];
        }
      }
      assert Partly(was, {}, limits, now) == Sections.Warn(old(Abs()), limits, now).toks;
      assert DueAmong(was, was.Keys, limits, now) == Sections.ToNotify(old(Abs()), limits, now);
    }

    /** The locked part of fireWarnings, in the state and in the fields of each session. */
    method FireWarnings(now: Instant) returns (toNotify: seq<IssuedToken>)
      requires Valid()
      modifies tokens.Values
      ensures Valid() && Abs() == Sections.Warn(old(Abs()), limits, now)
      ensures multiset(IdsOf(toNotify)) == multiset(Sections.ToNotify(old(Abs()), limits, now))
      ensures forall i :: 0 <= i < |toNotify| ==> toNotify[i].id in tokens && tokens[toNotify[i].id] == toNotify[i]
      ensures forall id :: id in tokens ==>
                var t := old(tokens[id].Value());
                var due := && !t.revoked && !t.notifiedExpiry && now < t.expiresAt
                           && (t.expiresAt - now <= limits.warningBefore || MAX_INT64 <= limits.warningBefore);
                && tokens[id].Value() == (if due then t.(notifiedExpiry := true) else t)
                && multiset(IdsOf(toNotify))[id] == if due then 1 else 0
    {
      hide Abs, Toks, Sections.Warn, Sections.ToNotify;
      toNotify := FlagDue(now);
      WarnedInFields(toNotify, now);
    }

    /** Taking the root off the heap, seen from outside. */
    method PopRoot() returns (top: IssuedToken)
      requires Valid() && |pq| > 0
      modifies this`pq
      ensures Valid() && top == old(pq[0]) && old(multiset(pq)) == multiset(pq) + multiset{top}
      ensures Abs() == old(Abs()).(heap := ExpiryHeap.Pop(old(Toks()), old(IdsOf(pq))))
    {
      hide ExpiryHeap.Pop;
      ghost var toks := Toks();
      ToksMirror();
      top := HeapPop(toks);
    }

    /** One locked round of revokeExpired. */
    method PopTop(now: Instant) returns (round: Sections.Round)
      requires Valid()
      modifies this`pq, this`revokedCount, tokens.Values
      ensures Valid() && Abs() == Sections.PopTop(old(Abs()), now)
      ensures round == Sections.Inspect(old(Abs()), now)
      ensures round.Done? <==> old(|pq| == 0 || pq[0].expiresAt > now)
      ensures round.Done? ==> pq == old(pq)
      ensures !round.Done? ==> old(multiset(pq)) == multiset(pq) + multiset{old(pq[0])}
      ensures !round.Done? ==> (round.Skipped? <==> old(pq[0].revoked))
      ensures round.Claimed? ==> round.id in tokens && tokens[round.id] == old(pq[0])
      ensures revokedCount == old(revokedCount) + if round.Claimed? then 1 else 0
      ensures forall id :: id in tokens ==>
                tokens[id].Value() == if round == Sections.Claimed(id) then old(tokens[id].Value()).(revoked := true)
                                      else old(tokens[id].Value())
    {
      hide Sections.Claim, ExpiryHeap.Pop;
      if |pq| == 0 {
        return Sections.Done;
      }
      var top := pq[0];
      if top.expiresAt > now {
        return Sections.Done;
      }
      var popped := PopRoot();
      var t := tokens[top.id];
      if t.revoked {
        return Sections.Skipped;
      }
      Claim(t);
      round := Sections.Claimed(top.id);
    }

    // ---------- Whole operations ----------

    /** The provider call that follows a claim: through the retrying revoker when one is wired. The
        session is handed over once, whatever comes back; the time slept is reported. */
    method HandOver(t: IssuedToken, net: Net) returns (err: Option<string>, slept: nat)
      modifies this`handed, revoker
      ensures handed == old(handed) + [t.id]
      ensures revoker == null ==> err == net.outcome(t.id, 1) && slept == 0
      ensures revoker != null ==>
                && var p := old(revoker.Settings());
                && revoker.Settings() == WithDefaults(p)
                && err == Revocation(p, net, t.id).error
                && slept == Backoff.Slept(Revocation(p, net, t.id).sleeps)
    {
      handed := handed + [t.id];
      if revoker != null {
        var trace := revoker.Revoke(t, net);
        return trace.error, Backoff.Slept(trace.sleeps);
      }
      return net.outcome(t.id, 1), 0;
    }

    /** Revokes a session by hand. An absent or revoked one is left alone and nothing is sent. */
    method RevokeNow(id: string, net: Net) returns (err: Option<string>)
      requires Valid()
      modifies this`revokedCount, this`handed, (if id in tokens then {tokens[id]} else {}), revoker
      ensures Valid() && Abs() == Sections.RevokeNow(old(Abs()), id)
      ensures id in tokens && !old(tokens[id].revoked) ==>
                && tokens[id].Value() == old(tokens[id].Value()).(revoked := true)
                && revokedCount == old(revokedCount) + 1 && handed == old(handed) + [id]
                && err == if revoker == null then net.outcome(id, 1)
                          else Revocation(old(revoker.Settings()), net, id).error
      ensures !(id in tokens && !old(tokens[id].revoked)) ==>
                && (id in tokens ==> tokens[id].Value() == old(tokens[id].Value()))
                && revokedCount == old(revokedCount) && handed == old(handed) && err == None
    {
      hide Abs, Toks, Sections.RevokeNow;
      var t := BeginRevoke(id);
      if t == null {
        return None;
      }
      var slept;
      err, slept := HandOver(t, net);
    }

    /** The provider call of an extension, and the write-back if it succeeds. */
    method Reissue(t: IssuedToken, ttl: Duration, issue: Issuer) returns (err: Option<string>)
      requires Valid() && t.id in tokens && tokens[t.id] == t
      modifies t
      ensures Valid()
      ensures match issue(t.user, t.resource, ttl)
              case Failed(e) => Abs() == old(Abs()) && t.Value() == old(t.Value()) && err == Some(e)
              case Issued(v) =>
                && Abs() == Sections.WriteSecret(old(Abs()), t.id, v.secret)
                && t.Value() == old(t.Value()).(secret := v.secret) && err == None
    {
      match issue(t.user, t.resource, ttl)
      case Failed(e) =>
        err := Some(e);
      case Issued(v) =>
        FinishExtend(t.id, v.secret);
        err := None;
    }

    /** Extends a session and re-issues its credential. `now` is the reading under the lock, `at` the
        one at which the provider is asked. The state moves before the provider answers, so a refused
        re-issue leaves the longer expiry behind. */
    method Extend(id: string, now: Instant, at: Instant, issue: Issuer) returns (r: ExtendResult)
      requires Valid() && limits.ttl != 0
      modifies this`revokedCount, this`handed, if id in tokens then {tokens[id]} else {}
      ensures Valid()
      ensures r.token != null ==>
                && id in tokens && r.token == tokens[id]
                && r.maxSessionAt == tokens[id].originalIssuedAt + limits.maxSession
      ensures !(id in tokens && !old(tokens[id].revoked)) ==>
                && (id in tokens ==> tokens[id].Value() == old(tokens[id].Value()))
                && revokedCount == old(revokedCount) && handed == old(handed)
                && r == ExtendResult(false, null, 0, 0, 0, "token not found or already revoked")
      ensures id in tokens && !old(tokens[id].revoked) ==>
                var t := old(tokens[id].Value());
                var full, ceiling := t.expiresAt + limits.ttl, t.originalIssuedAt + limits.maxSession;
                ceiling <= full && ceiling <= now ==>
                  && tokens[id].Value() == t.(revoked := true)
                  && revokedCount == old(revokedCount) + 1 && handed == old(handed) + [id]
                  && r == ExtendResult(false, tokens[id], 0, ceiling, 0, CEILING_REACHED)
      ensures id in tokens && !old(tokens[id].revoked) ==>
                var t := old(tokens[id].Value());
                var full, ceiling := t.expiresAt + limits.ttl, t.originalIssuedAt + limits.maxSession;
                full < ceiling || now < ceiling ==>
                  var expiry := if full < ceiling then full else ceiling;
                  var moved := t.(expiresAt := expiry, extensionCount := t.extensionCount + 1, notifiedExpiry := false);
                  var remaining := if ceiling - now <= MAX_INT64 then ceiling - now else MAX_INT64;
                  var left := if full < ceiling && remaining > 0 then remaining / limits.ttl else 0;
                  && revokedCount == old(revokedCount) && handed == old(handed)
                  && match issue(t.user, t.resource, if full < ceiling then limits.ttl else Sub(ceiling, at))
                     case Failed(e) =>
                       tokens[id].Value() == moved && r == ExtendResult(false, null, 0, 0, 0, e)
                     case Issued(v) =>
                       && tokens[id].Value() == moved.(secret := v.secret)
                       && r == ExtendResult(true, tokens[id], expiry, ceiling, left, "")
      ensures var s := old(Abs()); var moved := Sections.Extend(s, id, limits, now);
              Abs() == if r.extended then Sections.WriteSecret(moved, id, tokens[id].secret) else moved
    {
      hide Abs, Toks, Snap, Sections.Extend, Sections.Decide, Sections.WriteSecret;
      var t := Get(id);
      var d, left := BeginExtend(id, now);
      var err: Option<string> := None;
      match d
      case Gone =>
        r := ExtendResult(false, null, 0, 0, 0, "token not found or already revoked");
      case Forced(maxSessionAt) =>
        handed := handed + [id];
        r := ExtendResult(false, t, 0, maxSessionAt, 0, CEILING_REACHED);
      case Clamped(maxSessionAt) =>
        err := Reissue(t, Sub(maxSessionAt, at), issue);
        r := if err.Some? then ExtendResult(false, null, 0, 0, 0, err.value)
             else ExtendResult(true, t, maxSessionAt, maxSessionAt, 0, "");
      case Renewed(newExpiry, maxSessionAt) =>
        err := Reissue(t, limits.ttl, issue);
        r := if err.Some? then ExtendResult(false, null, 0, 0, 0, err.value)
             else ExtendResult(true, t, newExpiry, maxSessionAt, left, "");
    }

    /** One round of the pop loop, with the provider call of a session it claims. */
    method Round(now: Instant, net: Net) returns (round: Sections.Round, slept: nat)
      requires Valid()
      modifies this`pq, this`revokedCount, this`handed, tokens.Values, revoker
      ensures Valid() && Abs() == Sections.PopTop(old(Abs()), now)
      ensures round == Sections.Inspect(old(Abs()), now)
      ensures handed == old(handed) + Ticks.ClaimedIn(round)
      ensures !(round.Claimed? && revoker != null) ==> slept == 0
      ensures revoker != null ==> revoker.Settings() == old(revoker.Settings())
                                  || revoker.Settings() == WithDefaults(old(revoker.Settings()))
      ensures round.Claimed? && revoker != null ==>
                slept == Backoff.Slept(Revocation(old(revoker.Settings()), net, round.id).sleeps)
    {
      hide Sections.PopTop, Sections.Inspect, Revocation, WithDefaults, Backoff.Slept, Toks, Abs, Snap;
      slept := 0;
      round := PopTop(now);
      if round.Claimed? {
        var err;
        err, slept := HandOver(tokens[round.id], net);
      } else {
        assert handed == old(handed) + [];
      }
    }

    /** The state behind the objects, field by field. */
    lemma SeenInFields()
      requires Valid()
      ensures Abs().toks.Keys == tokens.Keys && forall id :: id in tokens ==> Abs().toks[id] == tokens[id].Value()
      ensures Abs().heap == IdsOf(pq) && Abs().revokedCount == revokedCount
      ensures |pq| > 0 ==> tokens[Abs().heap[0]] == pq[0]
    {
    }

    /** The pop loop of one tick: hands over each session it claims before it looks at the next. It revokes
        exactly the sessions it claims, which were live and had expired, once each; it counts them; it drops
        no unexpired entry; and it stops at an empty heap or an unexpired root. */
    method RevokeExpired(now: Instant, net: Net) returns (slept: nat, ghost claimed: seq<string>)
      requires Valid()
      modifies this`pq, this`revokedCount, this`handed, tokens.Values, revoker
      ensures Valid() && Abs() == Ticks.RevokeExpired(old(Abs()), now).state
      ensures handed == old(handed) + claimed && claimed == Ticks.RevokeExpired(old(Abs()), now).handed
      ensures revoker == null ==> slept == 0
      ensures revoker != null ==>
                slept == Backoff.SleptOver(old(revoker.Settings()), net, claimed)
      ensures forall id :: id in tokens ==>
                tokens[id].Value() == if id in claimed then old(tokens[id].Value()).(revoked := true)
                                      else old(tokens[id].Value())
      ensures forall id :: id in claimed ==> id in tokens && old(!tokens[id].revoked && tokens[id].expiresAt <= now)
      ensures forall i, j :: 0 <= i < j < |claimed| ==> claimed[i] != claimed[j]
      ensures forall id :: id in tokens && now < old(tokens[id].expiresAt) ==>
                multiset(IdsOf(pq))[id] == multiset(old(IdsOf(pq)))[id]
      ensures revokedCount == old(revokedCount) + |claimed| && (pq == [] || now < pq[0].expiresAt)
    {
      hide Ticks.RevokeExpired, Toks, Abs, Snap, Backoff.SleptOver;
      ghost var s := Abs();
      SeenInFields();
      claimed := Ticks.RevokeExpired(s, now).handed;
      Ticks.SweepInFields(s, now);
      slept := SweepLoop(now, net);
      SeenInFields();
    }

    /** Its loop. */
    method SweepLoop(now: Instant, net: Net) returns (slept: nat)
      requires Valid()
      modifies this`pq, this`revokedCount, this`handed, tokens.Values, revoker
      ensures Valid() && Abs() == Ticks.RevokeExpired(old(Abs()), now).state
      ensures handed == old(handed) + Ticks.RevokeExpired(old(Abs()), now).handed
      ensures revoker == null ==> slept == 0
      ensures revoker != null ==>
                slept == Backoff.SleptOver(old(revoker.Settings()), net, Ticks.RevokeExpired(old(Abs()), now).handed)
    {
      hide Sections.PopTop, Sections.Inspect, Ticks.RevokeExpired, Ticks.Resumes, Backoff.SleptOver, Revocation;
      slept := 0;
      ghost var done: seq<string> := [];
      ghost var s0 := Abs();
      ghost var p := if revoker == null then DEFAULT_POLICY else revoker.Settings();
      Backoff.SleptNone(p, net);
      Ticks.ResumesAtStart(s0, now);
      ghost var s := s0;
      var round := Sections.Skipped;
      while !round.Done?
        invariant Valid() && Abs() == s && Sections.Indexed(s)
        invariant Ticks.Resumes(s0, now, s, done)
        invariant round.Done? ==> Sections.Inspect(s, now).Done?
        invariant handed == old(handed) + done
        invariant revoker == null ==> slept == 0
        invariant revoker != null ==>
          WithDefaults(revoker.Settings()) == WithDefaults(p) && slept == Backoff.SleptOver(p, net, done)
        decreases !round.Done?, |s.heap|
      {
        ghost var q := if revoker == null then DEFAULT_POLICY else revoker.Settings();
        Ticks.PopTopShrinks(s, now);
        var more;
        round, more := Round(now, net);
        if round.Done? {
          assert handed == old(handed) + done + [] == old(handed) + done;
        } else {
          Ticks.ResumesNext(s0, now, s, done);
          ghost var claimed := Ticks.ClaimedIn(round);
          Ticks.Regroup(old(handed), done, claimed);
          if round.Claimed? {
            Backoff.SleptOneMore(p, q, net, done, round.id);
          } else {
            assert done + claimed == done;
          }
          s, done := Sections.PopTop(s, now), done + claimed;
          slept := slept + more;
        }
      }
      Ticks.ResumesDone(s0, now, s, done);
    }

    /** One tick of the worker: warnings first, then the pop loop, at the same instant. */
    method Tick(now: Instant, net: Net) returns (toNotify: seq<IssuedToken>, slept: nat, ghost claimed: seq<string>)
      requires Valid()
      modifies this`pq, this`revokedCount, this`handed, tokens.Values, revoker
      ensures Valid()
      ensures var warned := Sections.Warn(old(Abs()), limits, now);
              && Abs() == Ticks.RevokeExpired(warned, now).state
              && handed == old(handed) + Ticks.RevokeExpired(warned, now).handed
              && slept == if revoker == null then 0
                          else Backoff.SleptOver(old(revoker.Settings()), net, Ticks.RevokeExpired(warned, now).handed)
      ensures multiset(IdsOf(toNotify)) == multiset(Sections.ToNotify(old(Abs()), limits, now))
      ensures handed == old(handed) + claimed
      ensures forall id :: id in tokens ==>
                var t := old(tokens[id].Value());
                var due := && !t.revoked && !t.notifiedExpiry && now < t.expiresAt
                           && (t.expiresAt - now <= limits.warningBefore || MAX_INT64 <= limits.warningBefore);
                && multiset(IdsOf(toNotify))[id] == (if due then 1 else 0)
                && tokens[id].Value() == t.(notifiedExpiry := t.notifiedExpiry || due,
                                            revoked := t.revoked || id in claimed)
                && (id in claimed ==> !t.revoked && t.expiresAt <= now)
    {
      hide Abs, Toks, Snap, IdsOf, Valid, Sections.Warn, Sections.ToNotify, Ticks.RevokeExpired;
      hide Backoff.SleptOver;
      toNotify := FireWarnings(now);
      assert forall id :: id in tokens ==> tokens[id].revoked == old(tokens[id].revoked)
                                           && tokens[id].expiresAt == old(tokens[id].expiresAt);
      slept, claimed := RevokeExpired(now, net);
    }

    // ---------- Persistence ----------

    /** One record for each session, in any order. */
    method PersistAll() returns (file: seq<Record>)
      requires Valid()
      ensures Recovery.Snapshot(Toks(), file)
      ensures forall i, j :: 0 <= i < j < |file| ==> file[i].id != file[j].id
      ensures forall i :: 0 <= i < |file| ==>
                && file[i].id in tokens
                && var t := tokens[file[i].id];
                   file[i] == Record(1, t.id, t.user, t.resource, t.secret, t.provider, t.issuedAt, t.expiresAt,
                                     t.originalIssuedAt, t.extensionCount, t.revoked, false,
                                     t.justificationType, t.justificationRef)
      ensures forall id :: id in tokens ==> exists i :: 0 <= i < |file| && file[i].id == id
    {
      file := [];
      var rest := tokens.Keys;
      while rest != {}
        invariant rest <= tokens.Keys
        invariant DistinctIds(file) && Recovery.WrittenFrom(Toks(), file)
        invariant forall i :: 0 <= i < |file| ==> file[i].id !in rest
        invariant forall id :: id in tokens && id !in rest ==> ToRecord(Toks()[id]) in file
        decreases rest
      {
        var id :| id in rest;
        rest := rest - {id};
        assert Toks()[id].id == id;
        file := file + [ToRecord(tokens[id].Value())];
      }
    }

    /** One record of the first loop: added unless revoked, expired or already present. */
    method Readd(r: Record, now: Instant)
      requires Valid()
      modifies this`tokens, this`pq
      ensures Valid()
      ensures forall id :: id in tokens ==> (id in old(tokens) && tokens[id] == old(tokens)[id]) || fresh(tokens[id])
      ensures Abs() == if r.revoked || r.expiresAt < now || r.id in old(tokens) then old(Abs())
                       else Sections.Add(old(Abs()), ToToken(r))
      ensures r.revoked || r.expiresAt < now || r.id in old(tokens) ==> tokens == old(tokens) && pq == old(pq)
      ensures !r.revoked && now <= r.expiresAt && r.id !in old(tokens) ==>
                && r.id in tokens && tokens == old(tokens)[r.id := tokens[r.id]]
                && multiset(pq) == old(multiset(pq)) + multiset{tokens[r.id]}
                && tokens[r.id].Value()
                   == Token(r.id, r.user, r.resource, r.secret, r.provider, r.issuedAt, r.expiresAt,
                            if r.originalIssuedAt == 0 then r.issuedAt else r.originalIssuedAt,
                            r.extensionCount, false, false, r.justificationType, r.justificationRef)
    {
      hide Abs, Toks, Snap, Sections.Add;
      if r.revoked || r.expiresAt < now {
        return;
      }
      if r.id !in tokens {
        var tok := new IssuedToken(ToToken(r));
        Add(tok);
      }
    }

    /** The first loop of recovery: unexpired records that are not there become live sessions. */
    method ReaddLive(records: seq<Record>, now: Instant)
      requires Valid()
      modifies this`tokens, this`pq
      ensures Valid() && Abs() == Recovery.ReadmitInto(old(Abs()), records, now)
    {
      ghost var s0 := Abs();
      for i := 0 to |records|
        invariant Valid()
        invariant forall id :: id in tokens ==>
                    (id in old(tokens) && tokens[id] == old(tokens)[id]) || fresh(tokens[id])
        invariant Abs() == Recovery.ReadmitInto(s0, records[..i], now)
      {
        hide Recovery.ReadmitInto, Sections.Add;
        Recovery.ReadmitOneMore(s0, records, now, i);
        Readd(records[i], now);
      }
      assert records[..|records|] == records;
    }

    /** No entry of the heap has one of the given ids. */
    ghost predicate Outside(records: seq<Record>)
      reads this`pq
    {
      forall i, k :: 0 <= i < |pq| && 0 <= k < |records| ==> pq[i].id != records[k].id
    }

    /** The locked part of one missed record: the session is entered as revoked, off the heap. */
    method EnterMissed(r: Record) returns (tok: IssuedToken)
      modifies this`tokens, this`revokedCount
      ensures fresh(tok) && tok.id == r.id && tokens == old(tokens)[r.id := tok]
      ensures Snap() == Recovery.Enter(old(Snap()), r)
      ensures revokedCount == old(revokedCount) + 1
      ensures tok.Value() == Token(r.id, r.user, r.resource, r.secret, r.provider, r.issuedAt, r.expiresAt,
                                   r.originalIssuedAt, r.extensionCount, true, false,
                                   r.justificationType, r.justificationRef)
      ensures old(Filed()) ==> Filed() && (Valid() <==> old(Valid()) && Outside([r]))
    {
      tok := new IssuedToken(ToToken(r));
      tok.revoked := true;
      revokedCount := revokedCount + 1;
      tokens := tokens[tok.id := tok];
      assert Toks() == old(Toks())[r.id := ToToken(r).(revoked := true)];
      assert Outside([r]) <==> forall i :: 0 <= i < |pq| ==> pq[i].id != [r][0].id;
    }

    /** One missed record: its session is entered, then handed over. */
    method RevokeOneMissed(r: Record, net: Net)
      modifies this`tokens, this`revokedCount, this`handed, revoker
      ensures handed == old(handed) + [r.id] && Snap() == Recovery.Enter(old(Snap()), r)
      ensures old(Filed()) ==> Filed() && (Valid() <==> old(Valid()) && Outside([r]))
    {
      var tok := EnterMissed(r);
      var err, slept := HandOver(tok, net);
    }

    lemma OutsideOneMore(records: seq<Record>, i: nat)
      requires i < |records|
      ensures Outside(records[..i + 1]) <==> Outside(records[..i]) && Outside([records[i]])
    {
      assert Outside([records[i]]) ==> forall k :: 0 <= k < |pq| ==> pq[k].id != [records[i]][0].id;
    }

    /** The second loop of recovery: missed sessions are entered and handed over one by one. The map and
        the heap still hold the same objects exactly when no missed id is in the heap. */
    method RevokeMissed(missed: seq<Record>, net: Net)
      modifies this`tokens, this`revokedCount, this`handed, revoker
      ensures pq == old(pq) && handed == old(handed) + Recovery.Ids(missed)
      ensures Snap() == Recovery.EnterMissed(old(Snap()), missed)
      ensures old(Filed()) ==> Filed() && (Valid() <==> old(Valid()) && Outside(missed))
    {
      ghost var s0 := Snap();
      for i := 0 to |missed|
        invariant pq == old(pq) && handed == old(handed) + Recovery.Ids(missed[..i])
        invariant Snap() == Recovery.EnterMissed(s0, missed[..i])
        invariant old(Filed()) ==> Filed() && (Valid() <==> old(Valid()) && Outside(missed[..i]))
      {
        hide Recovery.Ids, Recovery.EnterMissed, Recovery.Enter, Snap, Valid, Filed, Outside;
        Recovery.EnterOneMore(s0, missed, i);
        RevokeOneMissed(missed[i], net);
        OutsideOneMore(missed, i);
      }
      assert missed[..|missed|] == missed;
    }

    /** Recovery from the file. From a new store and a file without repeated ids, such as PersistAll
        writes, the store stays valid; in any case it does so exactly when no missed id is in the heap. */
    method RecoverMissedExpirations(file: seq<Record>, now: Instant, net: Net)
      requires Valid()
      modifies this`tokens, this`pq, this`revokedCount, this`handed, revoker
      ensures Snap() == Recovery.RecoverInto(old(Abs()), file, now).state
      ensures handed == old(handed) + Recovery.RecoverInto(old(Abs()), file, now).handed
      ensures Valid() <==> Outside(AllMissed(Active(file), now))
      ensures old(Abs()) == Sections.EMPTY && DistinctIds(file) ==>
                Valid() && Abs() == Recovery.Recover(file, now).state
    {
      hide Toks, Recovery.ReadmitInto, Recovery.EnterMissed, Recovery.KeptIds, Recovery.Readmit;
      ghost var s0 := Abs();
      var records := LoadActive(file);
      var missed := MissedExpirations(records, now);
      ReaddLive(records, now);
      if s0 == Sections.EMPTY && DistinctIds(file) {
        Recovery.NoneMissedInHeap(file, now);
        assert forall i :: 0 <= i < |pq| ==> IdsOf(pq)[i] == pq[i].id;
      }
      RevokeMissed(missed, net);
    }
  }
}
