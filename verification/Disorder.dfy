/**
 What a heap out of order costs. An entry that expires before one above it may still be popped in
 time by luck, but the next grants can trap it: heap order is exactly what keeps ticks on time
 whatever is granted next.
 */
module Disorder {
  import opened Clock
  import opened Tokens
  import opened ExpiryHeap
  import opened Sections
  import opened Ticks
  import opened Recovery
  import Extensions

  // ---------- An entry under another through a pop ----------

  /** Slot `i` lies above slot `k`. */
  predicate Above(i: nat, k: nat)
    decreases k
  {
    k > 0 && (Parent(k) == i || Above(i, Parent(k)))
  }

  lemma {:induction false} AboveFirst(i: nat, k: nat)
    requires Above(i, k)
    ensures i < k
    decreases k
  {
    if Parent(k) != i {
      AboveFirst(i, Parent(k));
    }
  }

  lemma {:induction false} AboveParent(j: nat, k: nat)
    requires j > 0 && Above(j, k)
    ensures Above(Parent(j), k)
    decreases k
  {
    if Parent(k) != j {
      AboveParent(j, Parent(k));
    }
  }

  /** Swapping some other entry with its child leaves one entry above another. */
  lemma SwapKeepsAbove(h: seq<string>, i: nat, j: nat, a: nat, b: nat) returns (a': nat, b': nat)
    requires i < j < |h| && Parent(j) == i && Above(a, b) && a < b < |h| && a != i && b != i
    ensures a' < b' <= b && Above(a', b') && a' != j && b' != j
    ensures Swap(h, i, j)[a'] == h[a] && Swap(h, i, j)[b'] == h[b]
  {
    a', b' := if a == j then i else a, if b == j then i else b;
    if a == j {
      AboveParent(j, b);
    }
    AboveFirst(a', b');
  }

  /** So does sifting some other entry down, though both may move up. */
  lemma {:induction false} DownKeepsAbove(toks: Sessions, h: seq<string>, i: nat, n: nat, a: nat, b: nat)
    returns (a': nat, b': nat)
    requires n <= |h| && Known(toks, h) && Above(a, b) && a < b < n && a != i && b != i
    ensures a' < b' <= b && Above(a', b')
    ensures Down(toks, h, i, n)[a'] == h[a] && Down(toks, h, i, n)[b'] == h[b]
    decreases n - i
  {
    hide Swap, Above;
    a', b' := a, b;
    if 2 * i + 1 < n {
      var j := Earlier(toks, h, i, n);
      if Less(toks, h[j], h[i]) {
        DownMoves(toks, h, i, n, j);
        a', b' := SwapKeepsAbove(h, i, j, a, b);
        a', b' := DownKeepsAbove(toks, Swap(h, i, j), j, n, a', b');
      }
    }
  }

  /** Sifting down an unexpired entry brings no expired one into the slots from `m` on. */
  lemma {:induction false} DownKeepsLate(toks: Sessions, h: seq<string>, i: nat, n: nat, m: nat, now: Instant)
    requires n <= |h| && Known(toks, h) && i < |h| && !Expired(toks, h[i], now)
    requires forall k :: m <= k < n ==> !Expired(toks, h[k], now)
    ensures Known(toks, Down(toks, h, i, n))
    ensures forall k :: m <= k < n ==> !Expired(toks, Down(toks, h, i, n)[k], now)
    decreases n - i
  {
    PermutationKnown(toks, h, Down(toks, h, i, n));
    if 2 * i + 1 < n {
      var j := Earlier(toks, h, i, n);
      if Less(toks, h[j], h[i]) {
        DownMoves(toks, h, i, n, j);
        DownKeepsLate(toks, Swap(h, i, j), j, n, m, now);
      }
    }
  }

  /** The entry at slot `b` lies under an unexpired one at slot `a`, from slot `m` on the heap holds
      only unexpired entries, and there are more than `m` unexpired latecomers in it. */
  ghost predicate Trapped(toks: Sessions, h: seq<string>, a: nat, b: nat, late: seq<string>, m: nat, now: Instant)
    requires Known(toks, h)
  {
    && b < m < |late| && Above(a, b) && a < b < |h|
    && !Expired(toks, h[a], now)
    && (forall id :: id in late ==> id in toks && !Expired(toks, id, now))
    && multiset(late) <= multiset(h)
    && (forall k :: m <= k < |h| ==> !Expired(toks, h[k], now))
  }

  lemma FewerFit(late: seq<string>, h: seq<string>)
    requires multiset(late) <= multiset(h)
    ensures |late| <= |h|
  {
    assert multiset(h) == multiset(late) + (multiset(h) - multiset(late));
    assert |multiset(h)| == |h| && |multiset(late)| == |late|;
  }

  lemma PopKeepsOthers(toks: Sessions, h: seq<string>, late: seq<string>)
    requires Known(toks, h) && |h| > 0 && multiset(late) <= multiset(h) && h[0] !in late
    ensures multiset(late) <= multiset(Pop(toks, h))
  {
    hide Pop;
    forall id ensures multiset(late)[id] <= multiset(Pop(toks, h))[id] {
      PopCounts(toks, h, id);
    }
  }

  /** Popping an expired root leaves the trap closed. */
  lemma PopKeepsTrap(toks: Sessions, h: seq<string>, a: nat, b: nat, late: seq<string>, m: nat, now: Instant)
    returns (a': nat, b': nat)
    requires Known(toks, h) && |h| > 0 && Expired(toks, h[0], now) && Trapped(toks, h, a, b, late, m, now)
    ensures Trapped(toks, Pop(toks, h), a', b', late, m, now) && Pop(toks, h)[b'] == h[b]
  {
    hide Down, Swap, Pop, Above;
    var n := |h| - 1;
    FewerFit(late, h);
    var swapped := Swap(h, 0, n);
    PermutationKnown(toks, h, swapped);
    a', b' := DownKeepsAbove(toks, swapped, 0, n, a, b);
    AboveFirst(a', b');
    DownKeepsLate(toks, swapped, 0, n, m, now);
    PopCutsRoot(toks, h, Down(toks, swapped, 0, n));
    assert h[0] !in late;
    PopKeepsOthers(toks, h, late);
  }

  lemma MarkingKeepsTrap(toks: Sessions, marked: Sessions, h: seq<string>, a: nat, b: nat, late: seq<string>,
                         m: nat, now: Instant)
    requires Known(toks, h) && Trapped(toks, h, a, b, late, m, now)
    requires forall id :: id in toks ==> id in marked && marked[id].expiresAt == toks[id].expiresAt
    ensures Known(marked, h) && Trapped(marked, h, a, b, late, m, now)
  {
  }

  /** One round leaves the trap closed, and the session of the trapped entry as it was. */
  lemma RoundKeepsTrap(s: State, now: Instant, a: nat, b: nat, late: seq<string>, m: nat) returns (a': nat, b': nat)
    requires Consistent(s) && Trapped(s.toks, s.heap, a, b, late, m, now) && !Inspect(s, now).Done?
    ensures b < |s.heap| && b' < |PopTop(s, now).heap| && |PopTop(s, now).heap| < |s.heap|
    ensures var next := PopTop(s, now); var x := s.heap[b];
            && Consistent(next) && Trapped(next.toks, next.heap, a', b', late, m, now)
            && next.heap[b'] == x && x in s.toks && x in next.toks && next.toks[x] == s.toks[x]
  {
    hide Pop, PopTop;
    RoundEffect(s, now);
    PopTopShrinks(s, now);
    NotTheRoot(s, b);
    var next := PopTop(s, now);
    a', b' := PopKeepsTrap(s.toks, s.heap, a, b, late, m, now);
    MarkingKeepsTrap(s.toks, next.toks, next.heap, a', b', late, m, now);
  }

  /** No sweep at `now` gets at a trapped entry. */
  lemma {:induction false} SweepStaysTrapped(s: State, now: Instant, a: nat, b: nat, late: seq<string>, m: nat)
    requires Consistent(s) && Trapped(s.toks, s.heap, a, b, late, m, now)
    ensures var r := RevokeExpired(s, now).state; var x := s.heap[b];
            x in r.heap && x in r.toks && r.toks[x] == s.toks[x]
    decreases |s.heap|
  {
    if !Inspect(s, now).Done? {
      hide PopTop, Trapped;
      var a', b' := RoundKeepsTrap(s, now, a, b, late, m);
      SweepStaysTrapped(PopTop(s, now), now, a', b', late, m);
    }
  }

  lemma NotTheRoot(s: State, b: nat)
    requires Consistent(s) && 0 < b < |s.heap|
    ensures s.heap[0] != s.heap[b]
  {
    Extensions.NoRepeats(s.heap, 0, b);
  }

  // ---------- Further grants ----------

  /** Sessions granted one after the other. */
  function AddAll(s: State, ts: seq<Token>): (r: State)
    requires Indexed(s)
    ensures Indexed(r)
  {
    if ts == [] then s else Add(AddAll(s, ts[..|ts| - 1]), ts[|ts| - 1])
  }

  /** New live sessions with ids of their own. */
  ghost predicate Grantable(toks: Sessions, ts: seq<Token>) {
    && (forall i :: 0 <= i < |ts| ==> ts[i].id !in toks && !ts[i].revoked)
    && (forall i, j :: 0 <= i < j < |ts| ==> ts[i].id != ts[j].id)
  }

  function IdsOf(ts: seq<Token>): (ids: seq<string>)
    ensures |ids| == |ts| && forall i :: 0 <= i < |ts| ==> ids[i] == ts[i].id
  {
    seq(|ts|, i requires 0 <= i < |ts| => ts[i].id)
  }

  /** The sessions already there are untouched, and the granted ones have entered. */
  ghost predicate Joined(toks: Sessions, ts: seq<Token>, after: Sessions) {
    && (forall id :: id in toks ==> id in after && after[id] == toks[id])
    && (forall id :: id in after <==> id in toks || id in IdsOf(ts))
    && (forall i :: 0 <= i < |ts| ==> ts[i].id in after && after[ts[i].id] == Registered(ts[i]))
  }

  lemma OneMoreJoined(toks: Sessions, ts: seq<Token>, before: Sessions)
    requires ts != [] && Grantable(toks, ts) && Joined(toks, ts[..|ts| - 1], before)
    ensures var t := ts[|ts| - 1]; t.id !in before && Joined(toks, ts, before[t.id := Registered(t)])
  {
    var front, t := ts[..|ts| - 1], ts[|ts| - 1];
    assert IdsOf(ts) == IdsOf(front) + [t.id];
    assert forall i :: 0 <= i < |front| ==> front[i] == ts[i];
  }

  lemma {:induction false} GrantsAddUp(s: State, ts: seq<Token>)
    requires Consistent(s) && Grantable(s.toks, ts)
    ensures Consistent(AddAll(s, ts)) && Joined(s.toks, ts, AddAll(s, ts).toks)
  {
    if ts != [] {
      hide Push, Consistent, Joined, Registered;
      var front, t := ts[..|ts| - 1], ts[|ts| - 1];
      GrantsAddUp(s, front);
      OneMoreJoined(s.toks, ts, AddAll(s, front).toks);
      AddConsistent(AddAll(s, front), t);
    }
  }

  /** Grants leave an ordered heap ordered. */
  lemma {:induction false} GrantsKeepOrder(s: State, ts: seq<Token>)
    requires Consistent(s) && Ordered(s.toks, s.heap) && Grantable(s.toks, ts)
    ensures Ordered(AddAll(s, ts).toks, AddAll(s, ts).heap)
  {
    if ts != [] {
      hide Ordered, Joined, Add;
      var front := ts[..|ts| - 1];
      GrantsKeepOrder(s, front);
      GrantsAddUp(s, front);
      OneMoreJoined(s.toks, ts, AddAll(s, front).toks);
      AddKeepsOrder(AddAll(s, front), ts[|ts| - 1]);
    }
  }

  /** A session that expires no earlier than the others is pushed without a sift. */
  lemma LateStaysLast(s: State, t: Token)
    requires Indexed(s) && t.id !in s.toks
    requires forall id :: id in s.toks ==> s.toks[id].expiresAt <= t.expiresAt
    ensures Add(s, t).heap == s.heap + [t.id]
  {
    assert forall k :: 0 <= k < |s.heap| ==> s.heap[k] in s.toks;
  }

  /** An id longer than every id in use. */
  lemma {:induction false} LongerThanAll(ids: set<string>) returns (n: nat)
    ensures forall id :: id in ids ==> |id| < n
  {
    if ids == {} {
      n := 0;
    } else {
      var id :| id in ids;
      n := LongerThanAll(ids - {id});
      n := n + |id| + 1;
    }
  }

  /** Every id in use is shorter than `length`. */
  ghost predicate Shorter(toks: Sessions, length: nat) {
    forall id :: id in toks ==> |id| < length
  }

  /** A token of the given id length and life. */
  function Padding(length: nat, issued: Instant, expiry: Instant): (t: Token)
    ensures |t.id| == length && !t.revoked && t.issuedAt == issued && t.expiresAt == expiry
  {
    Token(seq(length, _ => 'x'), "", "", "", "", issued, expiry, 0, 0, false, false, "", "")
  }

  /** `n` tokens issued at `now` for the shortest life there is, with ids of growing length. */
  function Fillers(n: nat, length: nat, now: Instant): (ts: seq<Token>)
    ensures |ts| == n
    ensures forall i :: 0 <= i < n ==> ts[i] == Padding(length + i, now, now + 1)
  {
    if n == 0 then [] else Fillers(n - 1, length, now) + [Padding(length + n - 1, now, now + 1)]
  }

  lemma LengthsGrantable(toks: Sessions, ts: seq<Token>, length: nat)
    requires Shorter(toks, length)
    requires forall i :: 0 <= i < |ts| ==> |ts[i].id| == length + i && !ts[i].revoked
    ensures Grantable(toks, ts)
  {
    forall i, j | 0 <= i < j < |ts| ensures ts[i].id != ts[j].id {
      assert |ts[i].id| < |ts[j].id|;
    }
    forall i | 0 <= i < |ts| ensures ts[i].id !in toks {
      assert |ts[i].id| >= length;
    }
  }

  lemma {:induction false} AddAllSplits(s: State, ts: seq<Token>, us: seq<Token>)
    requires Indexed(s)
    ensures AddAll(s, ts + us) == AddAll(AddAll(s, ts), us)
    decreases |us|
  {
    hide Add;
    if us == [] {
      assert ts + us == ts;
    } else {
      var front := us[..|us| - 1];
      AddAllSplits(s, ts, front);
      assert (ts + us)[..|ts + us| - 1] == ts + front;
    }
  }

  // ---------- What a push moves ----------

  /** Sifting up an unexpired entry moves no expired one. */
  lemma {:induction false} UpMovesNoneExpired(toks: Sessions, h: seq<string>, j: nat, now: Instant)
    requires j < |h| && Known(toks, h) && !Expired(toks, h[j], now)
    ensures Known(toks, Up(toks, h, j))
    ensures forall i :: 0 <= i < |h| && Expired(toks, h[i], now) ==> Up(toks, h, j)[i] == h[i]
    ensures forall i :: 0 <= i < |h| && !Expired(toks, h[i], now) ==> !Expired(toks, Up(toks, h, j)[i], now)
    decreases j
  {
    PermutationKnown(toks, h, Up(toks, h, j));
    if j > 0 && Less(toks, h[j], h[Parent(j)]) {
      hide Swap;
      PermutationKnown(toks, h, Swap(h, Parent(j), j));
      UpMovesNoneExpired(toks, Swap(h, Parent(j), j), Parent(j), now);
    }
  }

  /** Sifting up an entry that expires no earlier than one above it leaves it under that one, and moves
      only what is under it too. */
  lemma {:induction false} UpStaysUnder(toks: Sessions, h: seq<string>, j: nat, k: nat) returns (b: nat)
    requires j < |h| && Known(toks, h) && Above(k, j) && k < |h| && !Less(toks, h[j], h[k])
    ensures b < |h| && Above(k, b) && Up(toks, h, j)[b] == h[j]
    ensures forall i :: 0 <= i < |h| && !Above(k, i) ==> Up(toks, h, j)[i] == h[i]
    decreases j
  {
    b := j;
    AboveFirst(k, j);
    if j > 0 && Less(toks, h[j], h[Parent(j)]) {
      hide Swap;
      var swapped := Swap(h, Parent(j), j);
      PermutationKnown(toks, h, swapped);
      AboveFirst(k, Parent(j));
      b := UpStaysUnder(toks, swapped, Parent(j), k);
    }
  }

  /** The heap has only grown by unexpired entries, and no expired one has moved. */
  ghost predicate Padded(toks: Sessions, h: seq<string>, r: seq<string>, now: Instant)
    requires Known(toks, h) && Known(toks, r)
  {
    && |h| <= |r|
    && (forall i :: 0 <= i < |h| && Expired(toks, h[i], now) ==> r[i] == h[i])
    && (forall i :: 0 <= i < |h| && !Expired(toks, h[i], now) ==> !Expired(toks, r[i], now))
    && (forall i :: |h| <= i < |r| ==> !Expired(toks, r[i], now))
  }

  lemma PushPads(toks: Sessions, h: seq<string>, id: string, now: Instant)
    requires Known(toks, h) && id in toks && !Expired(toks, id, now)
    ensures Padded(toks, h, Push(toks, h, id), now)
  {
    UpMovesNoneExpired(toks, h + [id], |h|, now);
  }

  lemma PaddedTwice(before: Sessions, toks: Sessions, h: seq<string>, r: seq<string>, q: seq<string>, now: Instant)
    requires forall id :: id in before ==> id in toks && toks[id].expiresAt == before[id].expiresAt
    requires Known(before, h) && Known(before, r) && Padded(before, h, r, now)
    requires Known(toks, q) && Known(toks, r) && Padded(toks, r, q, now)
    ensures Known(toks, h) && Padded(toks, h, q, now)
  {
  }

  /** What granting the fillers leaves: they are all in the heap, and no expired entry has moved. */
  ghost predicate Filled(s: State, ts: seq<Token>, r: State, length: nat, now: Instant) {
    && Consistent(r) && Joined(s.toks, ts, r.toks) && Shorter(r.toks, length)
    && Known(r.toks, s.heap) && Padded(r.toks, s.heap, r.heap, now)
    && |r.heap| == |s.heap| + |ts| && multiset(IdsOf(ts)) <= multiset(r.heap)
  }

  lemma {:induction false} FillersPad(s: State, n: nat, length: nat, now: Instant)
    requires Consistent(s) && Shorter(s.toks, length)
    ensures Filled(s, Fillers(n, length, now), AddAll(s, Fillers(n, length, now)), length + n, now)
  {
    hide AddAll, Fillers, Filled, Shorter;
    if n == 0 {
      NothingFilled(s, length, now);
    } else {
      FillersPad(s, n - 1, length, now);
      FillersGrow(s, n, length, now);
      LengthsGrantable(s.toks, Fillers(n, length, now), length);
      OneMoreFiller(s, Fillers(n, length, now), AddAll(s, Fillers(n - 1, length, now)), length + n - 1, now);
    }
  }

  lemma FillersGrow(s: State, n: nat, length: nat, now: Instant)
    requires Indexed(s) && n > 0
    ensures var ts := Fillers(n, length, now);
            && ts[..n - 1] == Fillers(n - 1, length, now) && ts[n - 1] == Padding(length + n - 1, now, now + 1)
            && AddAll(s, ts) == Add(AddAll(s, ts[..n - 1]), ts[n - 1])
  {
    hide Add;
    assert Fillers(n, length, now) == Fillers(n - 1, length, now) + [Padding(length + n - 1, now, now + 1)];
  }

  lemma NothingFilled(s: State, length: nat, now: Instant)
    requires Consistent(s) && Shorter(s.toks, length)
    ensures Filled(s, Fillers(0, length, now), AddAll(s, Fillers(0, length, now)), length, now)
  {
    assert Fillers(0, length, now) == [] && AddAll(s, []) == s && IdsOf([]) == [];
  }

  lemma OneMoreFiller(s: State, ts: seq<Token>, prior: State, length: nat, now: Instant)
    requires Consistent(s) && ts != [] && Grantable(s.toks, ts)
    requires ts[|ts| - 1] == Padding(length, now, now + 1)
    requires Filled(s, ts[..|ts| - 1], prior, length, now)
    ensures Filled(s, ts, Add(prior, ts[|ts| - 1]), length + 1, now)
  {
    hide Joined, Padded, Push, Add, IdsOf, Shorter, Ordered, Grantable;
    var t := ts[|ts| - 1];
    OneMoreJoined(s.toks, ts, prior.toks);
    AddKeepsConsistent(prior, t);
    var r := Add(prior, t);
    ShorterStill(prior.toks, t, length);
    PushPads(r.toks, prior.heap, t.id, now);
    PaddedTwice(prior.toks, r.toks, s.heap, prior.heap, r.heap, now);
    OneMoreIdIn(ts, prior.heap, r.heap);
  }

  lemma ShorterStill(toks: Sessions, t: Token, length: nat)
    requires Shorter(toks, length) && |t.id| == length
    ensures Shorter(toks[t.id := Registered(t)], length + 1)
  {
  }

  lemma OneMoreIdIn(ts: seq<Token>, h: seq<string>, r: seq<string>)
    requires ts != [] && multiset(IdsOf(ts[..|ts| - 1])) <= multiset(h)
    requires multiset(r) == multiset(h) + multiset{ts[|ts| - 1].id}
    ensures multiset(IdsOf(ts)) <= multiset(r)
  {
    assert IdsOf(ts) == IdsOf(ts[..|ts| - 1]) + [ts[|ts| - 1].id];
  }

  lemma AddKeepsConsistent(s: State, t: Token)
    requires Consistent(s) && t.id !in s.toks && !t.revoked
    ensures Consistent(Add(s, t)) && Known(Add(s, t).toks, s.heap) && Add(s, t).toks == s.toks[t.id := Registered(t)]
    ensures Add(s, t).heap == Push(Add(s, t).toks, s.heap, t.id)
  {
    AddConsistent(s, t);
  }

  // ---------- Order is what keeps time ----------

  /** After the given grants, a tick at `now` is complete and on time. */
  ghost predicate OnTimeAfter(s: State, ts: seq<Token>, now: Instant)
    requires Indexed(s)
  {
    Timely(AddAll(s, ts), now, RevokeExpired(AddAll(s, ts), now))
  }

  /** Every tick is complete whatever sessions are granted before it, of any life. */
  ghost predicate OnTimeWhateverComes(s: State)
    requires Indexed(s)
  {
    forall ts, now :: Grantable(s.toks, ts) ==> OnTimeAfter(s, ts, now)
  }

  /** Tokens issued by `now` for at most `ttl`. They are granted in any order, because a token is issued
      before the lock is taken to add it. */
  predicate IssuedBy(ts: seq<Token>, now: Instant, ttl: Duration) {
    forall i :: 0 <= i < |ts| ==> ts[i].issuedAt <= now && ts[i].issuedAt < ts[i].expiresAt <= ts[i].issuedAt + ttl
  }

  /** No tick leaves a live session past its expiry, whatever sessions of at most `ttl` are granted
      before it. */
  ghost predicate NothingLateWhateverComes(s: State, ttl: Duration)
    requires Indexed(s)
  {
    forall ts, now :: Grantable(s.toks, ts) && IssuedBy(ts, now, ttl) ==> NothingDueLeft(AddAll(s, ts), now)
  }

  /** A slot under `k`, at `n` or after. */
  lemma {:induction false} SlotUnder(k: nat, from: nat, n: nat) returns (j: nat)
    requires Above(k, from)
    ensures Above(k, j) && n <= j
    decreases n - from
  {
    if n <= from {
      j := from;
    } else {
      assert Parent(2 * from + 1) == from;
      j := SlotUnder(k, 2 * from + 1, n);
    }
  }

  /** The grants that set the trap: fillers up to a slot under `k`, then a session that expires at
      `now`, then fillers that close it. */
  function TrapTokens(before: nat, after: nat, length: nat, now: Instant): (ts: seq<Token>)
    ensures |ts| == before + 1 + after
    ensures forall i :: 0 <= i < |ts| ==> |ts[i].id| == length + i && !ts[i].revoked
    ensures IssuedBy(ts, now, 1)
  {
    Fillers(before, length, now) + [Padding(length + before, now - 1, now)]
    + Fillers(after, length + before + 1, now)
  }

  lemma TrapSteps(s: State, before: nat, after: nat, length: nat, now: Instant)
    requires Indexed(s)
    ensures AddAll(s, TrapTokens(before, after, length, now))
            == AddAll(Add(AddAll(s, Fillers(before, length, now)), Padding(length + before, now - 1, now)),
                      Fillers(after, length + before + 1, now))
  {
    var pre, y, post := Fillers(before, length, now), Padding(length + before, now - 1, now),
                        Fillers(after, length + before + 1, now);
    AddAllSplits(s, pre + [y], post);
    assert (pre + [y])[..|pre|] == pre;
  }

  /** The session that expires at `now` enters under slot `k`, and leaves the slots elsewhere alone. */
  lemma EntersUnder(s: State, t: Token, k: nat, now: Instant) returns (b: nat)
    requires Consistent(s) && t.id !in s.toks && !t.revoked && t.expiresAt == now
    requires Above(k, |s.heap|) && k < |s.heap| && Expired(s.toks, s.heap[k], now)
    ensures var r := Add(s, t);
            && Consistent(r) && |r.heap| == |s.heap| + 1 && b < |r.heap| && Above(k, b) && r.heap[b] == t.id
            && r.toks == s.toks[t.id := Registered(t)]
            && (forall i :: 0 <= i < |s.heap| && !Above(k, i) ==> r.heap[i] == s.heap[i])
  {
    AddKeepsConsistent(s, t);
    var toks, h := Add(s, t).toks, s.heap + [t.id];
    assert Known(toks, h);
    b := UpStaysUnder(toks, h, |s.heap|, k);
  }

  /** A consistent store, grown from `s0`, in which the entry at slot `k` and a live session `y` that
      has expired are trapped at `now`. */
  ghost predicate Caught(s0: State, r: State, k: nat, b: nat, late: seq<string>, m: nat, y: string, now: Instant) {
    && Consistent(r) && 0 < k < |s0.heap| && k < |r.heap| && b < |r.heap|
    && Trapped(r.toks, r.heap, Parent(k), k, late, m, now) && Trapped(r.toks, r.heap, Parent(k), b, late, m, now)
    && r.heap[k] == s0.heap[k] && r.heap[b] == y && Live(r, y) && Expired(r.toks, y, now)
    && (forall id :: id in s0.toks ==> id in r.toks && r.toks[id] == s0.toks[id])
  }

  lemma FillersUnexpired(toks: Sessions, ts: seq<Token>, after: Sessions, now: Instant)
    requires Joined(toks, ts, after) && forall i :: 0 <= i < |ts| ==> ts[i].expiresAt == now + 1
    ensures forall id :: id in IdsOf(ts) ==> id in after && !Expired(after, id, now)
  {
    forall id | id in IdsOf(ts) ensures id in after && !Expired(after, id, now) {
      var i :| 0 <= i < |ts| && IdsOf(ts)[i] == id;
      assert after[ts[i].id] == Registered(ts[i]);
    }
  }

  /** Enough fillers close the trap on an expired entry under an unexpired one. */
  lemma FillersCloseOn(s: State, ts: seq<Token>, r: State, a: nat, b: nat, length: nat, now: Instant)
    requires Indexed(s) && Filled(s, ts, r, length, now) && |ts| == |s.heap| + 1
    requires forall id :: id in IdsOf(ts) ==> id in r.toks && !Expired(r.toks, id, now)
    requires a < b < |s.heap| && Above(a, b) && !Expired(s.toks, s.heap[a], now) && Expired(s.toks, s.heap[b], now)
    ensures b < |r.heap| && r.heap[b] == s.heap[b]
    ensures Trapped(r.toks, r.heap, a, b, IdsOf(ts), |s.heap|, now)
  {
    hide Above, IdsOf, Consistent, Shorter;
  }

  /** On the way from `s0` the expired entry at slot `k` is still there, under an unexpired one. */
  ghost predicate Poised(s0: State, s: State, k: nat, length: nat, now: Instant) {
    && Consistent(s) && Shorter(s.toks, length)
    && 0 < k < |s0.heap| <= |s.heap| && s.heap[k] == s0.heap[k]
    && Expired(s.toks, s.heap[k], now) && !Expired(s.toks, s.heap[Parent(k)], now)
    && (forall id :: id in s0.toks ==> id in s.toks && s.toks[id] == s0.toks[id])
  }

  lemma FillersKeepPoised(s: State, k: nat, n: nat, length: nat, now: Instant)
    requires Poised(s, s, k, length, now)
    ensures var r := AddAll(s, Fillers(n, length, now));
            Poised(s, r, k, length + n, now) && |r.heap| == |s.heap| + n
  {
    hide Padded, AddAll, Fillers;
    FillersPad(s, n, length, now);
    var r := AddAll(s, Fillers(n, length, now));
    PaddedAt(r.toks, s.heap, r.heap, k, now);
  }

  lemma PaddedAt(toks: Sessions, h: seq<string>, r: seq<string>, k: nat, now: Instant)
    requires Known(toks, h) && Known(toks, r) && Padded(toks, h, r, now) && 0 < k < |h|
    requires Expired(toks, h[k], now) && !Expired(toks, h[Parent(k)], now)
    ensures k < |r| && r[k] == h[k] && !Expired(toks, r[Parent(k)], now)
  {
  }

  lemma StartPoised(s: State, k: nat, length: nat, now: Instant)
    requires Consistent(s) && 0 < k < |s.heap| && forall id :: id in s.toks.Keys ==> |id| < length
    requires Expired(s.toks, s.heap[k], now) && !Expired(s.toks, s.heap[Parent(k)], now)
    ensures Poised(s, s, k, length, now) && Shorter(s.toks, length)
  {
  }

  lemma FilledCatches(s0: State, s: State, k: nat, b: nat, ts: seq<Token>, r: State, length: nat, now: Instant)
    requires Poised(s0, s, k, length, now) && b < |s.heap| && Above(k, b)
    requires Live(s, s.heap[b]) && Expired(s.toks, s.heap[b], now)
    requires Filled(s, ts, r, length + |ts|, now) && |ts| == |s.heap| + 1
    requires forall i :: 0 <= i < |ts| ==> ts[i].expiresAt == now + 1
    ensures Caught(s0, r, k, b, IdsOf(ts), |s.heap|, s.heap[b], now)
  {
    hide Trapped, Above, IdsOf, Padded, Joined;
    FillersUnexpired(s.toks, ts, r.toks, now);
    AboveParent(k, b);
    AboveFirst(k, b);
    UnderParent(k);
    FillersCloseOn(s, ts, r, Parent(k), k, length + |ts|, now);
    FillersCloseOn(s, ts, r, Parent(k), b, length + |ts|, now);
    SameFields(s0, s, ts, r, s.heap[b], now);
  }

  lemma FillersCloseOnPoised(s0: State, s: State, k: nat, b: nat, length: nat, now: Instant)
    requires Poised(s0, s, k, length, now) && b < |s.heap| && Above(k, b)
    requires Live(s, s.heap[b]) && Expired(s.toks, s.heap[b], now)
    ensures var m := |s.heap|; var ts := Fillers(m + 1, length, now);
            Caught(s0, AddAll(s, ts), k, b, IdsOf(ts), m, s.heap[b], now)
  {
    hide AddAll, Fillers, Above, IdsOf, Filled, Caught;
    var m := |s.heap|;
    var ts := Fillers(m + 1, length, now);
    FillersPad(s, m + 1, length, now);
    FilledCatches(s0, s, k, b, ts, AddAll(s, ts), length, now);
  }

  lemma SameFields(s0: State, s: State, ts: seq<Token>, r: State, y: string, now: Instant)
    requires Joined(s.toks, ts, r.toks) && Live(s, y) && Expired(s.toks, y, now)
    requires forall id :: id in s0.toks ==> id in s.toks && s.toks[id] == s0.toks[id]
    ensures Live(r, y) && Expired(r.toks, y, now)
    ensures forall id :: id in s0.toks ==> id in r.toks && r.toks[id] == s0.toks[id]
  {
  }

  lemma UnderParent(k: nat)
    requires k > 0
    ensures Above(Parent(k), k) && Parent(k) < k
  {
  }

  lemma EntryKeepsPoised(s0: State, s: State, k: nat, length: nat, now: Instant) returns (b: nat)
    requires Poised(s0, s, k, length, now) && Above(k, |s.heap|)
    ensures var t := Padding(length, now - 1, now); var r := Add(s, t);
            && Poised(s0, r, k, length + 1, now) && |r.heap| == |s.heap| + 1
            && b < |r.heap| && Above(k, b) && r.heap[b] == t.id && Live(r, t.id) && Expired(r.toks, t.id, now)
  {
    b := EntersUnder(s, Padding(length, now - 1, now), k, now);
    NotAboveItself(k);
  }

  /** Grants that trap an entry that expires before its parent, and under it a live session that expires
      at the same instant. */
  lemma GrantsTrap(s: State, k: nat, now: Instant)
    returns (ts: seq<Token>, late: seq<string>, b: nat, m: nat, y: string)
    requires Consistent(s) && 0 < k < |s.heap|
    requires Expired(s.toks, s.heap[k], now) && !Expired(s.toks, s.heap[Parent(k)], now)
    ensures Grantable(s.toks, ts) && IssuedBy(ts, now, 1)
    ensures Caught(s, AddAll(s, ts), k, b, late, m, y, now)
  {
    hide Poised, Caught, AddAll, Fillers, Add, Above, TrapTokens, IdsOf, Ordered;
    var length := LongerThanAll(s.toks.Keys);
    StartPoised(s, k, length, now);
    var j := FirstUnder(k, |s.heap|);
    var before := j - |s.heap|;
    m := j + 1;
    ts := TrapTokens(before, m + 1, length, now);
    LengthsGrantable(s.toks, ts, length);
    TrapSteps(s, before, m + 1, length, now);
    FillersKeepPoised(s, k, before, length, now);
    var s1, t := AddAll(s, Fillers(before, length, now)), Padding(length + before, now - 1, now);
    b := EntryKeepsPoised(s, s1, k, length + before, now);
    y := t.id;
    FillersCloseOnPoised(s, Add(s1, t), k, b, length + before + 1, now);
    late := IdsOf(Fillers(m + 1, length + before + 1, now));
  }

  lemma FirstUnder(k: nat, n: nat) returns (j: nat)
    ensures Above(k, j) && n <= j
  {
    assert Parent(2 * k + 1) == k;
    j := SlotUnder(k, 2 * k + 1, n);
  }

  lemma NotAboveItself(k: nat)
    requires k > 0
    ensures !Above(k, k) && !Above(k, Parent(k))
  {
    if Above(k, k) {
      AboveFirst(k, k);
    }
    if Above(k, Parent(k)) {
      AboveFirst(k, Parent(k));
    }
  }

  /**
   An entry that expires before its parent in the heap can be left behind: there are grants, all for
   the shortest life there is, after which a tick at its expiry leaves a live session due, leaves the
   entry in the heap, and leaves its own session due too if that is live.
   */
  lemma DisorderCanTrap(s: State, k: nat) returns (ts: seq<Token>, y: string)
    requires Consistent(s) && 0 < k < |s.heap| && Less(s.toks, s.heap[k], s.heap[Parent(k)])
    ensures Grantable(s.toks, ts) && IssuedBy(ts, s.toks[s.heap[k]].expiresAt, 1)
    ensures var x := s.heap[k]; var now := s.toks[x].expiresAt;
            var swept := RevokeExpired(AddAll(s, ts), now);
            && Due(swept.state, y, now)
            && x in swept.state.heap
            && (Live(s, x) ==> Due(swept.state, x, now))
  {
    hide Trapped, RevokeExpired, AddAll;
    var x := s.heap[k];
    var now := s.toks[x].expiresAt;
    var late, b, m;
    ts, late, b, m, y := GrantsTrap(s, k, now);
    var r := AddAll(s, ts);
    SweepStaysTrapped(r, now, Parent(k), k, late, m);
    SweepStaysTrapped(r, now, Parent(k), b, late, m);
  }

  /**
   Heap order is exactly what keeps time. A consistent store has its heap in order exactly when no tick
   leaves a live session past its expiry, whatever sessions of at most `ttl` are granted before it; and
   then every tick is complete and on time, whatever sessions of any life are.
   */
  lemma OrderedIffNothingLateWhateverComes(s: State, ttl: Duration)
    requires Consistent(s) && ttl > 0
    ensures Ordered(s.toks, s.heap) <==> NothingLateWhateverComes(s, ttl)
    ensures Ordered(s.toks, s.heap) <==> OnTimeWhateverComes(s)
  {
    hide Grantable, NothingDueLeft;
    if Ordered(s.toks, s.heap) {
      forall ts, now | Grantable(s.toks, ts) ensures OnTimeAfter(s, ts, now) && NothingDueLeft(AddAll(s, ts), now) {
        OrderedIsOnTimeAfter(s, ts, now);
        TimelyLeavesNothing(AddAll(s, ts), now);
      }
    } else {
      var k :| 0 < k < |s.heap| && Less(s.toks, s.heap[k], s.heap[Parent(k)]);
      var ts, y := DisorderCanTrap(s, k);
      var now := s.toks[s.heap[k]].expiresAt;
      DueIsLeft(AddAll(s, ts), now, y);
      assert IssuedBy(ts, now, ttl);
      assert !OnTimeAfter(s, ts, now);
    }
  }

  lemma DueIsLeft(s: State, now: Instant, y: string)
    requires Indexed(s) && Due(RevokeExpired(s, now).state, y, now)
    ensures !NothingDueLeft(s, now) && !Timely(s, now, RevokeExpired(s, now))
  {
    if Timely(s, now, RevokeExpired(s, now)) {
      TimelyLeavesNothing(s, now);
    }
  }

  lemma OrderedIsOnTimeAfter(s: State, ts: seq<Token>, now: Instant)
    requires Consistent(s) && Ordered(s.toks, s.heap) && Grantable(s.toks, ts)
    ensures OnTimeAfter(s, ts, now)
  {
    GrantsAddUp(s, ts);
    GrantsKeepOrder(s, ts);
    OrderedTickIsTimely(AddAll(s, ts), now);
  }

  // ---------- Out of order and on time nevertheless ----------

  /** A sweep is complete if one round puts every expired entry on top. */
  lemma OneRoundToOrder(s: State, now: Instant)
    requires Consistent(s) && !Inspect(s, now).Done?
    requires ExpiredOnTop(PopTop(s, now).toks, PopTop(s, now).heap, now)
    ensures Timely(s, now, RevokeExpired(s, now))
  {
    TickIsSound(s, now);
    RoundEffect(s, now);
    SweepKeepsCut(PopTop(s, now), now, now);
    SoundAndEmptiedIsTimely(s, now, RevokeExpired(s, now));
  }

  /** A tick that stops at once leaves nothing due exactly when no live session has expired. */
  lemma StopsAtOnce(s: State, now: Instant)
    requires Indexed(s) && Inspect(s, now).Done?
    ensures NothingDueLeft(s, now) <==> forall id :: Live(s, id) ==> now < s.toks[id].expiresAt
  {
    assert RevokeExpired(s, now).state == s;
    if forall id :: Live(s, id) ==> now < s.toks[id].expiresAt {
      assert NothingDueLeft(s, now);
    } else {
      var id :| Live(s, id) && s.toks[id].expiresAt <= now;
      assert Due(RevokeExpired(s, now).state, id, now);
    }
  }

  /** Once the extended root is popped the heap is in order again. */
  lemma RootGoneIsOrdered(s: State, t: Token, now: Instant)
    requires Consistent(s) && Ordered(s.toks, s.heap) && |s.heap| > 0
    requires t.id == s.heap[0] && Registered(t) == t && t.revoked == s.toks[t.id].revoked && t.expiresAt <= now
    ensures var r := s.(toks := s.toks[t.id := t]); Consistent(r) && Timely(r, now, RevokeExpired(r, now))
  {
    hide Pop, RevokeExpired, Timely;
    var r := s.(toks := s.toks[t.id := t]);
    RewriteConsistent(s, t.id, t);
    forall k | 0 < k < |s.heap| ensures s.heap[k] != s.heap[0] {
      Extensions.NoRepeats(s.heap, 0, k);
    }
    OrderedIsEveryCut(s.toks, s.heap);
    assert CutBelow(r.toks, r.heap, 0, |r.heap|, now);
    PopRepairsRoot(r.toks, r.heap, now);
    RoundEffect(r, now);
    OneRoundToOrder(r, now);
  }

  /**
   Extending the session at the root of an ordered heap never makes a tick, at any instant, leave a
   due session behind exactly when every other live session expires no earlier than the new expiry.
   */
  lemma RootExtensionOnTimeIff(s: State, id: string, limits: Limits, now: Instant)
    requires Consistent(s) && Ordered(s.toks, s.heap) && |s.heap| > 0 && s.heap[0] == id && Live(s, id)
    requires !Decide(s, id, limits, now).Forced?
    ensures Indexed(Extend(s, id, limits, now))
    ensures var r := Extend(s, id, limits, now);
            (forall at :: NothingDueLeft(r, at))
            <==> forall x :: Live(s, x) && x != id ==> r.toks[id].expiresAt <= s.toks[x].expiresAt
  {
    hide Extend, Prolong, Ordered, NothingDueLeft;
    RootRewritten(s, id, limits, now);
    var r := Extend(s, id, limits, now);
    var t := r.toks[id];
    if forall x :: Live(s, x) && x != id ==> t.expiresAt <= s.toks[x].expiresAt {
      forall at ensures NothingDueLeft(r, at) {
        if t.expiresAt <= at {
          RootGoneIsOrdered(s, t, at);
          TimelyLeavesNothing(r, at);
        } else {
          assert forall x :: Live(r, x) ==> at < r.toks[x].expiresAt;
          StopsAtOnce(r, at);
        }
      }
    } else {
      var x :| Live(s, x) && x != id && s.toks[x].expiresAt < t.expiresAt;
      assert Live(r, x) && r.toks[x] == s.toks[x];
      StopsAtOnce(r, s.toks[x].expiresAt);
      assert !NothingDueLeft(r, s.toks[x].expiresAt);
    }
  }

  lemma RootRewritten(s: State, id: string, limits: Limits, now: Instant)
    requires Live(s, id) && Consistent(s) && !Decide(s, id, limits, now).Forced?
    ensures var r := Extend(s, id, limits, now);
            && id in r.toks && r == s.(toks := s.toks[id := r.toks[id]])
            && r.toks[id].id == id && !r.toks[id].revoked && Registered(r.toks[id]) == r.toks[id]
  {
  }
}
