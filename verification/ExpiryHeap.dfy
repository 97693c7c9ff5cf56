/**
 The binary heap of session ids that container/heap maintains through the store's
 Less, Swap, Push and Pop. Keys are the tokens' current expiries, looked up in the session map,
 because the heap holds references and a token's expiry can change under it.
 */
module ExpiryHeap {
  import opened Clock
  import opened Tokens

  type Sessions = map<string, Token>

  ghost predicate Known(toks: Sessions, h: seq<string>) {
    forall i :: 0 <= i < |h| ==> h[i] in toks
  }

  function Parent(k: int): int
    requires 0 < k
  {
    (k - 1) / 2
  }

  predicate Less(toks: Sessions, a: string, b: string)
    requires a in toks && b in toks
  {
    toks[a].expiresAt < toks[b].expiresAt
  }

  function Swap(h: seq<string>, i: nat, j: nat): (r: seq<string>)
    requires i < |h| && j < |h|
    ensures |r| == |h| && multiset(r) == multiset(h)
    ensures r[i] == h[j] && r[j] == h[i]
    ensures forall k :: 0 <= k < |h| && k != i && k != j ==> r[k] == h[k]
  {
    h[i := h[j]][j := h[i]]
  }

  lemma PermutationKnown(toks: Sessions, h: seq<string>, r: seq<string>)
    requires Known(toks, h) && multiset(r) == multiset(h)
    ensures Known(toks, r)
  {
    forall i | 0 <= i < |r| ensures r[i] in toks {
      assert r[i] in multiset(r);
      assert r[i] in h;
    }
  }

  // ---------- The algorithms ----------

  /** Move slot `j` towards the root while it expires before its parent. */
  function Up(toks: Sessions, h: seq<string>, j: nat): (r: seq<string>)
    requires j < |h| && Known(toks, h)
    ensures |r| == |h| && multiset(r) == multiset(h)
    decreases j
  {
    if j == 0 || !Less(toks, h[j], h[Parent(j)]) then h
    else Up(toks, Swap(h, Parent(j), j), Parent(j))
  }

  /** The child of `i` among the first `n` slots that expires first; the left one on a tie. */
  function Earlier(toks: Sessions, h: seq<string>, i: nat, n: nat): (j: nat)
    requires 2 * i + 1 < n <= |h| && Known(toks, h)
    ensures i < j < n && Parent(j) == i
    ensures j == 2 * i + 1 || toks[h[2 * i + 2]].expiresAt < toks[h[2 * i + 1]].expiresAt
    ensures forall k :: 0 < k < n && Parent(k) == i ==> !Less(toks, h[k], h[j])
  {
    var left := 2 * i + 1;
    if left + 1 < n && Less(toks, h[left + 1], h[left]) then left + 1 else left
  }

  /** Move slot `i` away from the root, within the first `n` slots. */
  function Down(toks: Sessions, h: seq<string>, i: nat, n: nat): (r: seq<string>)
    requires n <= |h| && Known(toks, h)
    ensures |r| == |h| && multiset(r) == multiset(h)
    decreases n - i
  {
    if 2 * i + 1 >= n then h
    else
      var j := Earlier(toks, h, i, n);
      if !Less(toks, h[j], h[i]) then h
      else Down(toks, Swap(h, i, j), j, n)
  }

  lemma {:induction false} DownKeepsTail(toks: Sessions, h: seq<string>, i: nat, n: nat, k: nat)
    requires n <= k < |h| && Known(toks, h)
    ensures Down(toks, h, i, n)[k] == h[k]
    decreases n - i
  {
    if 2 * i + 1 < n {
      var j := Earlier(toks, h, i, n);
      if Less(toks, h[j], h[i]) {
        PermutationKnown(toks, h, Swap(h, i, j));
        DownKeepsTail(toks, Swap(h, i, j), j, n, k);
      }
    }
  }

  function Push(toks: Sessions, h: seq<string>, id: string): (r: seq<string>)
    requires Known(toks, h) && id in toks
    ensures |r| == |h| + 1 && multiset(r) == multiset(h) + multiset{id}
    ensures Known(toks, r)
  {
    var r := Up(toks, h + [id], |h|);
    PermutationKnown(toks, h + [id], r);
    r
  }

  function Pop(toks: Sessions, h: seq<string>): (r: seq<string>)
    requires Known(toks, h) && |h| > 0
    ensures |r| == |h| - 1
    ensures multiset(h) == multiset(r) + multiset{h[0]}
    ensures Known(toks, r)
  {
    var n := |h| - 1;
    var d := Down(toks, Swap(h, 0, n), 0, n);
    DownKeepsTail(toks, Swap(h, 0, n), 0, n, n);
    assert d == d[..n] + [h[0]];
    PermutationKnown(toks, h, d);
    d[..n]
  }

  lemma DownMoves(toks: Sessions, h: seq<string>, i: nat, n: nat, j: nat)
    requires 2 * i + 1 < n <= |h| && Known(toks, h) && j == Earlier(toks, h, i, n)
    requires Less(toks, h[j], h[i])
    ensures Known(toks, Swap(h, i, j))
    ensures Down(toks, h, i, n) == Down(toks, Swap(h, i, j), j, n)
  {
  }

  /** Where a sift up ends: on a tie too. */
  lemma UpStops(toks: Sessions, h: seq<string>, j: nat)
    requires j < |h| && Known(toks, h)
    requires j > 0 ==> toks[h[Parent(j)]].expiresAt <= toks[h[j]].expiresAt
    ensures Up(toks, h, j) == h
  {
  }

  /** Where a sift down ends. */
  lemma DownStops(toks: Sessions, h: seq<string>, i: nat, n: nat)
    requires n <= |h| && Known(toks, h)
    requires 2 * i + 1 < n ==> !Less(toks, h[Earlier(toks, h, i, n)], h[i])
    ensures Down(toks, h, i, n) == h
  {
  }

  /** The sift down of a pop ends with the old root in the last slot, where it is cut off. */
  lemma PopCutsRoot(toks: Sessions, h: seq<string>, d: seq<string>)
    requires Known(toks, h) && |h| > 0
    requires d == Down(toks, Swap(h, 0, |h| - 1), 0, |h| - 1)
    ensures |d| == |h| && d[|h| - 1] == h[0] && Pop(toks, h) == d[..|h| - 1]
  {
    var n := |h| - 1;
    PermutationKnown(toks, h, Swap(h, 0, n));
    DownKeepsTail(toks, Swap(h, 0, n), 0, n, n);
  }

  // ---------- Order ----------

  /** Every token expires no earlier than the one above it. */
  ghost predicate Ordered(toks: Sessions, h: seq<string>)
    requires Known(toks, h)
  {
    forall k :: 0 < k < |h| ==> !Less(toks, h[k], h[Parent(k)])
  }

  predicate Expired(toks: Sessions, id: string, now: Instant)
    requires id in toks
  {
    toks[id].expiresAt <= now
  }

  /** No token that has expired by `now` sits below one that has not. */
  ghost predicate ExpiredOnTop(toks: Sessions, h: seq<string>, now: Instant)
    requires Known(toks, h)
  {
    forall k :: 0 < k < |h| && Expired(toks, h[k], now) ==> Expired(toks, h[Parent(k)], now)
  }

  /** Heap order is exactly the cut property at every instant. */
  lemma OrderedIsEveryCut(toks: Sessions, h: seq<string>)
    requires Known(toks, h)
    ensures Ordered(toks, h) <==> forall now :: ExpiredOnTop(toks, h, now)
  {
    if forall now :: ExpiredOnTop(toks, h, now) {
      forall k | 0 < k < |h| ensures !Less(toks, h[k], h[Parent(k)]) {
        assert ExpiredOnTop(toks, h, toks[h[k]].expiresAt);
        assert Expired(toks, h[k], toks[h[k]].expiresAt);
      }
    }
  }

  /** The cut property among the first `n` slots, except between `hole` and its children,
      whose place is taken by the link from the parent of `hole` to those children. */
  ghost predicate CutBelow(toks: Sessions, h: seq<string>, hole: nat, n: nat, now: Instant)
    requires Known(toks, h) && n <= |h|
  {
    && (forall k :: 0 < k < n && Parent(k) != hole && Expired(toks, h[k], now)
          ==> Expired(toks, h[Parent(k)], now))
    && (forall k :: 0 < k < n && hole > 0 && Parent(k) == hole && Expired(toks, h[k], now)
          ==> Expired(toks, h[Parent(hole)], now))
  }

  /** Swapping the hole with its earlier child moves the hole there. */
  lemma SwapMovesHole(toks: Sessions, h: seq<string>, i: nat, j: nat, n: nat, now: Instant)
    requires n <= |h| && Known(toks, h) && CutBelow(toks, h, i, n, now)
    requires 2 * i + 1 < n && j == Earlier(toks, h, i, n) && Less(toks, h[j], h[i])
    ensures Known(toks, Swap(h, i, j)) && CutBelow(toks, Swap(h, i, j), j, n, now)
  {
  }

  lemma {:induction false} DownRepairs(toks: Sessions, h: seq<string>, i: nat, n: nat, now: Instant)
    requires n <= |h| && Known(toks, h) && CutBelow(toks, h, i, n, now)
    ensures Known(toks, Down(toks, h, i, n)[..n])
    ensures ExpiredOnTop(toks, Down(toks, h, i, n)[..n], now)
    decreases n - i
  {
    PermutationKnown(toks, h, Down(toks, h, i, n));
    if 2 * i + 1 < n {
      var j := Earlier(toks, h, i, n);
      if Less(toks, h[j], h[i]) {
        SwapMovesHole(toks, h, i, j, n, now);
        DownRepairs(toks, Swap(h, i, j), j, n, now);
      }
    }
  }

  /** The cut property everywhere except between `hole` and its parent, with the link from that
      parent to the children of `hole`. */
  ghost predicate CutAbove(toks: Sessions, h: seq<string>, hole: nat, now: Instant)
    requires Known(toks, h)
  {
    && (forall k :: 0 < k < |h| && k != hole && Expired(toks, h[k], now)
          ==> Expired(toks, h[Parent(k)], now))
    && (forall k :: 0 < k < |h| && hole > 0 && Parent(k) == hole && Expired(toks, h[k], now)
          ==> Expired(toks, h[Parent(hole)], now))
  }

  /** A swap with the parent moves the hole there. */
  lemma SwapLiftsHole(toks: Sessions, h: seq<string>, j: nat, now: Instant)
    requires 0 < j < |h| && Known(toks, h) && CutAbove(toks, h, j, now) && Less(toks, h[j], h[Parent(j)])
    ensures Known(toks, Swap(h, Parent(j), j)) && CutAbove(toks, Swap(h, Parent(j), j), Parent(j), now)
  {
  }

  lemma {:induction false} UpRepairs(toks: Sessions, h: seq<string>, j: nat, now: Instant)
    requires j < |h| && Known(toks, h) && CutAbove(toks, h, j, now)
    ensures Known(toks, Up(toks, h, j))
    ensures ExpiredOnTop(toks, Up(toks, h, j), now)
    decreases j
  {
    hide Swap;
    PermutationKnown(toks, h, Up(toks, h, j));
    if j > 0 && Less(toks, h[j], h[Parent(j)]) {
      SwapLiftsHole(toks, h, j, now);
      UpRepairs(toks, Swap(h, Parent(j), j), Parent(j), now);
    }
  }

  lemma PushKeepsCut(toks: Sessions, h: seq<string>, id: string, now: Instant)
    requires Known(toks, h) && id in toks && ExpiredOnTop(toks, h, now)
    ensures ExpiredOnTop(toks, Push(toks, h, id), now)
  {
    UpRepairs(toks, h + [id], |h|, now);
  }

  /** Taking the last slot to the root leaves the root as the only hole; the old root's own key plays
      no part. */
  lemma LastToRoot(toks: Sessions, h: seq<string>, now: Instant)
    requires Known(toks, h) && |h| > 0 && CutBelow(toks, h, 0, |h|, now)
    ensures Known(toks, Swap(h, 0, |h| - 1))
    ensures CutBelow(toks, Swap(h, 0, |h| - 1), 0, |h| - 1, now)
  {
  }

  /** A pop restores the cut property when only the root was out of place. */
  lemma PopRepairsRoot(toks: Sessions, h: seq<string>, now: Instant)
    requires Known(toks, h) && |h| > 0 && CutBelow(toks, h, 0, |h|, now)
    ensures ExpiredOnTop(toks, Pop(toks, h), now)
  {
    hide ExpiredOnTop, CutBelow;
    LastToRoot(toks, h, now);
    DownRepairs(toks, Swap(h, 0, |h| - 1), 0, |h| - 1, now);
  }

  lemma PopKeepsCut(toks: Sessions, h: seq<string>, now: Instant)
    requires Known(toks, h) && |h| > 0 && ExpiredOnTop(toks, h, now)
    ensures ExpiredOnTop(toks, Pop(toks, h), now)
  {
    PopRepairsRoot(toks, h, now);
  }

  /** container/heap keeps the order it relies on. */
  lemma PushKeepsOrder(toks: Sessions, h: seq<string>, id: string)
    requires Known(toks, h) && id in toks && Ordered(toks, h)
    ensures Ordered(toks, Push(toks, h, id))
  {
    OrderedIsEveryCut(toks, h);
    forall now ensures ExpiredOnTop(toks, Push(toks, h, id), now) {
      PushKeepsCut(toks, h, id, now);
    }
    OrderedIsEveryCut(toks, Push(toks, h, id));
  }

  lemma PopKeepsOrder(toks: Sessions, h: seq<string>)
    requires Known(toks, h) && |h| > 0 && Ordered(toks, h)
    ensures Ordered(toks, Pop(toks, h))
  {
    OrderedIsEveryCut(toks, h);
    forall now ensures ExpiredOnTop(toks, Pop(toks, h), now) {
      PopKeepsCut(toks, h, now);
    }
    OrderedIsEveryCut(toks, Pop(toks, h));
  }

  /** If anything in the heap has expired, the root has. */
  lemma {:induction false} RootExpiresFirst(toks: Sessions, h: seq<string>, k: nat, now: Instant)
    requires Known(toks, h) && ExpiredOnTop(toks, h, now)
    requires k < |h| && Expired(toks, h[k], now)
    ensures Expired(toks, h[0], now)
    decreases k
  {
    if k > 0 {
      RootExpiresFirst(toks, h, Parent(k), now);
    }
  }

  /**
   Extending a token rewrites its key in place, with no sift. Writing a new expiry at slot `s` of
   an ordered heap keeps it ordered exactly when the new expiry still lies between that of the
   parent and that of each child.
   */
  lemma InPlaceChangeKeepsOrder(toks: Sessions, h: seq<string>, s: nat, t: Token)
    requires Known(toks, h) && Ordered(toks, h) && s < |h|
    requires forall k :: 0 <= k < |h| && k != s ==> h[k] != h[s]
    ensures Known(toks[h[s] := t], h)
    ensures Ordered(toks[h[s] := t], h) <==>
            && (s > 0 ==> toks[h[Parent(s)]].expiresAt <= t.expiresAt)
            && (forall k :: 0 < k < |h| && Parent(k) == s ==> t.expiresAt <= toks[h[k]].expiresAt)
  {
  }
}
