/** What repeated extension does to one session, and to the order of the heap. */
module Extensions {
  import opened Arithmetic
  import opened Clock
  import opened Tokens
  import opened ExpiryHeap
  import opened Sections

  function Min(a: int, b: int): int { if a <= b then a else b }

  function Max(a: int, b: int): int { if a <= b then b else a }

  /** Extension requests for one session, served at the given instants. */
  function ExtendMany(s: State, id: string, limits: Limits, nows: seq<Instant>): State
    decreases |nows|
  {
    if nows == [] then s
    else ExtendMany(Extend(s, id, limits, nows[0]), id, limits, nows[1..])
  }

  /** How many of those requests are granted a full ttl. */
  function Renewals(s: State, id: string, limits: Limits, nows: seq<Instant>): nat
    decreases |nows|
  {
    if nows == [] then 0
    else
      (if Decide(s, id, limits, nows[0]).Renewed? then 1 else 0)
      + Renewals(Extend(s, id, limits, nows[0]), id, limits, nows[1..])
  }

  /** How many full renewals fit strictly below a ceiling `room` away: ceil(room / ttl) - 1. */
  function RenewalsThatFit(room: int, ttl: Duration): nat
    requires ttl > 0
  {
    Max(0, (room + ttl - 1) / ttl - 1)
  }

  lemma OneFewerFits(room: int, ttl: Duration)
    requires ttl > 0
    ensures ttl < room ==> RenewalsThatFit(room, ttl) == RenewalsThatFit(room - ttl, ttl) + 1
    ensures 0 <= room <= ttl ==> RenewalsThatFit(room, ttl) == 0
  {
    var x := room + ttl - 1;
    assert (x - ttl) / ttl == x / ttl - 1 by {
      assert x == ttl * (x / ttl) + x % ttl;
      assert x - ttl == ttl * (x / ttl - 1) + x % ttl;
      QuotientIs(x - ttl, ttl, x / ttl - 1, x % ttl);
    }
    if ttl < room {
      QuotientAtLeast(room - 1, ttl, 1);
    } else if 0 < room {
      QuotientIs(x, ttl, 1, room - 1);
    } else if room == 0 {
      QuotientIs(x, ttl, 0, ttl - 1);
    }
  }

  /** One request before the ceiling. */
  lemma OneExtension(s: State, id: string, limits: Limits, now: Instant)
    requires Live(s, id) && limits.ttl > 0
    requires s.toks[id].expiresAt <= Ceiling(s.toks[id], limits) && now < Ceiling(s.toks[id], limits)
    ensures var t := s.toks[id]; var r := Extend(s, id, limits, now);
            && Live(r, id)
            && r.toks[id].expiresAt == Min(t.expiresAt + limits.ttl, Ceiling(t, limits))
            && r.toks[id].extensionCount == t.extensionCount + 1
            && r.toks[id].originalIssuedAt == t.originalIssuedAt
            && Decide(s, id, limits, now).Renewed? == (t.expiresAt + limits.ttl < Ceiling(t, limits))
  {
  }

  /** Adding `ttl` once and then `k` times, never past `c`, is adding it `k + 1` times. */
  lemma CappedSteps(e: int, ttl: int, c: int, k: nat)
    requires ttl > 0 && e <= c
    ensures Min(Min(e + ttl, c) + k * ttl, c) == Min(e + (k + 1) * ttl, c)
    ensures (if e + ttl < c then 1 else 0) + Min(k, RenewalsThatFit(c - Min(e + ttl, c), ttl))
            == Min(k + 1, RenewalsThatFit(c - e, ttl))
  {
    MulOrder(ttl, 0, k);
    assert (k + 1) * ttl == ttl + k * ttl;
    OneFewerFits(c - e, ttl);
    OneFewerFits(0, ttl);
  }

  /**
   Closed form. Any run of extension requests served before the ceiling C of a live session whose
   expiry E does not exceed C leaves it live, with expiry min(E + k * ttl, C) after k requests,
   whatever the instants; each request counts as an extension even when it gains nothing, and
   exactly the requests that fit strictly below C are granted a full ttl.
   */
  lemma {:induction false} RepeatedExtension(s: State, id: string, limits: Limits, nows: seq<Instant>)
    requires Live(s, id) && limits.ttl > 0
    requires var c := Ceiling(s.toks[id], limits);
             s.toks[id].expiresAt <= c && forall i :: 0 <= i < |nows| ==> nows[i] < c
    ensures var c, e := Ceiling(s.toks[id], limits), s.toks[id].expiresAt;
            var r := ExtendMany(s, id, limits, nows);
            && Live(r, id)
            && r.toks[id].expiresAt == Min(e + |nows| * limits.ttl, c)
            && r.toks[id].extensionCount == s.toks[id].extensionCount + |nows|
            && r.toks[id].originalIssuedAt == s.toks[id].originalIssuedAt
            && Renewals(s, id, limits, nows) == Min(|nows|, RenewalsThatFit(c - e, limits.ttl))
    decreases |nows|
  {
    if nows != [] {
      var t, next := s.toks[id], Extend(s, id, limits, nows[0]);
      OneExtension(s, id, limits, nows[0]);
      RepeatedExtension(next, id, limits, nows[1..]);
      CappedSteps(t.expiresAt, limits.ttl, Ceiling(t, limits), |nows| - 1);
    }
  }

  /**
   Extension never shortens a session exactly when the session still expires by its ceiling. A
   `token_ttl` above `max_session_duration` starts sessions beyond it, and their first extension
   pulls the expiry back.
   */
  lemma ExtensionNeverShortensIff(s: State, id: string, limits: Limits, now: Instant)
    requires Live(s, id) && limits.ttl > 0 && now < Ceiling(s.toks[id], limits)
    ensures Live(Extend(s, id, limits, now), id)
    ensures s.toks[id].expiresAt <= Extend(s, id, limits, now).toks[id].expiresAt
            <==> s.toks[id].expiresAt <= Ceiling(s.toks[id], limits)
  {
  }

  /**
   A session past its ceiling is promised to be revoked and not extended further. A request at or
   past the ceiling revokes exactly when the lengthened expiry would reach the ceiling; otherwise
   the overdue session is granted one more full ttl.
   */
  lemma PastCeilingRevokedIff(s: State, id: string, limits: Limits, now: Instant)
    requires Live(s, id) && Ceiling(s.toks[id], limits) <= now
    ensures !Live(Extend(s, id, limits, now), id)
            <==> Ceiling(s.toks[id], limits) <= s.toks[id].expiresAt + limits.ttl
    ensures Live(Extend(s, id, limits, now), id)
            ==> Extend(s, id, limits, now).toks[id].extensionCount == s.toks[id].extensionCount + 1
  {
  }

  // ---------- What an extension asks of the provider ----------

  /** The ttl an extension served at `now` asks the provider for, at that instant. */
  function Asked(s: State, id: string, limits: Limits, now: Instant): Option<Duration> {
    match Decide(s, id, limits, now)
    case Gone => None
    case Forced(_) => None
    case Clamped(ceiling) => Some(ReissueTtl(limits.ttl, ceiling, true, now))
    case Renewed(expiry, _) => Some(ReissueTtl(limits.ttl, expiry, false, now))
  }

  predicate AsksAboveLimit(s: State, id: string, limits: Limits, now: Instant) {
    Asked(s, id, limits, now).Some? && Asked(s, id, limits, now).value > MAX_TTL
  }

  /**
   The limit on a single grant does not bind a re-issue clamped to the ceiling. Before the request one
   can tell: with an accepted ttl, it asks for more than the limit exactly when the session is live,
   one more ttl reaches its ceiling, and the ceiling is further away than the limit. It never asks
   for more than is left of the session and one ttl.
   */
  lemma AsksAboveLimitIff(s: State, id: string, limits: Limits, now: Instant)
    requires 0 < limits.ttl <= MAX_TTL
    ensures AsksAboveLimit(s, id, limits, now) <==>
            && Live(s, id)
            && Ceiling(s.toks[id], limits) - limits.ttl <= s.toks[id].expiresAt
            && now + MAX_TTL < Ceiling(s.toks[id], limits)
    ensures AsksAboveLimit(s, id, limits, now) ==>
              Asked(s, id, limits, now).value <= s.toks[id].expiresAt - now + limits.ttl
  {
  }

  /** How far `k` renewals reach: the ceiling is reached by the next exactly when no more fit. */
  lemma NextReachesIff(room: int, ttl: Duration, k: nat)
    requires ttl > 0 && 0 <= room
    ensures room - ttl <= Min(k * ttl, room) <==> RenewalsThatFit(room, ttl) <= k
  {
    var q := (room + ttl - 1) / ttl;
    assert ttl * (k + 2) == k * ttl + ttl + ttl;
    MulOrder(ttl, k + 2, q);
    if k * ttl + ttl < room {
      QuotientAtLeast(room + ttl - 1, ttl, k + 2);
    }
  }

  /**
   Which of a sequence of requests does: over the closed form, request number `k` of a live session
   with expiry E and ceiling C asks for more than the limit exactly when no full renewal is left by
   then, that is from number ceil((C - E) / ttl) - 1 on, and it is served more than the limit before
   C. Of requests that are all served then, the first to do so has that number.
   */
  lemma RequestAsksAboveLimitIff(s: State, id: string, limits: Limits, nows: seq<Instant>, k: nat)
    requires Live(s, id) && 0 < limits.ttl <= MAX_TTL && k < |nows|
    requires var c := Ceiling(s.toks[id], limits);
             s.toks[id].expiresAt <= c && forall i :: 0 <= i < |nows| ==> nows[i] < c
    ensures var c, e := Ceiling(s.toks[id], limits), s.toks[id].expiresAt;
            AsksAboveLimit(ExtendMany(s, id, limits, nows[..k]), id, limits, nows[k])
            <==> RenewalsThatFit(c - e, limits.ttl) <= k && nows[k] + MAX_TTL < c
  {
    hide Asked, ExtendMany, Renewals, RenewalsThatFit;
    var c, e := Ceiling(s.toks[id], limits), s.toks[id].expiresAt;
    RepeatedExtension(s, id, limits, nows[..k]);
    AsksAboveLimitIff(ExtendMany(s, id, limits, nows[..k]), id, limits, nows[k]);
    NextReachesIff(c - e, limits.ttl, k);
  }

  // ---------- The reported headroom ----------

  /** The report after a request covers the further full renewals of any later requests. */
  ghost predicate HeadroomCovers(s: State, id: string, limits: Limits, now: Instant)
    requires Live(s, id) && limits.ttl != 0
  {
    forall later ::
      (forall i :: 0 <= i < |later| ==> later[i] < Ceiling(s.toks[id], limits))
      ==> Renewals(s, id, limits, later) <= ExtensionsLeft(s.toks[id], limits, now)
  }

  /**
   The headroom reported after a full renewal to expiry E is never less than the number of further
   full renewals that any later requests can obtain, exactly when none is left, or the request came
   no later than as many ttls before the ceiling C as renewals fit between E and C. So it is whenever
   E is not already past.
   */
  lemma HeadroomIsSafeIff(s: State, id: string, limits: Limits, now: Instant)
    requires Live(s, id) && 0 < limits.ttl && 0 <= limits.maxSession <= MAX_INT64
    requires Decide(s, id, limits, now).Renewed? && s.toks[id].originalIssuedAt <= now
    ensures var r := Extend(s, id, limits, now);
            var c := Ceiling(s.toks[id], limits);
            var n := RenewalsThatFit(c - r.toks[id].expiresAt, limits.ttl);
            && Live(r, id)
            && (HeadroomCovers(r, id, limits, now) <==> n == 0 || now <= c - n * limits.ttl)
            && (now <= r.toks[id].expiresAt ==> HeadroomCovers(r, id, limits, now))
  {
    hide Renewals, ExtendMany, RenewalsThatFit;
    var r := Extend(s, id, limits, now);
    var c := Ceiling(r.toks[id], limits);
    var n := RenewalsThatFit(c - r.toks[id].expiresAt, limits.ttl);
    forall later | forall i :: 0 <= i < |later| ==> later[i] < c
      ensures Renewals(r, id, limits, later) == Min(|later|, n)
    {
      RepeatedExtension(r, id, limits, later);
    }
    var soon := seq(n, _ => c - 1);
    assert Renewals(r, id, limits, soon) == n;
    CoversIff(c - now, limits.ttl, n, ExtensionsLeft(r.toks[id], limits, now));
    if now <= r.toks[id].expiresAt {
      FitsWithin(c - r.toks[id].expiresAt, c - now, limits.ttl);
    }
  }

  lemma CoversIff(remaining: int, ttl: Duration, n: nat, left: int)
    requires ttl > 0 && left == if remaining <= 0 then 0 else remaining / ttl
    ensures n <= left <==> n == 0 || n * ttl <= remaining
  {
    MulOrder(ttl, 1, n);
    if remaining > 0 {
      if n * ttl <= remaining {
        QuotientAtLeast(remaining, ttl, n);
      }
      QuotientAtLeast(remaining, ttl, 0);
      MulOrder(ttl, n, left);
      assert ttl * (remaining / ttl) <= remaining;
    }
  }

  /** ceil(room / ttl) - 1 never exceeds floor(wider / ttl). */
  lemma FitsWithin(room: int, wider: int, ttl: Duration)
    requires ttl > 0 && 0 <= wider && room <= wider
    ensures RenewalsThatFit(room, ttl) <= wider / ttl
  {
    var q := (room + ttl - 1) / ttl;
    assert ttl * (q - 1) == ttl * q - ttl;
    QuotientAtLeast(wider, ttl, q - 1);
    QuotientAtLeast(wider, ttl, 0);
  }

  /** A session that expired at 2, of a broker with ttl 10 and a ceiling 100 after the grant. */
  const OVERDUE := State(map["a" := Token("a", "", "", "", "", 1, 2, 1, 0, false, false, "", "")], ["a"], 0)
  const NARROW := Limits(10, 100, 5)

  /** With the new expiry already past, the report can fall short: at 95 none is reported left
      and one more is granted. */
  lemma HeadroomCanFallShort()
    ensures Consistent(OVERDUE) && Decide(OVERDUE, "a", NARROW, 95).Renewed?
    ensures var r := Extend(OVERDUE, "a", NARROW, 95);
            ExtensionsLeft(r.toks["a"], NARROW, 95) == 0 && Renewals(r, "a", NARROW, [95]) == 1
  {
  }

  /** An extension leaves an ordered heap ordered exactly when the new expiry still fits between
      the parent's and the children's at the session's slot. */
  lemma ExtensionKeepsOrderIff(s: State, id: string, limits: Limits, now: Instant, slot: nat)
    requires Consistent(s) && Ordered(s.toks, s.heap)
    requires slot < |s.heap| && s.heap[slot] == id && Live(s, id)
    requires !Decide(s, id, limits, now).Forced?
    ensures var r := Extend(s, id, limits, now);
            && Indexed(r)
            && (Ordered(r.toks, r.heap) <==>
                && (slot > 0 ==> s.toks[s.heap[Parent(slot)]].expiresAt <= r.toks[id].expiresAt)
                && (forall k :: 0 < k < |s.heap| && Parent(k) == slot
                      ==> r.toks[id].expiresAt <= s.toks[s.heap[k]].expiresAt))
  {
    var r := Extend(s, id, limits, now);
    forall k | 0 <= k < |s.heap| && k != slot ensures s.heap[k] != s.heap[slot] {
      NoRepeats(s.heap, k, slot);
    }
    InPlaceChangeKeepsOrder(s.toks, s.heap, slot, r.toks[id]);
  }

  lemma NoRepeats(h: seq<string>, i: nat, j: nat)
    requires i < |h| && j < |h| && i != j
    requires forall id :: multiset(h)[id] <= 1
    ensures h[i] != h[j]
  {
    var a, b := if i < j then i else j, if i < j then j else i;
    assert h == h[..a] + [h[a]] + h[a + 1..b] + [h[b]] + h[b + 1..];
    assert multiset(h) == multiset(h[..a]) + multiset{h[a]} + multiset(h[a + 1..b])
                          + multiset{h[b]} + multiset(h[b + 1..]);
    assert multiset(h)[h[a]] <= 1;
  }
}
