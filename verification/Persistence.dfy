/** The state file: its records, and the filters applied when it is read back. */
module Persistence {
  import opened Clock
  import opened Tokens

  datatype Record = Record(
    version: int,
    id: string,
    user: string,
    resource: string,
    secret: string,
    provider: string,
    issuedAt: Instant,
    expiresAt: Instant,
    originalIssuedAt: Instant,
    extensionCount: int,
    revoked: bool,
    revocationPending: bool,
    justificationType: string,
    justificationRef: string)

  function ToRecord(t: Token): Record {
    Record(1, t.id, t.user, t.resource, t.secret, t.provider, t.issuedAt, t.expiresAt,
           t.originalIssuedAt, t.extensionCount, t.revoked, false,
           t.justificationType, t.justificationRef)
  }

  function ToToken(r: Record): Token {
    Token(r.id, r.user, r.resource, r.secret, r.provider, r.issuedAt, r.expiresAt,
          r.originalIssuedAt, r.extensionCount, r.revoked, false,
          r.justificationType, r.justificationRef)
  }

  /** A token as a restart sees it: everything but the warning flag survives. */
  function Unwarned(t: Token): Token {
    t.(notifiedExpiry := false)
  }

  lemma RecordRoundTrip(t: Token, u: Token)
    ensures ToToken(ToRecord(t)) == t.(notifiedExpiry := false)
    ensures var r := ToRecord(t);
            && r.id == t.id && r.user == t.user && r.resource == t.resource && r.secret == t.secret
            && r.provider == t.provider && r.issuedAt == t.issuedAt && r.expiresAt == t.expiresAt
            && r.originalIssuedAt == t.originalIssuedAt && r.extensionCount == t.extensionCount
            && r.revoked == t.revoked
            && r.justificationType == t.justificationType && r.justificationRef == t.justificationRef
    ensures ToRecord(t).version == 1 && !ToRecord(t).revocationPending
    ensures ToRecord(t) == ToRecord(u) <==> t.(notifiedExpiry := false) == u.(notifiedExpiry := false)
  {
  }

  predicate Missed(r: Record, now: Instant) {
    !r.revoked && r.expiresAt < now
  }

  function Active(all: seq<Record>): (active: seq<Record>)
    ensures forall i :: 0 <= i < |active| ==> active[i] in all && !active[i].revoked
    ensures forall r :: r in all && !r.revoked ==> r in active
  {
    if all == [] then []
    else Active(all[..|all| - 1]) + if all[|all| - 1].revoked then [] else [all[|all| - 1]]
  }

  function AllMissed(records: seq<Record>, now: Instant): (missed: seq<Record>)
    ensures forall i :: 0 <= i < |missed| ==> missed[i] in records && Missed(missed[i], now)
    ensures forall r :: r in records && Missed(r, now) ==> r in missed
  {
    if records == [] then []
    else
      AllMissed(records[..|records| - 1], now)
      + if Missed(records[|records| - 1], now) then [records[|records| - 1]] else []
  }

  /** Both filters keep exactly what they say, in file order. */
  lemma OneRecordFiltered(r: Record, now: Instant)
    ensures Active([r]) == if r.revoked then [] else [r]
    ensures AllMissed([r], now) == if !r.revoked && r.expiresAt < now then [r] else []
  {
    assert [r][..0] == [];
  }

  lemma LastOfBoth(rs: seq<Record>, qs: seq<Record>)
    requires qs != []
    ensures rs + qs != [] && (rs + qs)[..|rs + qs| - 1] == rs + qs[..|qs| - 1]
    ensures (rs + qs)[|rs + qs| - 1] == qs[|qs| - 1]
  {
  }

  lemma Regroup(a: seq<Record>, b: seq<Record>, c: seq<Record>)
    ensures a + b + c == a + (b + c)
  {
  }

  /** Both filters keep the order of the file: they take the parts of a file one after the other. */
  lemma {:induction false} FiltersInFileOrder(rs: seq<Record>, qs: seq<Record>, now: Instant)
    ensures Active(rs + qs) == Active(rs) + Active(qs)
    ensures AllMissed(rs + qs, now) == AllMissed(rs, now) + AllMissed(qs, now)
    decreases |qs|
  {
    if qs == [] {
      assert rs + qs == rs;
    } else {
      hide Missed;
      var front, r := qs[..|qs| - 1], qs[|qs| - 1];
      FiltersInFileOrder(rs, front, now);
      LastOfBoth(rs, qs);
      Regroup(Active(rs), Active(front), if r.revoked then [] else [r]);
      Regroup(AllMissed(rs, now), AllMissed(front, now), if Missed(r, now) then [r] else []);
    }
  }

  /** `LoadActive`, after the file has been read. */
  method LoadActive(all: seq<Record>) returns (active: seq<Record>)
    ensures active == Active(all)
  {
    active := [];
    for i := 0 to |all|
      invariant active == Active(all[..i])
    {
      assert all[..i + 1][..i] == all[..i];
      if !all[i].revoked {
        active := active + [all[i]];
      }
    }
    assert all[..|all|] == all;
  }

  method MissedExpirations(records: seq<Record>, now: Instant) returns (missed: seq<Record>)
    ensures missed == AllMissed(records, now)
  {
    missed := [];
    for i := 0 to |records|
      invariant missed == AllMissed(records[..i], now)
    {
      assert records[..i + 1][..i] == records[..i];
      if !records[i].revoked && records[i].expiresAt < now {
        missed := missed + [records[i]];
      }
    }
    assert records[..|records|] == records;
  }

  /** No two records share an id; the file is written from a map, so it always holds there. */
  ghost predicate DistinctIds(rs: seq<Record>) {
    forall i, j :: 0 <= i < j < |rs| ==> rs[i].id != rs[j].id
  }

  lemma {:induction false} FiltersKeepDistinct(rs: seq<Record>, now: Instant)
    requires DistinctIds(rs)
    ensures DistinctIds(Active(rs)) && DistinctIds(AllMissed(rs, now))
  {
    if rs != [] {
      FiltersKeepDistinct(rs[..|rs| - 1], now);
    }
  }
}
