/** Emergency access: the quorum over approver signatures, and the lifetime it grants. */
module BreakGlass {
  import opened Arithmetic
  import opened Clock
  import opened Tokens

  const QUORUM_REQUIRED := 2

  datatype Signature = Signature(approverId: string, signature: string)

  datatype Request = Request(
    user: string, resource: string, reason: string, ttlMinutes: int, signatures: seq<Signature>)

  // ---------- The canonical message ----------

  function Digit(d: int): (c: char)
    requires 0 <= d < 10
    ensures '0' <= c <= '9' && c as int - '0' as int == d
  {
    '0' + d as char
  }

  function Digits(n: nat): (s: string)
    ensures s != [] && forall i :: 0 <= i < |s| ==> '0' <= s[i] <= '9'
  {
    if n < 10 then [Digit(n)] else Digits(n / 10) + [Digit(n % 10)]
  }

  /** The decimal form of a signed integer. */
  function Decimal(n: int): string {
    if n < 0 then "-" + Digits(-n) else Digits(n)
  }

  function CanonicalMessage(r: Request): string {
    r.user + "|" + r.resource + "|" + r.reason + "|" + Decimal(r.ttlMinutes)
  }

  // ---------- The quorum ----------

  /** Why a request is refused. */
  datatype Refusal = MissingFields | TooFewSignatures(got: nat) | QuorumNotMet(valid: nat)

  datatype Verdict = Verdict(ok: bool, refusal: Option<Refusal>, approvers: seq<string>)

  /** The trusted approvers' keys, and the decoding and checking of a signature on a message with a
      key as one answer: key, signature, message. */
  datatype Manager = Manager(trusted: map<string, string>, check: (string, string, string) -> bool)
  {
    /** A signature of a trusted approver that checks out. */
    predicate Valid(message: string, s: Signature) {
      s.approverId in trusted && check(trusted[s.approverId], s.signature, message)
    }

    /** The approvers with at least one valid signature. */
    function Approvers(message: string, sigs: seq<Signature>): set<string> {
      set i | 0 <= i < |sigs| && Valid(message, sigs[i]) :: sigs[i].approverId
    }

    /** What a request must carry to be granted. */
    predicate Granted(r: Request) {
      && r.user != "" && r.resource != ""
      && |Approvers(CanonicalMessage(r), r.signatures)| >= QUORUM_REQUIRED
    }

    /** Why a request is refused, in the order of the checks. */
    function RefusalFor(r: Request): (refusal: Option<Refusal>)
      ensures refusal.None? <==> Granted(r)
    {
      var valid := |Approvers(CanonicalMessage(r), r.signatures)|;
      ApproversAtMost(CanonicalMessage(r), r.signatures);
      if r.user == "" || r.resource == "" then Some(MissingFields)
      else if |r.signatures| < QUORUM_REQUIRED then Some(TooFewSignatures(|r.signatures|))
      else if valid < QUORUM_REQUIRED then Some(QuorumNotMet(valid))
      else None
    }

    /** Position `i` holds the first valid signature of its approver. */
    predicate FirstOfApprover(message: string, sigs: seq<Signature>, i: nat) {
      && i < |sigs| && Valid(message, sigs[i])
      && sigs[i].approverId !in Approvers(message, sigs[..i])
    }

    /** The positions of the first valid signatures, in list order. */
    function Firsts(message: string, sigs: seq<Signature>): (at: seq<nat>)
      ensures forall p :: 0 <= p < |at| ==> at[p] < |sigs|
    {
      if sigs == [] then []
      else
        var n := |sigs| - 1;
        Firsts(message, sigs[..n]) + if FirstOfApprover(message, sigs, n) then [n] else []
    }

    /** The approvers' list: one id for each first valid signature. */
    function ApproverList(message: string, sigs: seq<Signature>): seq<string> {
      var at := Firsts(message, sigs);
      seq(|at|, p requires 0 <= p < |at| => sigs[at[p]].approverId)
    }

    /** The loop of Verify: each approver enters once, with its first valid signature. */
    method CollectApprovers(message: string, sigs: seq<Signature>)
      returns (verifiedApprovers: set<string>, approverList: seq<string>)
      ensures verifiedApprovers == Approvers(message, sigs)
      ensures approverList == ApproverList(message, sigs)
    {
      verifiedApprovers := {};
      approverList := [];
      for i := 0 to |sigs|
        invariant verifiedApprovers == Approvers(message, sigs[..i])
        invariant approverList == ApproverList(message, sigs[..i])
      {
        SignatureAt(message, sigs, i);
        if sigs[i].approverId in trusted && check(trusted[sigs[i].approverId], sigs[i].signature, message) {
          if sigs[i].approverId !in verifiedApprovers {
            verifiedApprovers := verifiedApprovers + {sigs[i].approverId};
            approverList := approverList + [sigs[i].approverId];
          }
        }
      }
      assert sigs[..|sigs|] == sigs;
    }

    /** The quorum check. Past the two guards the list of approvers is reported either way. */
    method Verify(r: Request) returns (v: Verdict)
      ensures v.ok <==> Granted(r)
      ensures v.ok <==> v.refusal.None?
      ensures v.refusal == RefusalFor(r)
      ensures r.user == "" || r.resource == "" ==> v == Verdict(false, Some(MissingFields), [])
      ensures r.user != "" && r.resource != "" && |r.signatures| < QUORUM_REQUIRED
              ==> v == Verdict(false, Some(TooFewSignatures(|r.signatures|)), [])
      ensures r.user != "" && r.resource != "" && |r.signatures| >= QUORUM_REQUIRED
              ==> var message := CanonicalMessage(r);
                  && v.approvers == ApproverList(message, r.signatures)
                  && (v.refusal.Some? ==> v.refusal.value == QuorumNotMet(|Approvers(message, r.signatures)|))
    {
      var sigs := r.signatures;
      var message := CanonicalMessage(r);
      ApproversAtMost(message, sigs);
      if r.user == "" || r.resource == "" {
        return Verdict(false, Some(MissingFields), []);
      }
      if |sigs| < QUORUM_REQUIRED {
        return Verdict(false, Some(TooFewSignatures(|sigs|)), []);
      }
      var verifiedApprovers, approverList := CollectApprovers(message, sigs);
      if |verifiedApprovers| < QUORUM_REQUIRED {
        return Verdict(false, Some(QuorumNotMet(|verifiedApprovers|)), approverList);
      }
      return Verdict(true, None, approverList);
    }

    /** What the loop adds at position `i`. */
    lemma SignatureAt(message: string, sigs: seq<Signature>, i: nat)
      requires i < |sigs|
      ensures Approvers(message, sigs[..i + 1])
              == Approvers(message, sigs[..i]) + (if Valid(message, sigs[i]) then {sigs[i].approverId} else {})
      ensures ApproverList(message, sigs[..i + 1])
              == if Valid(message, sigs[i]) && sigs[i].approverId !in Approvers(message, sigs[..i])
                 then ApproverList(message, sigs[..i]) + [sigs[i].approverId]
                 else ApproverList(message, sigs[..i])
    {
      var prefix := sigs[..i + 1];
      assert prefix[..i] == sigs[..i] && prefix[i] == sigs[i];
      OneMoreSignature(message, prefix);
    }

    lemma OneMoreSignature(message: string, sigs: seq<Signature>)
      requires sigs != []
      ensures var front, s := sigs[..|sigs| - 1], sigs[|sigs| - 1];
              && Approvers(message, sigs)
                 == Approvers(message, front) + (if Valid(message, s) then {s.approverId} else {})
              && ApproverList(message, sigs)
                 == ApproverList(message, front)
                    + (if FirstOfApprover(message, sigs, |sigs| - 1) then [s.approverId] else [])
    {
    }

    lemma {:induction false} ApproversAtMost(message: string, sigs: seq<Signature>)
      ensures |Approvers(message, sigs)| <= |sigs|
    {
      if sigs != [] {
        ApproversAtMost(message, sigs[..|sigs| - 1]);
        OneMoreSignature(message, sigs);
      }
    }

    /** The approvers' list names each approver with a valid signature exactly once. */
    lemma {:induction false} ListIsExact(message: string, sigs: seq<Signature>)
      ensures forall id :: multiset(ApproverList(message, sigs))[id]
                             == if id in Approvers(message, sigs) then 1 else 0
      ensures |ApproverList(message, sigs)| == |Approvers(message, sigs)|
    {
      if sigs != [] {
        var front, s := sigs[..|sigs| - 1], sigs[|sigs| - 1];
        ListIsExact(message, front);
        OneMoreSignature(message, sigs);
      }
    }

    /** ... in the order in which their first valid signatures stand in the request. */
    lemma {:induction false} ListFollowsFirsts(message: string, sigs: seq<Signature>)
      ensures var at, list := Firsts(message, sigs), ApproverList(message, sigs);
              && |list| == |at|
              && (forall p :: 0 <= p < |at| ==>
                    FirstOfApprover(message, sigs, at[p]) && list[p] == sigs[at[p]].approverId)
              && (forall p, q :: 0 <= p < q < |at| ==> at[p] < at[q])
              && (forall i :: FirstOfApprover(message, sigs, i) ==> i in at)
    {
      if sigs != [] {
        var n := |sigs| - 1;
        var front := sigs[..n];
        ListFollowsFirsts(message, front);
        forall i | 0 <= i < n ensures FirstOfApprover(message, sigs, i) <==> FirstOfApprover(message, front, i) {
          assert sigs[..i] == front[..i] && sigs[i] == front[i];
        }
      }
    }

    /** ... read off the request: the listed ids are those of trusted approvers whose signature on the
        message checks out, none twice, and one stands before another exactly when a valid signature
        of its comes before every one of the other's. */
    lemma ListInRequestOrder(message: string, sigs: seq<Signature>)
      ensures forall id ::
                id in ApproverList(message, sigs)
                <==> exists i :: 0 <= i < |sigs| && sigs[i].approverId == id
                       && id in trusted && check(trusted[id], sigs[i].signature, message)
      ensures forall p, q :: 0 <= p < q < |ApproverList(message, sigs)| ==>
                var a, b := ApproverList(message, sigs)[p], ApproverList(message, sigs)[q];
                && a != b
                && exists i :: 0 <= i < |sigs| && sigs[i].approverId == a
                     && a in trusted && check(trusted[a], sigs[i].signature, message)
                     && forall j :: 0 <= j <= i ==>
                          sigs[j].approverId == b ==>
                            !(b in trusted && check(trusted[b], sigs[j].signature, message))
    {
      var at, list := Firsts(message, sigs), ApproverList(message, sigs);
      ListFollowsFirsts(message, sigs);
      ListIsExact(message, sigs);
      forall id ensures id in list <==> id in Approvers(message, sigs) {
        assert id in list <==> multiset(list)[id] > 0;
      }
      forall p, q | 0 <= p < q < |list|
        ensures list[p] != list[q]
        ensures exists i :: 0 <= i < |sigs| && sigs[i].approverId == list[p] && Valid(message, sigs[i])
                  && forall j :: 0 <= j <= i && sigs[j].approverId == list[q] ==> !Valid(message, sigs[j])
      {
        var first := at[q];
        forall j | 0 <= j < first && sigs[j].approverId == list[q] ensures !Valid(message, sigs[j]) {
          assert sigs[..first][j] == sigs[j];
        }
        assert FirstOfApprover(message, sigs, at[p]) && at[p] < first;
      }
    }

    /** Two people: a request is granted exactly when two signatures, each checked against the message
        with its approver's key, come from different trusted approvers. */
    lemma GrantedNeedsTwoPeople(r: Request)
      ensures Granted(r) <==>
              && r.user != "" && r.resource != ""
              && exists i, j :: 0 <= i < |r.signatures| && 0 <= j < |r.signatures|
                   && var a, b := r.signatures[i], r.signatures[j];
                   && a.approverId in trusted && check(trusted[a.approverId], a.signature, CanonicalMessage(r))
                   && b.approverId in trusted && check(trusted[b.approverId], b.signature, CanonicalMessage(r))
                   && a.approverId != b.approverId
    {
      var message, sigs := CanonicalMessage(r), r.signatures;
      var ids := Approvers(message, sigs);
      if |ids| >= 2 {
        var a :| a in ids;
        assert |ids - {a}| >= 1;
        var b :| b in ids - {a};
        var i :| 0 <= i < |sigs| && Valid(message, sigs[i]) && sigs[i].approverId == a;
        var j :| 0 <= j < |sigs| && Valid(message, sigs[j]) && sigs[j].approverId == b;
        assert sigs[i].approverId != sigs[j].approverId;
      }
      forall i, j | 0 <= i < |sigs| && 0 <= j < |sigs| && Valid(message, sigs[i]) && Valid(message, sigs[j])
                    && sigs[i].approverId != sigs[j].approverId
        ensures |ids| >= 2
      {
        SubsetIsSmaller({sigs[i].approverId, sigs[j].approverId}, ids);
      }
    }

    /** More signatures never lose a grant, and their order is irrelevant. */
    lemma GrantedIsMonotone(r: Request, more: seq<Signature>)
      requires multiset(r.signatures) <= multiset(more)
      ensures Granted(r) ==> Granted(r.(signatures := more))
      ensures multiset(r.signatures) == multiset(more) ==> (Granted(r) <==> Granted(r.(signatures := more)))
    {
      var message := CanonicalMessage(r);
      MoreApprovers(message, r.signatures, more);
      if multiset(r.signatures) == multiset(more) {
        MoreApprovers(message, more, r.signatures);
      }
    }

    lemma MoreApprovers(message: string, sigs: seq<Signature>, more: seq<Signature>)
      requires multiset(sigs) <= multiset(more)
      ensures Approvers(message, sigs) <= Approvers(message, more)
      ensures |Approvers(message, sigs)| <= |Approvers(message, more)|
    {
      forall id | id in Approvers(message, sigs) ensures id in Approvers(message, more) {
        var i :| 0 <= i < |sigs| && Valid(message, sigs[i]) && sigs[i].approverId == id;
        assert sigs[i] in multiset(sigs) && sigs[i] in multiset(more);
        var j :| 0 <= j < |more| && more[j] == sigs[i];
      }
      SubsetIsSmaller(Approvers(message, sigs), Approvers(message, more));
    }
  }

  lemma {:induction false} SubsetIsSmaller<T>(a: set<T>, b: set<T>)
    requires a <= b
    ensures |a| <= |b|
  {
    if a != {} {
      var x :| x in a;
      SubsetIsSmaller(a - {x}, b - {x});
    }
  }

  // ---------- The lifetime granted ----------

  /** The ttl asked of the issuer; minutes are multiplied in 64 bits. */
  function GrantedTtl(ttlMinutes: int): (ttl: Duration) {
    var ttl := Wrap64(ttlMinutes * MINUTE);
    if ttl <= 0 || ttl > MAX_TTL then MAX_TTL else ttl
  }

  /** What the limit promises: 1 to 60 minutes as asked, and the limit for any other request. */
  function PromisedTtl(ttlMinutes: int): Duration {
    if 1 <= ttlMinutes <= 60 then ttlMinutes * MINUTE else MAX_TTL
  }

  /** An emergency token never outlives the hard limit. It gets what is promised exactly when the
      request is for 1 to 60 minutes or its product with a minute does not wrap to a positive
      duration under the limit; so every request from -307,445,674 to
      307,445,734 minutes does. */
  lemma EmergencyTtl(m: int)
    ensures 0 < GrantedTtl(m) <= MAX_TTL
    ensures var product := (m * 60_000_000_000) % 0x1_0000_0000_0000_0000;
            GrantedTtl(m) == if 0 < product <= 3_600_000_000_000 then product else 3_600_000_000_000
    ensures PromisedTtl(m) == if 1 <= m <= 60 then m * 60_000_000_000 else 3_600_000_000_000
    ensures GrantedTtl(m) == PromisedTtl(m)
            <==> 1 <= m <= 60 || !(0 < (m * MINUTE) % 0x1_0000_0000_0000_0000 < MAX_TTL)
    ensures -307_445_675 < m < 307_445_735 ==> GrantedTtl(m) == PromisedTtl(m)
  {
    WrapsOnce(m * MINUTE);
  }

  /** A 64-bit register and the remainder on division by 2^64. */
  lemma WrapsOnce(x: int)
    ensures Wrap64(x) > 0 <==> 0 < x % 0x1_0000_0000_0000_0000 <= MAX_INT64
    ensures Wrap64(x) > 0 ==> Wrap64(x) == x % 0x1_0000_0000_0000_0000
    ensures 0 <= x < 0x1_0000_0000_0000_0000 ==> x % 0x1_0000_0000_0000_0000 == x
    ensures -0x1_0000_0000_0000_0000 <= x < 0 ==>
              x % 0x1_0000_0000_0000_0000 == x + 0x1_0000_0000_0000_0000
  {
  }

  /** Requests that wrap to a ttl under the limit: the first either way, granted 26 seconds and 59.56
      minutes; one granted 33 seconds; and 2^53 + 1 minutes, granted one. */
  lemma HugeTtlWraps()
    ensures GrantedTtl(307_445_735) == 26_290_448_384 && PromisedTtl(307_445_735) == MAX_TTL
    ensures GrantedTtl(-307_445_675) == 3_573_709_551_616 && PromisedTtl(-307_445_675) == MAX_TTL
    ensures GrantedTtl(-307_445_734) == 33_709_551_616 && PromisedTtl(-307_445_734) == MAX_TTL
    ensures GrantedTtl(0x20_0000_0000_0001) == 1 * MINUTE
  {
    GrantedAfterWrap(307_445_735, 1, 26_290_448_384);
    GrantedAfterWrap(-307_445_675, -1, 3_573_709_551_616);
    GrantedAfterWrap(-307_445_734, -1, 33_709_551_616);
    GrantedAfterWrap(0x20_0000_0000_0001, 29_296_875, 1 * MINUTE);
  }

  /** A product that is a short ttl but for a multiple of 2^64 is granted that ttl. */
  lemma GrantedAfterWrap(m: int, k: int, ttl: Duration)
    requires 0 < ttl <= MAX_TTL && m * MINUTE == ttl + k * 0x1_0000_0000_0000_0000
    ensures GrantedTtl(m) == ttl
  {
    QuotientIs(m * MINUTE - MIN_INT64, 0x1_0000_0000_0000_0000, k, ttl - MIN_INT64);
  }

  /** Verify the quorum, then issue and tag the token. `issue` is the provider. At most one of the
      three results is present. */
  method Activate(m: Manager, r: Request, issue: Issuer)
    returns (t: IssuedToken?, refusal: Option<Refusal>, error: Option<string>)
    ensures refusal == m.RefusalFor(r)
    ensures refusal.Some? ==> t == null && error.None?
    ensures m.Granted(r) ==>
              match issue(r.user, r.resource, GrantedTtl(r.ttlMinutes))
              case Failed(e) => t == null && error == Some(e)
              case Issued(v) =>
                && t != null && fresh(t) && error.None?
                && t.Value() == v.(justificationType := "break_glass", justificationRef := r.reason)
                && t.id == v.id && t.user == v.user && t.resource == v.resource && t.provider == v.provider
                && t.secret == v.secret && t.issuedAt == v.issuedAt && t.expiresAt == v.expiresAt
                && t.justificationType == "break_glass" && t.justificationRef == r.reason
  {
    t, refusal, error := null, None, None;
    var verdict := m.Verify(r);
    if !verdict.ok {
      refusal := verdict.refusal;
      return;
    }
    var ttl := Wrap64(r.ttlMinutes * MINUTE);
    if ttl <= 0 || ttl > MAX_TTL {
      ttl := MAX_TTL;
    }
    match issue(r.user, r.resource, ttl)
    case Failed(e) =>
      error := Some(e);
    case Issued(v) =>
      t := new IssuedToken(v);
      t.justificationType := "break_glass";
      t.justificationRef := r.reason;
  }
}
