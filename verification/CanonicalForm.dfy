/** Reading a canonical break-glass message back. */
module CanonicalForm {
  import opened Tokens
  import opened BreakGlass

  /** The fields that approvers sign. */
  datatype Fields = Fields(user: string, resource: string, reason: string, ttlMinutes: int)

  /** The position of the first bar, or the length if there is none. */
  function FirstBar(s: string): (i: nat)
    ensures i <= |s|
    ensures i < |s| ==> s[i] == '|'
    ensures forall k :: 0 <= k < i ==> s[k] != '|'
  {
    if s == [] || s[0] == '|' then 0 else 1 + FirstBar(s[1..])
  }

  /** One past the position of the last bar, or 0 if there is none. */
  function AfterLastBar(s: string): (i: nat)
    ensures i <= |s|
    ensures i > 0 ==> s[i - 1] == '|'
    ensures forall k :: i <= k < |s| ==> s[k] != '|'
  {
    if s == [] || s[|s| - 1] == '|' then |s| else AfterLastBar(s[..|s| - 1])
  }

  function ParseDigits(s: string): Option<int> {
    if s == [] then None
    else
      var c := s[|s| - 1];
      if !('0' <= c <= '9') then None
      else if |s| == 1 then Some(c as int - '0' as int)
      else
        match ParseDigits(s[..|s| - 1])
        case None => None
        case Some(n) => Some(10 * n + (c as int - '0' as int))
  }

  function ParseDecimal(s: string): Option<int> {
    if s != [] && s[0] == '-' then
      match ParseDigits(s[1..])
      case None => None
      case Some(n) => Some(-n)
    else
      match ParseDigits(s)
      case None => None
      case Some(n) => Some(n)
  }

  /** The parts before and after the first bar. */
  function CutFirst(s: string): Option<(string, string)> {
    var i := FirstBar(s);
    if i == |s| then None else Some((s[..i], s[i + 1..]))
  }

  /** The parts before and after the last bar. */
  function CutLast(s: string): Option<(string, string)> {
    var k := AfterLastBar(s);
    if k == 0 then None else Some((s[..k - 1], s[k..]))
  }

  function ParseRest(user: string, resource: string, tail: string): Option<Fields> {
    match CutLast(tail)
    case None => None
    case Some((reason, ttl)) =>
      match ParseDecimal(ttl)
      case None => None
      case Some(n) => Some(Fields(user, resource, reason, n))
  }

  /** Cut at the first two bars and the last bar. */
  function Parse(message: string): Option<Fields> {
    match CutFirst(message)
    case None => None
    case Some((user, rest)) =>
      match CutFirst(rest)
      case None => None
      case Some((resource, tail)) => ParseRest(user, resource, tail)
  }

  lemma {:induction false} DigitsParse(n: nat)
    ensures ParseDigits(Digits(n)) == Some(n)
  {
    if n >= 10 {
      DigitsParse(n / 10);
      var s := Digits(n);
      assert s[..|s| - 1] == Digits(n / 10);
    }
  }

  lemma DecimalParses(n: int)
    ensures ParseDecimal(Decimal(n)) == Some(n)
  {
    hide ParseDigits, Digits;
    if n < 0 {
      DigitsParse(-n);
      assert ("-" + Digits(-n))[1..] == Digits(-n);
    } else {
      DigitsParse(n);
      assert Digits(n)[0] != '-';
    }
  }

  // ---------- The text of a number ----------

  /** How a number is written: a sign only before a negative one, and no zero in front of a digit. */
  predicate Canonical(s: string) {
    var digits := if s != [] && s[0] == '-' then s[1..] else s;
    || s == "0"
    || (digits != [] && digits[0] != '0' && forall i :: 0 <= i < |digits| ==> '0' <= digits[i] <= '9')
  }

  lemma {:induction false} DigitsStart(n: nat)
    ensures Digits(n)[0] == '0' <==> n == 0
    ensures n == 0 ==> Digits(n) == "0"
  {
    if n >= 10 {
      DigitsStart(n / 10);
    }
  }

  lemma {:induction false} ParsedDigits(s: string, n: int)
    requires ParseDigits(s) == Some(n)
    requires s[0] != '0' || s == "0"
    ensures n >= 0 && s == Digits(n)
  {
    var front := s[..|s| - 1];
    if front != [] {
      var m := ParseDigits(front).value;
      assert front[0] == s[0] != '0';
      ParsedDigits(front, m);
      DigitsStart(m);
      assert n / 10 == m && s == front + [Digit(n % 10)];
    }
  }

  lemma {:induction false} DigitsOnlyParse(s: string)
    requires s != [] && forall i :: 0 <= i < |s| ==> '0' <= s[i] <= '9'
    ensures ParseDigits(s).Some?
  {
    if |s| > 1 {
      DigitsOnlyParse(s[..|s| - 1]);
    }
  }

  lemma TextStart(n: int)
    ensures Decimal(n)[0] == '0' <==> n == 0
    ensures n < 0 ==> |Decimal(n)| > 1 && Decimal(n)[0] == '-' && '1' <= Decimal(n)[1] <= '9'
    ensures Canonical(Decimal(n))
  {
    var digits := Digits(if n < 0 then -n else n);
    DigitsStart(if n < 0 then -n else n);
    assert n < 0 ==> Decimal(n)[1..] == digits;
  }

  lemma ParsedCanonical(s: string, n: int)
    requires Canonical(s) && ParseDecimal(s) == Some(n)
    ensures s == Decimal(n)
  {
    if s[0] == '-' {
      ParsedDigits(s[1..], -n);
      DigitsStart(-n);
      assert s == "-" + s[1..];
    } else {
      ParsedDigits(s, n);
    }
  }

  /** A number has one text: its canonical one. */
  lemma DecimalIsCanonical(n: int, s: string)
    ensures s == Decimal(n) <==> Canonical(s) && ParseDecimal(s) == Some(n)
    ensures Decimal(n)[0] == '0' <==> n == 0
    ensures n < 0 ==> |Decimal(n)| > 1 && Decimal(n)[0] == '-' && '1' <= Decimal(n)[1] <= '9'
  {
    DecimalParses(n);
    TextStart(n);
    if Canonical(s) && ParseDecimal(s) == Some(n) {
      ParsedCanonical(s, n);
    }
  }

  /** Digit by digit: the last is the remainder by ten, and the others are the quotient's text. */
  lemma DecimalByDigits(n: int)
    ensures n < 0 ==> Decimal(n) == "-" + Decimal(-n)
    ensures 0 <= n < 10 ==> Decimal(n) == ["0123456789"[n]]
    ensures n >= 10 ==> Decimal(n) == Decimal(n / 10) + ["0123456789"[n % 10]]
  {
    var c := "0123456789"[if n < 0 then 0 else n % 10];
    assert n >= 0 ==> c == Digit(n % 10);
  }

  /** What approvers sign: the user, the resource, the reason and the minutes between bars, the minutes
      in the one text that is canonical and reads as their number. */
  lemma MessageIsWhatApproversSign(r: Request, minutes: string)
    ensures Canonical(minutes) && ParseDecimal(minutes) == Some(r.ttlMinutes)
            <==> CanonicalMessage(r) == r.user + "|" + r.resource + "|" + r.reason + "|" + minutes
  {
    var front := r.user + "|" + r.resource + "|" + r.reason + "|";
    DecimalIsCanonical(r.ttlMinutes, minutes);
    assert CanonicalMessage(r) == front + Decimal(r.ttlMinutes);
    if front + minutes == front + Decimal(r.ttlMinutes) {
      assert minutes == (front + minutes)[|front|..] == Decimal(r.ttlMinutes);
    }
  }

  /** A message with its number. */
  lemma SignedText(sigs: seq<Signature>)
    ensures CanonicalMessage(Request("alice", "db", "outage", 30, sigs)) == "alice|db|outage|30"
    ensures CanonicalMessage(Request("bob", "vault", "", -5, sigs)) == "bob|vault||-5"
  {
    DecimalByDigits(3);
    DecimalByDigits(30);
  }

  lemma DecimalHasNoBar(n: int)
    ensures '|' !in Decimal(n)
  {
  }

  lemma CutsAtFirst(a: string, b: string)
    requires '|' !in a
    ensures CutFirst(a + "|" + b) == Some((a, b))
  {
    var s := a + "|" + b;
    assert s[|a|] == '|';
    assert forall k :: 0 <= k < |a| ==> s[k] == a[k];
    assert s[..|a|] == a && s[|a| + 1..] == b;
  }

  lemma CutsAtLast(a: string, b: string)
    requires '|' !in b
    ensures CutLast(a + "|" + b) == Some((a, b))
  {
    var s := a + "|" + b;
    assert s[|a|] == '|';
    assert forall k :: |a| < k < |s| ==> s[k] == b[k - |a| - 1];
    assert s[..|a|] == a && s[|a| + 1..] == b;
  }

  function Signed(r: Request): Fields {
    Fields(r.user, r.resource, r.reason, r.ttlMinutes)
  }

  /** A reason may hold bars and the ttl may be any integer: with a bar in neither the user nor the
      resource, the message reads back as what was signed. */
  lemma ParsesBack(r: Request)
    requires '|' !in r.user && '|' !in r.resource
    ensures Parse(CanonicalMessage(r)) == Some(Signed(r))
  {
    var ttl := Decimal(r.ttlMinutes);
    var tail := r.reason + "|" + ttl;
    var rest := r.resource + "|" + tail;
    assert CanonicalMessage(r) == r.user + "|" + rest;
    CutsAtFirst(r.user, rest);
    CutsAtFirst(r.resource, tail);
    DecimalParses(r.ttlMinutes);
    DecimalHasNoBar(r.ttlMinutes);
    CutsAtLast(r.reason, ttl);
  }

  /** The message can be read back exactly when neither the user nor the resource holds a bar. */
  lemma MessageInvertibleIff(r: Request)
    ensures Parse(CanonicalMessage(r)) == Some(Signed(r)) <==> '|' !in r.user && '|' !in r.resource
  {
    if '|' !in r.user && '|' !in r.resource {
      ParsesBack(r);
    } else if Parse(CanonicalMessage(r)) == Some(Signed(r)) {
      ParsedHaveNoBar(CanonicalMessage(r));
    }
  }

  lemma ParsedHaveNoBar(message: string)
    ensures Parse(message).Some? ==> '|' !in Parse(message).value.user && '|' !in Parse(message).value.resource
  {
  }

  /** A request that shares its message with one without bars in user and resource agrees with it on
      everything signed exactly when it has none there either. */
  lemma MessageInjective(r: Request, q: Request)
    requires '|' !in r.user && '|' !in r.resource
    requires CanonicalMessage(r) == CanonicalMessage(q)
    ensures Signed(r) == Signed(q) <==> '|' !in q.user && '|' !in q.resource
  {
    ParsesBack(r);
    if '|' !in q.user && '|' !in q.resource {
      ParsesBack(q);
    }
  }

  // ---------- One message, one request ----------

  /** How many bars a text holds. */
  function Bars(s: string): nat {
    multiset(s)['|']
  }

  lemma MessageBars(r: Request)
    ensures Bars(CanonicalMessage(r)) == Bars(r.user) + Bars(r.resource) + Bars(r.reason) + 3
  {
    DecimalHasNoBar(r.ttlMinutes);
    assert Bars(Decimal(r.ttlMinutes)) == 0;
    assert multiset("|") == multiset{'|'};
  }

  /** A text with a bar, cut there. */
  lemma CutAtBar(s: string) returns (a: string, b: string)
    requires '|' in s
    ensures s == a + "|" + b
  {
    var i :| 0 <= i < |s| && s[i] == '|';
    a, b := s[..i], s[i + 1..];
  }

  lemma JoinBars(a: string, b: string, c: string, d: string)
    ensures (a + "|" + b) + "|" + c + "|" + d == a + "|" + b + "|" + c + "|" + d
    ensures a + "|" + (b + "|" + c) + "|" + d == a + "|" + b + "|" + c + "|" + d
    ensures a + "|" + b + "|" + (c + "|" + d) == a + "|" + b + "|" + c + "|" + d
  {
  }

  /** The four texts of a message with one bar too many, read in three ways. */
  lemma ThreeReadings(a: string, b: string, c: string, d: string, ttl: int, sigs: seq<Signature>)
    ensures CanonicalMessage(Request(a + "|" + b, c, d, ttl, sigs))
            == CanonicalMessage(Request(a, b + "|" + c, d, ttl, sigs))
            == CanonicalMessage(Request(a, b, c + "|" + d, ttl, sigs))
  {
    JoinBars(a, b, c, d);
  }

  /** Any bar lets another request have the same message: the fields around it shift by one. */
  lemma BarIsAmbiguous(r: Request) returns (q: Request)
    requires '|' in r.user || '|' in r.resource || '|' in r.reason
    ensures CanonicalMessage(q) == CanonicalMessage(r) && Signed(q) != Signed(r)
  {
    if '|' in r.user {
      var a, b := CutAtBar(r.user);
      q := r.(user := a, resource := b, reason := r.resource + "|" + r.reason);
      ThreeReadings(a, b, r.resource, r.reason, r.ttlMinutes, r.signatures);
      assert |q.user| < |r.user|;
    } else if '|' in r.resource {
      var b, c := CutAtBar(r.resource);
      q := r.(resource := b, reason := c + "|" + r.reason);
      ThreeReadings(r.user, b, c, r.reason, r.ttlMinutes, r.signatures);
      assert |q.resource| < |r.resource|;
    } else {
      var c, d := CutAtBar(r.reason);
      q := r.(user := r.user + "|" + r.resource, resource := c, reason := d);
      ThreeReadings(r.user, r.resource, c, d, r.ttlMinutes, r.signatures);
      assert |r.user| < |q.user|;
    }
  }

  /** Approvers sign one set of fields: a message belongs to a single request exactly when none of the
      user, the resource and the reason holds a bar. */
  lemma MessageUniqueIff(r: Request)
    ensures (forall q :: CanonicalMessage(q) == CanonicalMessage(r) ==> Signed(q) == Signed(r))
            <==> '|' !in r.user && '|' !in r.resource && '|' !in r.reason
  {
    hide CanonicalMessage;
    if '|' !in r.user && '|' !in r.resource && '|' !in r.reason {
      forall q | CanonicalMessage(q) == CanonicalMessage(r) ensures Signed(q) == Signed(r) {
        MessageBars(r);
        MessageBars(q);
        assert Bars(q.user) == 0 && Bars(q.resource) == 0;
        MessageInjective(r, q);
      }
    } else {
      var q := BarIsAmbiguous(r);
      assert CanonicalMessage(q) == CanonicalMessage(r) && Signed(q) != Signed(r);
    }
  }

  // ---------- One message, one request that can be granted ----------

  /** The fields without which a request is refused are there. */
  predicate Complete(r: Request) {
    r.user != "" && r.resource != ""
  }

  /** What stands before the ttl. */
  function Body(r: Request): string {
    r.user + "|" + r.resource + "|" + r.reason
  }

  lemma SameBody(r: Request, q: Request)
    requires CanonicalMessage(r) == CanonicalMessage(q)
    ensures Body(r) == Body(q) && r.ttlMinutes == q.ttlMinutes
  {
    DecimalHasNoBar(r.ttlMinutes);
    DecimalHasNoBar(q.ttlMinutes);
    CutsAtLast(Body(r), Decimal(r.ttlMinutes));
    CutsAtLast(Body(q), Decimal(q.ttlMinutes));
    DecimalParses(r.ttlMinutes);
    DecimalParses(q.ttlMinutes);
  }

  /** Bars that no complete request can be cut at: none in the reason, none in the user but at its
      start, and none in the resource unless it is a bar. */
  predicate BarsAtEdges(r: Request) {
    && '|' !in r.reason
    && (r.user != "" ==> '|' !in r.user[1..])
    && (r.resource == "|" || '|' !in r.resource)
  }

  /** Where the bars of such a body stand. */
  lemma BodyBars(r: Request, k: nat)
    requires Complete(r) && BarsAtEdges(r) && k < |Body(r)| && Body(r)[k] == '|'
    ensures var i := |r.user|; var j := i + 1 + |r.resource|;
            k == 0 || k == i || k == j || (r.resource == "|" && k == i + 1)
  {
    assert forall x :: 0 < x < |r.user| ==> r.user[1..][x - 1] == r.user[x];
  }

  lemma OneCut(r: Request, q: Request)
    requires Complete(r) && BarsAtEdges(r) && Complete(q) && Body(q) == Body(r)
    ensures q.user == r.user && q.resource == r.resource && q.reason == r.reason
  {
    var s := Body(r);
    var i := |q.user|;
    var j := i + 1 + |q.resource|;
    assert s[i] == '|' && s[j] == '|';
    BodyBars(r, i);
    BodyBars(r, j);
    assert i == |r.user| && j == i + 1 + |r.resource|;
    assert q.user == s[..i] == r.user && q.resource == s[i + 1..j] == r.resource;
    assert q.reason == s[j + 1..] == r.reason;
  }

  /** Any other bar lets another complete request have the same message. */
  lemma BarIsReplayable(r: Request) returns (q: Request)
    requires Complete(r) && !BarsAtEdges(r)
    ensures Complete(q) && CanonicalMessage(q) == CanonicalMessage(r) && Signed(q) != Signed(r)
  {
    if '|' in r.reason {
      var c, d := CutAtBar(r.reason);
      q := r.(resource := r.resource + "|" + c, reason := d);
      ThreeReadings(r.user, r.resource, c, d, r.ttlMinutes, r.signatures);
      assert |r.resource| < |q.resource|;
    } else if '|' in r.user[1..] {
      var a, b := CutAtBar(r.user[1..]);
      assert r.user == ([r.user[0]] + a) + "|" + b;
      q := r.(user := [r.user[0]] + a, resource := b + "|" + r.resource);
      ThreeReadings([r.user[0]] + a, b, r.resource, r.reason, r.ttlMinutes, r.signatures);
      assert |q.user| < |r.user|;
    } else {
      var b, c := CutAtBar(r.resource);
      ThreeReadings(r.user, b, c, r.reason, r.ttlMinutes, r.signatures);
      if b != "" {
        q := r.(resource := b, reason := c + "|" + r.reason);
        assert |q.resource| < |r.resource|;
      } else {
        assert "" + "|" == "|" && c != "";
        q := r.(user := r.user + "|" + b, resource := c);
        assert |r.user| < |q.user|;
      }
    }
  }

  /** A message that approvers sign belongs to a single request that can be granted exactly when its
      bars are at such edges: a request refused for its missing fields does not count. */
  lemma MessageBindsIff(r: Request)
    requires Complete(r)
    ensures (forall q :: Complete(q) && CanonicalMessage(q) == CanonicalMessage(r) ==> Signed(q) == Signed(r))
            <==> BarsAtEdges(r)
  {
    if BarsAtEdges(r) {
      forall q | Complete(q) && CanonicalMessage(q) == CanonicalMessage(r) ensures Signed(q) == Signed(r) {
        SameBody(r, q);
        OneCut(r, q);
      }
    } else {
      var q := BarIsReplayable(r);
      assert Complete(q) && CanonicalMessage(q) == CanonicalMessage(r) && Signed(q) != Signed(r);
    }
  }

  /** Two requests that share a message, one with a bar in the user and one in the reason only. */
  lemma BarsCollide()
    ensures var r, q := Request("a|b", "c", "d", 5, []), Request("a", "b", "c|d", 5, []);
            CanonicalMessage(r) == CanonicalMessage(q) && Signed(r) != Signed(q)
  {
  }
}
