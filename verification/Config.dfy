/** Validation of the configuration file, its defaults, and what it does not check. */
module Config {
  import opened Clock
  import opened Tokens
  import opened Protocol

  /** The settings that validation looks at. */
  datatype Settings = Settings(
    serverAddr: string,
    session: Limits,
    vaultAddr: string,
    vaultTtl: Duration,
    pagerDutyToken: string,
    jiraToken: string)

  /** The first check that a configuration fails, in the order of the checks. */
  datatype Rejection =
    | NoServerAddr
    | TtlNotPositive
    | TtlTooLong
    | NoVaultAddr
    | VaultTtlOutOfRange
    | NoPagerDutyToken
    | NoJiraToken
    | SessionTooLong

  datatype Result = Valid(settings: Settings) | Rejected(why: Rejection)

  /** Missing session limits are filled in, and the session ceiling is checked afterwards. */
  function WithSessionDefaults(raw: Limits): Limits {
    Limits(raw.ttl,
           if raw.maxSession <= 0 then MAX_SESSION else raw.maxSession,
           if raw.warningBefore <= 0 then DEFAULT_WARNING else raw.warningBefore)
  }

  function Validate(c: Settings): Result {
    if c.serverAddr == "" then Rejected(NoServerAddr)
    else if c.session.ttl <= 0 then Rejected(TtlNotPositive)
    else if c.session.ttl > MAX_TTL then Rejected(TtlTooLong)
    else if c.vaultAddr == "" then Rejected(NoVaultAddr)
    else if c.vaultTtl <= 0 || c.vaultTtl > MAX_TTL then Rejected(VaultTtlOutOfRange)
    else if c.pagerDutyToken == "" then Rejected(NoPagerDutyToken)
    else if c.jiraToken == "" then Rejected(NoJiraToken)
    else if WithSessionDefaults(c.session).maxSession > MAX_SESSION then Rejected(SessionTooLong)
    else Valid(c.(session := WithSessionDefaults(c.session)))
  }

  /** Validation accepts exactly a complete configuration with ttls of at most 60 minutes and a session
      of at most 4 hours. What it accepts is within the hard limits that the run theorems
      assume, differs only in defaults, and is accepted unchanged a second time. */
  lemma ValidationIsSound(c: Settings)
    ensures Validate(c).Valid? <==>
            && c.serverAddr != "" && c.vaultAddr != "" && c.pagerDutyToken != "" && c.jiraToken != ""
            && 0 < c.session.ttl <= 3_600_000_000_000 && 0 < c.vaultTtl <= 3_600_000_000_000
            && c.session.maxSession <= 14_400_000_000_000
    ensures Validate(c).Valid? ==>
              var v := Validate(c).settings;
              && AcceptedLimits(v.session) && v == c.(session := v.session)
              && Validate(v) == Valid(v)
    ensures Validate(c).Valid? && AcceptedLimits(c.session) ==> Validate(c) == Valid(c)
  {
  }

  /** The defaults: a session of 4 hours and a warning 15 minutes ahead, each where none is set; a ttl
      has none. */
  lemma MissingLimitsAreFilledIn(c: Settings)
    ensures Validate(c).Valid? ==>
              var l := Validate(c).settings.session;
              && l.ttl == c.session.ttl
              && l.maxSession == (if c.session.maxSession > 0 then c.session.maxSession else 14_400_000_000_000)
              && l.warningBefore == (if c.session.warningBefore > 0 then c.session.warningBefore
                                     else 900_000_000_000)
  {
  }

  /** A rejection names a check that fails, after checks that all hold. */
  lemma FirstFailingCheckIsNamed(c: Settings)
    requires Validate(c).Rejected?
    ensures var holds := [
              c.serverAddr != "", c.session.ttl > 0, c.session.ttl <= 3_600_000_000_000, c.vaultAddr != "",
              0 < c.vaultTtl <= 3_600_000_000_000, c.pagerDutyToken != "", c.jiraToken != "",
              c.session.maxSession <= 14_400_000_000_000];
            var checks := [NoServerAddr, TtlNotPositive, TtlTooLong, NoVaultAddr, VaultTtlOutOfRange,
                           NoPagerDutyToken, NoJiraToken, SessionTooLong];
            exists k :: 0 <= k < 8 && checks[k] == Validate(c).why && !holds[k] && forall i :: 0 <= i < k ==> holds[i]
  {
    var checks := [NoServerAddr, TtlNotPositive, TtlTooLong, NoVaultAddr, VaultTtlOutOfRange,
                   NoPagerDutyToken, NoJiraToken, SessionTooLong];
    var k := match Validate(c).why
      case NoServerAddr => 0
      case TtlNotPositive => 1
      case TtlTooLong => 2
      case NoVaultAddr => 3
      case VaultTtlOutOfRange => 4
      case NoPagerDutyToken => 5
      case NoJiraToken => 6
      case SessionTooLong => 7;
    assert checks[k] == Validate(c).why;
  }
}
