/** The session entity: its value, its shared mutable object, and the configured limits. */
module Tokens {
  import opened Clock

  datatype Option<+T> = None | Some(value: T)

  /** All fields of an issued token at one moment. */
  datatype Token = Token(
    id: string,
    user: string,
    resource: string,
    secret: string,
    provider: string,
    issuedAt: Instant,
    expiresAt: Instant,
    originalIssuedAt: Instant,
    extensionCount: int,
    revoked: bool,
    notifiedExpiry: bool,
    justificationType: string,
    justificationRef: string)

  /** Session guardrails handed to the store. */
  datatype Limits = Limits(ttl: Duration, maxSession: Duration, warningBefore: Duration)

  datatype IssueAnswer = Issued(t: Token) | Failed(error: string)

  /** The provider's answer to an issue request: user, resource and requested ttl. */
  type Issuer = (string, string, Duration) -> IssueAnswer

  /** A tracked token. The map and the heap of the store share these objects. */
  class IssuedToken {
    const id: string
    const user: string
    const resource: string
    const provider: string
    const issuedAt: Instant
    var secret: string
    var expiresAt: Instant
    var originalIssuedAt: Instant
    var extensionCount: int
    var revoked: bool
    var notifiedExpiry: bool
    var justificationType: string
    var justificationRef: string

    constructor (v: Token)
      ensures Value() == v
      ensures id == v.id && user == v.user && resource == v.resource && provider == v.provider
      ensures secret == v.secret && issuedAt == v.issuedAt && expiresAt == v.expiresAt
      ensures originalIssuedAt == v.originalIssuedAt && extensionCount == v.extensionCount
      ensures revoked == v.revoked && notifiedExpiry == v.notifiedExpiry
      ensures justificationType == v.justificationType && justificationRef == v.justificationRef
    {
      id, user, resource, provider, issuedAt := v.id, v.user, v.resource, v.provider, v.issuedAt;
      secret, expiresAt, originalIssuedAt := v.secret, v.expiresAt, v.originalIssuedAt;
      extensionCount, revoked, notifiedExpiry := v.extensionCount, v.revoked, v.notifiedExpiry;
      justificationType, justificationRef := v.justificationType, v.justificationRef;
    }

    function Value(): Token
      reads this
    {
      Token(id, user, resource, secret, provider, issuedAt, expiresAt, originalIssuedAt,
            extensionCount, revoked, notifiedExpiry, justificationType, justificationRef)
    }
  }
}
