/** app/lib/auth/jwt.go and the lifetime bounds of app/config/config.go. */
module Jwt {
  import opened Clock
  import opened Wrappers

  /** The two token lifetimes of the configuration. */
  datatype Lifetimes = Lifetimes(access: int, refresh: int) {
    /** The bounds that the configuration validator enforces at start-up. */
    predicate Valid() {
      0 < access <= HOUR && access < refresh
    }
  }

  type Config = c: Lifetimes | c.Valid() witness Lifetimes(15 * MINUTE, 720 * HOUR)

  datatype Role = RoleUser | RoleAdmin

  /** Also names the secret that signs the token: each kind has its own. */
  datatype TokenType = Access | Refresh

  /** The payload of a signed token. iat and exp are NumericDates: whole seconds. */
  datatype Claims = Claims(jti: Uuid, subject: Uuid, role: Role, typ: TokenType, iat: int, exp: int)

  datatype TokenPair = TokenPair(access: Claims, refresh: Claims, refreshExpiresAt: Time)

  datatype ParseError = InvalidToken | ExpiredToken

  function GenerateTokenPair(
      c: Config, now: Time, user: Uuid, role: Role, accessJti: Uuid, refreshJti: Uuid): TokenPair {
    var refreshExpiry := now + c.refresh;
    TokenPair(
      Claims(accessJti, user, role, Access, Unix(now), Unix(now + c.access)),
      Claims(refreshJti, user, role, Refresh, Unix(now), Unix(refreshExpiry)),
      refreshExpiry)
  }

  /**
   * Verification of a presented token. `genuine` says that this service signed
   * exactly these claims; the type test stands for the separate secrets as well
   * as for the typ claim. nbf equals iat in every token the service signs.
   */
  function Parse(t: Claims, genuine: bool, want: TokenType, now: Time): (r: Result<Claims, ParseError>) {
    if !genuine || t.typ != want then Err(InvalidToken)
    else if !(now < t.exp * SECOND) then Err(ExpiredToken)
    else if now < t.iat * SECOND then Err(InvalidToken)
    else Ok(t)
  }

  /** Access tokens live for up to an hour and refresh tokens longer than they do. */
  lemma LifetimeBounds(l: Lifetimes)
    ensures l.Valid() <==> 1 <= l.access <= 3600 * SECOND && l.access + 1 <= l.refresh
  {
  }

  /** A token of the right kind that this service signed counts from the second of its issue until its expiry. */
  lemma ParsedFromIssueToExpiry(t: Claims, genuine: bool, want: TokenType, now: Time)
    ensures Parse(t, genuine, want, now).Ok? <==> genuine && t.typ == want && t.iat * SECOND <= now < t.exp * SECOND
    ensures Parse(t, genuine, want, now) == Err(ExpiredToken) <==> genuine && t.typ == want && t.exp * SECOND <= now
    ensures Parse(t, genuine, want, now).Ok? ==> Parse(t, genuine, want, now).value == t
  {
  }
}
