/**
 * The JWT strategy of the playlist back end: once passport has checked a
 * bearer token's signature and expiry, `validate` turns its claims into the
 * request's user.
 */
module JwtStrategy {
  import opened Wrappers
  import AuthService

  /** The decoded claims; a claim the token lacks is `None`. */
  datatype Claims = Claims(sub: Option<string>, email: Option<string>)

  /** `request.user`. */
  datatype RequestUser = RequestUser(id: string, email: string)

  /** `UnauthorizedException`. */
  datatype Unauthorized = Unauthorized(message: string)

  const InvalidToken := "Invalid token"

  /** A claim JavaScript reads as truthy: present and not the empty string. */
  predicate Truthy(claim: Option<string>) {
    claim.Some? && claim.value != []
  }

  /** `validate`: both claims truthy, or Unauthorized. */
  function Validate(claims: Claims): (r: Result<RequestUser, Unauthorized>)
    ensures r.Success? <==> Truthy(claims.sub) && Truthy(claims.email)
    ensures r.Success? ==> r.value.id == claims.sub.value && r.value.email == claims.email.value
    ensures r.Failure? ==> r.error == Unauthorized(InvalidToken)
  {
    if !Truthy(claims.sub) || !Truthy(claims.email) then Failure(Unauthorized(InvalidToken))
    else Success(RequestUser(claims.sub.value, claims.email.value))
  }

  /** The claims a token signed by the authentication service carries. */
  function ClaimsOf(p: AuthService.TokenPayload): (c: Claims)
    ensures c.sub == Some(p.sub) && c.email == Some(p.email)
  {
    Claims(Some(p.sub), Some(p.email))
  }

  /** A missing or empty `sub` is rejected, whatever the email. */
  lemma RejectsWithoutSub(email: Option<string>)
    ensures Validate(Claims(None, email)) == Failure(Unauthorized(InvalidToken))
    ensures Validate(Claims(Some(""), email)) == Failure(Unauthorized(InvalidToken))
  {
  }

  /** A missing or empty `email` is rejected, whatever the subject. */
  lemma RejectsWithoutEmail(sub: Option<string>)
    ensures Validate(Claims(sub, None)) == Failure(Unauthorized(InvalidToken))
    ensures Validate(Claims(sub, Some(""))) == Failure(Unauthorized(InvalidToken))
  {
  }

  /**
   * A token the authentication service issued for a user with a non-empty id
   * and email identifies exactly that user.
   */
  lemma IssuedTokenValidates(user: AuthService.User)
    requires user.id != [] && user.email != []
    ensures Validate(ClaimsOf(AuthService.PayloadOf(user))) == Success(RequestUser(user.id, user.email))
  {
  }
}
