/** The bearer-token service: issuing access tokens and decoding them. The token is kept
    abstract: a claims dictionary and whether it carries a valid signature under the
    process key. Time is counted in minutes. */
module Tokens {
  import opened Wrappers

  /** Claim values that occur in this system's tokens: strings (the subject) and instants. */
  datatype ClaimValue = Str(s: string) | Time(t: int)

  type Claims = map<string, ClaimValue>

  /** A bearer token as the gate receives it. `signed` is false for anything not produced
      with the process key (forged, tampered with, or issued before a restart). */
  datatype Jwt = Jwt(claims: Claims, signed: bool)

  /** Lifetime of the tokens handed out at signup and login. */
  const ACCESS_TOKEN_EXPIRE_MINUTES: int := 30

  /** Lifetime used when no (or a zero) lifetime is passed. */
  const DEFAULT_EXPIRE_MINUTES: int := 15

  /** The expiry instant for a token issued at `now`. A zero delta is falsy in the source's
      `if expires_delta:`, so it falls back to the default like a missing one. */
  function ExpiryOf(expiresDelta: Option<int>, now: int): (exp: int)
    ensures expiresDelta.Some? && expiresDelta.value != 0 ==> exp == now + expiresDelta.value
    ensures expiresDelta.None? || expiresDelta.value == 0 ==> exp == now + DEFAULT_EXPIRE_MINUTES
  {
    match expiresDelta
    case Some(delta) => if delta != 0 then now + delta else now + DEFAULT_EXPIRE_MINUTES
    case None => now + DEFAULT_EXPIRE_MINUTES
  }

  /** Issues a signed token carrying every claim of `data` and an "exp" claim, which
      replaces any "exp" already in `data`. */
  function CreateAccessToken(data: Claims, expiresDelta: Option<int>, now: int): (token: Jwt)
    ensures token.signed
    ensures token.claims.Keys == data.Keys + {"exp"}
    ensures forall k :: k in data && k != "exp" ==> token.claims[k] == data[k]
    ensures token.claims["exp"] == Time(ExpiryOf(expiresDelta, now))
  {
    Jwt(data["exp" := Time(ExpiryOf(expiresDelta, now))], true)
  }

  /** Decodes a token at instant `now`: it fails on a bad signature, on an "exp" claim that is
      not an instant, once `now` has reached "exp" (section 4.1.4 of RFC 7519), and on a "sub"
      claim that is not a string (section 4.1.2 of RFC 7519). A token without "exp" never expires.
      Other registered claims ("nbf", "iat", "aud", ...) are not checked: the only signed tokens
      are those CreateAccessToken issues, and they carry just the caller's claims and "exp". */
  function Decode(token: Jwt, now: int): (payload: Option<Claims>)
    ensures payload.Some? ==> payload.value == token.claims && token.signed
    ensures payload.Some? && "exp" in token.claims ==> token.claims["exp"].Time? && now < token.claims["exp"].t
    ensures payload.Some? && "sub" in token.claims ==> token.claims["sub"].Str?
  {
    if !token.signed then None
    else if "exp" in token.claims && (!token.claims["exp"].Time? || token.claims["exp"].t <= now) then None
    else if "sub" in token.claims && !token.claims["sub"].Str? then None
    else Some(token.claims)
  }

  /** The claims the handlers put in a session token: the user's email as subject. */
  function SubjectClaims(email: string): (data: Claims)
    ensures data.Keys == {"sub"} && data["sub"] == Str(email)
  {
    map["sub" := Str(email)]
  }

  /** The session token issued by signup and login at `now`. */
  function SessionToken(email: string, now: int): (token: Jwt)
    ensures token.signed && token.claims.Keys == {"sub", "exp"}
    ensures token.claims["sub"] == Str(email) && token.claims["exp"] == Time(now + ACCESS_TOKEN_EXPIRE_MINUTES)
  {
    CreateAccessToken(SubjectClaims(email), Some(ACCESS_TOKEN_EXPIRE_MINUTES), now)
  }

  /** A token issued with subject claims decodes exactly while `now` is before its expiry:
      `delta` minutes after issue (15 when no or a zero delta is given). */
  lemma IssuedTokenLifetime(email: string, expiresDelta: Option<int>, issuedAt: int, now: int)
    ensures var token := CreateAccessToken(SubjectClaims(email), expiresDelta, issuedAt);
            Decode(token, now).Some? <==> now < ExpiryOf(expiresDelta, issuedAt)
  {
    var token := CreateAccessToken(SubjectClaims(email), expiresDelta, issuedAt);
    assert token.claims["sub"] == Str(email);
  }

  /** A session token is accepted for 30 minutes after issue and rejected from then on. */
  lemma SessionTokenLifetime(email: string, issuedAt: int, now: int)
    ensures Decode(SessionToken(email, issuedAt), now).Some? <==> now < issuedAt + 30
    ensures Decode(SessionToken(email, issuedAt), now).Some? ==> "sub" in SessionToken(email, issuedAt).claims && SessionToken(email, issuedAt).claims["sub"] == Str(email)
  {
    IssuedTokenLifetime(email, Some(ACCESS_TOKEN_EXPIRE_MINUTES), issuedAt, now);
  }
}
