/** Logging in: exchanging an email and password for a session token. */
module Accounts {
  import opened Wrappers
  import opened Tokens
  import opened Store
  import opened Gates

  const BAD_LOGIN_DETAIL: string := "Incorrect email or password"
  const UNVERIFIED_DETAIL: string := "Please verify your email first"

  /** The response body of signup and login. */
  datatype TokenResponse = TokenResponse(accessToken: Jwt, tokenType: string)

  /** The email is registered and `password` verifies against that user's digest, under the
      password hasher's `verify`. */
  predicate CredentialsMatch(users: map<int, User>, nextUserId: int, verify: (string, string) -> bool,
                             username: string, password: string)
    ensures CredentialsMatch(users, nextUserId, verify, username, password) ==>
              UserByEmail(users, nextUserId, username).Some?
              && users[UserByEmail(users, nextUserId, username).value].email == username
  {
    var found := UserByEmail(users, nextUserId, username);
    found.Some? && verify(password, users[found.value].hashedPassword)
  }

  /** login_for_access_token: 401 for an unknown email or a wrong password (checked first),
      403 for an unverified user, otherwise a 30-minute session token for that email. */
  function LoginForAccessToken(users: map<int, User>, nextUserId: int, verify: (string, string) -> bool,
                               username: string, password: string, now: int): (r: Result<TokenResponse>)
    ensures r.Err? && r.status == 401 <==> !CredentialsMatch(users, nextUserId, verify, username, password)
    ensures r.Err? ==> r == Err(401, BAD_LOGIN_DETAIL) || r == Err(403, UNVERIFIED_DETAIL)
    ensures r.Err? && r.status == 403 ==> !users[UserByEmail(users, nextUserId, username).value].isVerified
    ensures r.Ok? ==> CredentialsMatch(users, nextUserId, verify, username, password)
                      && users[UserByEmail(users, nextUserId, username).value].isVerified
                      && r.value == TokenResponse(SessionToken(username, now), "bearer")
  {
    var found := UserByEmail(users, nextUserId, username);
    if found.None? || !verify(password, users[found.value].hashedPassword) then Err(401, BAD_LOGIN_DETAIL)
    else if !users[found.value].isVerified then Err(403, UNVERIFIED_DETAIL)
    else Ok(TokenResponse(SessionToken(users[found.value].email, now), "bearer"))
  }

  /** The token a login hands out authenticates the user who logged in, for 30 minutes. */
  lemma LoginTokenAuthenticates(users: map<int, User>, nextUserId: int, verify: (string, string) -> bool,
                                username: string, password: string, issuedAt: int, now: int)
    requires UsersValid(users, nextUserId)
    requires LoginForAccessToken(users, nextUserId, verify, username, password, issuedAt).Ok?
    ensures var token := LoginForAccessToken(users, nextUserId, verify, username, password, issuedAt).value.accessToken;
            var id := UserByEmail(users, nextUserId, username).value;
            CurrentUser(users, nextUserId, token, now) == (if now < issuedAt + 30 then Ok(id) else Err(401, CREDENTIALS_DETAIL))
  {
    var id := UserByEmail(users, nextUserId, username).value;
    SessionTokenLifetime(username, issuedAt, now);
    CurrentUserResolves(users, nextUserId, SessionToken(username, issuedAt), now, id);
  }

  /** A verified user with the right password always gets a token, whatever else is in the store. */
  lemma VerifiedUserLogsIn(users: map<int, User>, nextUserId: int, verify: (string, string) -> bool,
                           id: int, password: string, now: int)
    requires UsersValid(users, nextUserId) && id in users
    requires users[id].isVerified && verify(password, users[id].hashedPassword)
    ensures LoginForAccessToken(users, nextUserId, verify, users[id].email, password, now)
            == Ok(TokenResponse(SessionToken(users[id].email, now), "bearer"))
  {
    UserByEmailFinds(users, nextUserId, id);
  }
}
