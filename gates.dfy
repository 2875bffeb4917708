/** The authorization gate: resolves the acting user from a bearer token, then the two
    role predicates stacked on top of it. */
module Gates {
  import opened Wrappers
  import opened Tokens
  import opened Store

  const CREDENTIALS_DETAIL: string := "Could not validate credentials"
  const INACTIVE_DETAIL: string := "Inactive user"
  const NOT_OPS_DETAIL: string := "Not an operations user"

  /** The token decodes at `now` and its subject is `email`. */
  predicate NamesSubject(bearer: Jwt, now: int, email: string) {
    Decode(bearer, now).Some? && "sub" in bearer.claims && bearer.claims["sub"] == Str(email)
  }

  /** get_current_user: the id of the user the token names, or 401 when the token does not
      decode, carries no subject, or names nobody. */
  function CurrentUser(users: map<int, User>, nextUserId: int, bearer: Jwt, now: int): (r: Result<int>)
    ensures r.Err? ==> r == Err(401, CREDENTIALS_DETAIL)
    ensures r.Ok? ==> r.value in users && NamesSubject(bearer, now, users[r.value].email)
  {
    match Decode(bearer, now)
    case None => Err(401, CREDENTIALS_DETAIL)
    case Some(payload) =>
      if "sub" !in payload then Err(401, CREDENTIALS_DETAIL)
      else match payload["sub"]
        case Time(_) => Err(401, CREDENTIALS_DETAIL)
        case Str(email) =>
          match UserByEmail(users, nextUserId, email)
          case None => Err(401, CREDENTIALS_DETAIL)
          case Some(id) => Ok(id)
  }

  /** get_current_active_user: as CurrentUser, then 400 for an inactive user. */
  function CurrentActiveUser(users: map<int, User>, nextUserId: int, bearer: Jwt, now: int): (r: Result<int>)
    ensures r.Ok? ==> CurrentUser(users, nextUserId, bearer, now) == r && users[r.value].isActive
    ensures CurrentUser(users, nextUserId, bearer, now).Err? ==> r == CurrentUser(users, nextUserId, bearer, now)
    ensures CurrentUser(users, nextUserId, bearer, now).Ok? && r.Err? ==> r == Err(400, INACTIVE_DETAIL)
    ensures var who := CurrentUser(users, nextUserId, bearer, now);
            r.Ok? <==> who.Ok? && users[who.value].isActive
  {
    var who := CurrentUser(users, nextUserId, bearer, now);
    if who.Err? then who
    else if !users[who.value].isActive then Err(400, INACTIVE_DETAIL)
    else who
  }

  /** get_current_ops_user: as CurrentUser, then 403 for a user without the ops role.
      It does not look at is_active. */
  function CurrentOpsUser(users: map<int, User>, nextUserId: int, bearer: Jwt, now: int): (r: Result<int>)
    ensures r.Ok? ==> CurrentUser(users, nextUserId, bearer, now) == r && users[r.value].isOpsUser
    ensures CurrentUser(users, nextUserId, bearer, now).Err? ==> r == CurrentUser(users, nextUserId, bearer, now)
    ensures CurrentUser(users, nextUserId, bearer, now).Ok? && r.Err? ==> r == Err(403, NOT_OPS_DETAIL)
    ensures var who := CurrentUser(users, nextUserId, bearer, now);
            r.Ok? <==> who.Ok? && users[who.value].isOpsUser
  {
    var who := CurrentUser(users, nextUserId, bearer, now);
    if who.Err? then who
    else if !users[who.value].isOpsUser then Err(403, NOT_OPS_DETAIL)
    else who
  }

  /** Converse of CurrentUser's contract: in a valid users table, a token that decodes and
      names a user's email resolves to that user. */
  lemma CurrentUserResolves(users: map<int, User>, nextUserId: int, bearer: Jwt, now: int, id: int)
    requires UsersValid(users, nextUserId) && id in users
    ensures CurrentUser(users, nextUserId, bearer, now) == Ok(id) <==> NamesSubject(bearer, now, users[id].email)
  {
    if NamesSubject(bearer, now, users[id].email) {
      UserByEmailFinds(users, nextUserId, id);
    }
  }

  /** The ops gate lets an inactive ops user through, unlike the active gate. */
  lemma OpsGateIgnoresActive(users: map<int, User>, nextUserId: int, bearer: Jwt, now: int, id: int)
    requires UsersValid(users, nextUserId) && id in users
    requires NamesSubject(bearer, now, users[id].email)
    requires users[id].isOpsUser && !users[id].isActive
    ensures CurrentOpsUser(users, nextUserId, bearer, now) == Ok(id)
    ensures CurrentActiveUser(users, nextUserId, bearer, now) == Err(400, INACTIVE_DETAIL)
  {
    CurrentUserResolves(users, nextUserId, bearer, now, id);
  }
}
