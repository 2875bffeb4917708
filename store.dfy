/** The two tables of the credential store and the queries the handlers run on them.
    A table maps row ids to rows; rows are never deleted, so the ids in use are exactly
    1 up to (not including) the table's next id. */
module Store {
  import opened Wrappers

  newtype Byte = x: int | 0 <= x < 256

  /** A row of the users table. */
  datatype User = User(
    email: string,
    hashedPassword: string,
    isActive: bool,
    isOpsUser: bool,
    isVerified: bool,
    verificationToken: Option<string>)

  /** A row of the files table (its upload date is not modelled). */
  datatype FileRecord = FileRecord(filename: string, uploadedBy: int, downloadToken: string)

  /** Length of a token drawn from the token oracle: 32 random bytes in unpadded base64url. */
  const TOKEN_LENGTH: nat := 43

  /** The ids in [lo, hi) whose row satisfies `keep`, in ascending order: the rows a
      filtered query returns when scanned in id order. */
  function Query<T>(table: map<int, T>, lo: int, hi: int, keep: T -> bool): (ids: seq<int>)
    decreases hi - lo
    ensures forall i :: 0 <= i < |ids| ==> lo <= ids[i] < hi && ids[i] in table && keep(table[ids[i]])
    ensures forall id :: lo <= id < hi && id in table && keep(table[id]) ==> id in ids
    ensures forall i, j :: 0 <= i < j < |ids| ==> ids[i] < ids[j]
  {
    if hi <= lo then []
    else if lo in table && keep(table[lo]) then [lo] + Query(table, lo + 1, hi, keep)
    else Query(table, lo + 1, hi, keep)
  }

  /** The first row of a query result, if any. */
  function First(ids: seq<int>): (r: Option<int>)
    ensures r.Some? <==> |ids| > 0
    ensures r.Some? ==> r.value == ids[0]
  {
    if |ids| == 0 then None else Some(ids[0])
  }

  /** The ids a table uses: exactly 1 up to `next`. */
  ghost predicate Dense<T>(table: map<int, T>, next: int) {
    1 <= next && forall id :: id in table <==> 1 <= id < next
  }

  /** `users.filter(email == email).first()`. */
  function UserByEmail(users: map<int, User>, nextUserId: int, email: string): (r: Option<int>)
    ensures r.Some? ==> r.value in users && users[r.value].email == email
    ensures r.None? ==> forall id :: 1 <= id < nextUserId && id in users ==> users[id].email != email
    ensures r.Some? ==> forall id :: 1 <= id < r.value && id in users ==> users[id].email != email
  {
    First(Query(users, 1, nextUserId, (u: User) => u.email == email))
  }

  /** `users.filter(verification_token == token).first()`; an absent token matches no string. */
  function UserByVerificationToken(users: map<int, User>, nextUserId: int, token: string): (r: Option<int>)
    ensures r.Some? ==> r.value in users && users[r.value].verificationToken == Some(token)
    ensures r.None? ==> forall id :: 1 <= id < nextUserId && id in users ==> users[id].verificationToken != Some(token)
  {
    First(Query(users, 1, nextUserId, (u: User) => u.verificationToken == Some(token)))
  }

  /** `files.filter(download_token == token).first()`. */
  function FileByDownloadToken(files: map<int, FileRecord>, nextFileId: int, token: string): (r: Option<int>)
    ensures r.Some? ==> r.value in files && files[r.value].downloadToken == token
    ensures r.None? ==> forall id :: 1 <= id < nextFileId && id in files ==> files[id].downloadToken != token
  {
    First(Query(files, 1, nextFileId, (f: FileRecord) => f.downloadToken == token))
  }

  /** The users table as the handlers keep it: unique emails, unique verification tokens,
      and a user is verified exactly when its verification token has been cleared. */
  ghost predicate UsersValid(users: map<int, User>, nextUserId: int) {
    Dense(users, nextUserId)
    && (forall i, j :: i in users && j in users && users[i].email == users[j].email ==> i == j)
    && (forall i, j ::
          i in users && j in users && users[i].verificationToken.Some? && users[i].verificationToken == users[j].verificationToken
          ==> i == j)
    && (forall id :: id in users ==> (users[id].isVerified <==> users[id].verificationToken.None?))
  }

  /** The files table as the handlers keep it: every owner exists, download tokens are
      unique and have the oracle's length. */
  ghost predicate FilesValid(files: map<int, FileRecord>, nextFileId: int, users: map<int, User>) {
    Dense(files, nextFileId)
    && (forall id :: id in files ==> files[id].uploadedBy in users && |files[id].downloadToken| == TOKEN_LENGTH)
    && (forall i, j :: i in files && j in files && files[i].downloadToken == files[j].downloadToken ==> i == j)
  }

  /** In a valid users table, the user holding an email is the one the lookup finds. */
  lemma UserByEmailFinds(users: map<int, User>, nextUserId: int, id: int)
    requires UsersValid(users, nextUserId) && id in users
    ensures UserByEmail(users, nextUserId, users[id].email) == Some(id)
  {
    var r := UserByEmail(users, nextUserId, users[id].email);
    assert 1 <= id < nextUserId;
    assert r.Some?;
  }

  /** In a valid users table, the user holding a verification token is the one the lookup finds. */
  lemma UserByVerificationTokenFinds(users: map<int, User>, nextUserId: int, id: int, token: string)
    requires UsersValid(users, nextUserId) && id in users && users[id].verificationToken == Some(token)
    ensures UserByVerificationToken(users, nextUserId, token) == Some(id)
  {
    assert 1 <= id < nextUserId;
  }

  /** In a valid files table, the record holding a download token is the one the lookup finds. */
  lemma FileByDownloadTokenFinds(files: map<int, FileRecord>, nextFileId: int, users: map<int, User>, id: int)
    requires FilesValid(files, nextFileId, users) && id in files
    ensures FileByDownloadToken(files, nextFileId, files[id].downloadToken) == Some(id)
  {
    assert 1 <= id < nextFileId;
  }
}
