/** The service's state and the three endpoints that change it: signup, email verification
    and file upload. The other endpoints only read this state and are the functions of
    Gates, Accounts and Transfer applied to the fields. */
module App {
  import opened Wrappers
  import opened Tokens
  import opened Store
  import opened Gates
  import opened Accounts
  import opened Transfer

  const DUPLICATE_EMAIL_DETAIL: string := "Email already registered"
  const INVALID_VERIFICATION_DETAIL: string := "Invalid verification token"
  const VERIFIED_MESSAGE: string := "Email verified successfully"
  const UPLOADED_MESSAGE: string := "File uploaded successfully"

  /** The response body of upload_file. */
  datatype UploadResponse = UploadResponse(message: string, downloadToken: string)

  /** The row signup inserts: active and unverified by the column defaults, holding its
      verification token. */
  function NewUser(email: string, hashedPassword: string, isOpsUser: bool, verificationToken: string): (u: User)
    ensures u.email == email && u.hashedPassword == hashedPassword && u.isOpsUser == isOpsUser
    ensures u.isActive && !u.isVerified && u.verificationToken == Some(verificationToken)
  {
    User(email, hashedPassword, true, isOpsUser, false, Some(verificationToken))
  }

  /** A user after verify_email: verified, its token cleared, nothing else changed. */
  function Verified(u: User): (v: User)
    ensures v.isVerified && v.verificationToken.None?
    ensures v.email == u.email && v.hashedPassword == u.hashedPassword
    ensures v.isActive == u.isActive && v.isOpsUser == u.isOpsUser
  {
    u.(isVerified := true, verificationToken := None)
  }

  /** No user holds this verification token (what the token oracle is assumed to give). */
  ghost predicate VerificationTokenUnused(users: map<int, User>, token: string) {
    forall id :: id in users ==> users[id].verificationToken != Some(token)
  }

  /** No file holds this download token, and it has the oracle's length. */
  ghost predicate DownloadTokenUnused(files: map<int, FileRecord>, token: string) {
    |token| == TOKEN_LENGTH && forall id :: id in files ==> files[id].downloadToken != token
  }

  /** Every file row's blob is on disk. */
  ghost predicate BlobsValid(files: map<int, FileRecord>, blobs: map<string, seq<Byte>>) {
    forall id :: id in files ==> BlobPath(files[id].downloadToken, files[id].filename) in blobs
  }

  ghost predicate StoreValid(users: map<int, User>, nextUserId: int, files: map<int, FileRecord>, nextFileId: int,
                             blobs: map<string, seq<Byte>>)
  {
    UsersValid(users, nextUserId) && FilesValid(files, nextFileId, users) && BlobsValid(files, blobs)
  }

  class FileShare {
    var users: map<int, User>
    var nextUserId: int
    var files: map<int, FileRecord>
    var nextFileId: int
    var blobs: map<string, seq<Byte>>

    ghost predicate Valid()
      reads this
    {
      StoreValid(users, nextUserId, files, nextFileId, blobs)
    }

    /** Empty tables and an empty upload directory. */
    constructor ()
      ensures Valid()
      ensures users == map[] && nextUserId == 1 && files == map[] && nextFileId == 1 && blobs == map[]
    {
      users, nextUserId := map[], 1;
      files, nextFileId := map[], 1;
      blobs := map[];
    }

    /** signup: 400 when the email is registered; otherwise inserts one unverified user
        holding a fresh verification token and returns a session token for the email. The
        verification email is not modelled. */
    method Signup(email: string, hashedPassword: string, isOpsUser: bool, verificationToken: string, now: int)
      returns (r: Result<TokenResponse>)
      requires Valid()
      requires VerificationTokenUnused(users, verificationToken)
      modifies this
      ensures Valid()
      ensures files == old(files) && nextFileId == old(nextFileId) && blobs == old(blobs)
      ensures UserByEmail(old(users), old(nextUserId), email).Some? ==>
                r == Err(400, DUPLICATE_EMAIL_DETAIL) && users == old(users) && nextUserId == old(nextUserId)
      ensures UserByEmail(old(users), old(nextUserId), email).None? ==>
                r == Ok(TokenResponse(SessionToken(email, now), "bearer"))
                && users == old(users)[old(nextUserId) := NewUser(email, hashedPassword, isOpsUser, verificationToken)]
                && nextUserId == old(nextUserId) + 1
      ensures UserByEmail(users, nextUserId, email).Some?
    {
      var existing := UserByEmail(users, nextUserId, email);
      if existing.Some? {
        r := Err(400, DUPLICATE_EMAIL_DETAIL);
        return;
      }
      SignupPreservesValid(users, nextUserId, files, nextFileId, blobs, email, hashedPassword, isOpsUser, verificationToken);
      users := users[nextUserId := NewUser(email, hashedPassword, isOpsUser, verificationToken)];
      nextUserId := nextUserId + 1;
      r := Ok(TokenResponse(SessionToken(email, now), "bearer"));
    }

    /** verify_email: 400 when no user holds the token; otherwise that user becomes verified
        and loses its token. Either way no user holds the token afterwards. */
    method VerifyEmail(token: string) returns (r: Result<string>)
      requires Valid()
      modifies this
      ensures Valid()
      ensures files == old(files) && nextFileId == old(nextFileId) && blobs == old(blobs) && nextUserId == old(nextUserId)
      ensures UserByVerificationToken(old(users), old(nextUserId), token).None? ==>
                r == Err(400, INVALID_VERIFICATION_DETAIL) && users == old(users)
      ensures UserByVerificationToken(old(users), old(nextUserId), token).Some? ==>
                var id := UserByVerificationToken(old(users), old(nextUserId), token).value;
                r == Ok(VERIFIED_MESSAGE) && users == old(users)[id := Verified(old(users)[id])]
      ensures UserByVerificationToken(users, nextUserId, token).None?
    {
      var holder := UserByVerificationToken(users, nextUserId, token);
      if holder.None? {
        r := Err(400, INVALID_VERIFICATION_DETAIL);
        return;
      }
      var id := holder.value;
      VerificationConsumesToken(users, nextUserId, token);
      var user := users[id];
      user := user.(isVerified := true);
      user := user.(verificationToken := None);
      users := users[id := user];
      r := Ok(VERIFIED_MESSAGE);
    }

    /** upload_file: the ops gate, then the extension allow-list; a refused upload writes
        nothing. An admitted one adds one file row owned by the uploader under a fresh download
        token, then writes the content at the blob path of that token and filename. */
    method UploadFile(bearer: Jwt, now: int, filename: string, content: seq<Byte>, downloadToken: string)
      returns (r: Result<UploadResponse>)
      requires Valid()
      requires DownloadTokenUnused(files, downloadToken)
      modifies this
      ensures Valid()
      ensures users == old(users) && nextUserId == old(nextUserId)
      ensures UploadAdmission(users, nextUserId, bearer, now, filename).Err? ==>
                r == UploadAdmission(users, nextUserId, bearer, now, filename).Raise()
                && files == old(files) && nextFileId == old(nextFileId) && blobs == old(blobs)
      ensures UploadAdmission(users, nextUserId, bearer, now, filename).Ok? ==>
                var uploader := UploadAdmission(users, nextUserId, bearer, now, filename).value;
                r == Ok(UploadResponse(UPLOADED_MESSAGE, downloadToken))
                && files == old(files)[old(nextFileId) := FileRecord(filename, uploader, downloadToken)]
                && nextFileId == old(nextFileId) + 1
                && blobs == old(blobs)[BlobPath(downloadToken, filename) := content]
    {
      var admission := UploadAdmission(users, nextUserId, bearer, now, filename);
      if admission.Err? {
        r := admission.Raise();
        return;
      }
      var uploader := admission.value;
      UploadPreservesValid(users, nextUserId, files, nextFileId, blobs, uploader, filename, content, downloadToken);
      files := files[nextFileId := FileRecord(filename, uploader, downloadToken)];
      nextFileId := nextFileId + 1;
      blobs := blobs[BlobPath(downloadToken, filename) := content];
      r := Ok(UploadResponse(UPLOADED_MESSAGE, downloadToken));
    }
  }

  /** Signup of an unregistered email keeps the store valid, and the email is then taken,
      so a second signup with it fails. */
  lemma SignupPreservesValid(users: map<int, User>, nextUserId: int, files: map<int, FileRecord>, nextFileId: int,
                             blobs: map<string, seq<Byte>>,
                             email: string, hashedPassword: string, isOpsUser: bool, verificationToken: string)
    requires StoreValid(users, nextUserId, files, nextFileId, blobs)
    requires UserByEmail(users, nextUserId, email).None?
    requires VerificationTokenUnused(users, verificationToken)
    ensures var users' := users[nextUserId := NewUser(email, hashedPassword, isOpsUser, verificationToken)];
            StoreValid(users', nextUserId + 1, files, nextFileId, blobs)
            && UserByEmail(users', nextUserId + 1, email) == Some(nextUserId)
  {
    var users' := users[nextUserId := NewUser(email, hashedPassword, isOpsUser, verificationToken)];
    assert UsersValid(users', nextUserId + 1);
    UserByEmailFinds(users', nextUserId + 1, nextUserId);
  }

  /** Verifying the holder of a token keeps the users table valid and leaves the token held
      by nobody, so the same token is refused the next time. */
  lemma VerificationConsumesToken(users: map<int, User>, nextUserId: int, token: string)
    requires UsersValid(users, nextUserId)
    requires UserByVerificationToken(users, nextUserId, token).Some?
    ensures var id := UserByVerificationToken(users, nextUserId, token).value;
            var users' := users[id := Verified(users[id])];
            UsersValid(users', nextUserId) && UserByVerificationToken(users', nextUserId, token).None?
  {
    var id := UserByVerificationToken(users, nextUserId, token).value;
    var users' := users[id := Verified(users[id])];
    forall j | j in users' ensures users'[j].verificationToken != Some(token) {
      if j != id {
        assert users[j].verificationToken != Some(token);
      }
    }
  }

  /** An admitted upload keeps the store valid, and its token finds the new row. */
  lemma UploadPreservesValid(users: map<int, User>, nextUserId: int, files: map<int, FileRecord>, nextFileId: int,
                             blobs: map<string, seq<Byte>>,
                             uploader: int, filename: string, content: seq<Byte>, downloadToken: string)
    requires StoreValid(users, nextUserId, files, nextFileId, blobs)
    requires uploader in users
    requires DownloadTokenUnused(files, downloadToken)
    ensures var files' := files[nextFileId := FileRecord(filename, uploader, downloadToken)];
            var blobs' := blobs[BlobPath(downloadToken, filename) := content];
            StoreValid(users, nextUserId, files', nextFileId + 1, blobs')
            && FileByDownloadToken(files', nextFileId + 1, downloadToken) == Some(nextFileId)
  {
    var files' := files[nextFileId := FileRecord(filename, uploader, downloadToken)];
    assert FilesValid(files', nextFileId + 1, users);
    FileByDownloadTokenFinds(files', nextFileId + 1, users, nextFileId);
  }

  /** An upload does not touch the content of any earlier file: tokens have one length and
      the new token is fresh, so the new blob path differs from every existing row's. */
  lemma UploadKeepsOtherBlobs(users: map<int, User>, nextUserId: int, files: map<int, FileRecord>, nextFileId: int,
                              blobs: map<string, seq<Byte>>, filename: string, content: seq<Byte>, downloadToken: string)
    requires StoreValid(users, nextUserId, files, nextFileId, blobs)
    requires DownloadTokenUnused(files, downloadToken)
    ensures var blobs' := blobs[BlobPath(downloadToken, filename) := content];
            forall id :: id in files ==>
              var p := BlobPath(files[id].downloadToken, files[id].filename);
              p in blobs' && blobs'[p] == blobs[p]
  {
    forall id | id in files
      ensures BlobPath(files[id].downloadToken, files[id].filename) != BlobPath(downloadToken, filename)
    {
      if BlobPath(files[id].downloadToken, files[id].filename) == BlobPath(downloadToken, filename) {
        BlobPathInjective(files[id].downloadToken, files[id].filename, downloadToken, filename);
        assert false;
      }
    }
  }

  /** Upload followed by download: any active non-ops user presenting the new token is
      served the blob just written, under the uploaded filename. */
  lemma UploadThenDownload(users: map<int, User>, nextUserId: int, files: map<int, FileRecord>, nextFileId: int,
                           blobs: map<string, seq<Byte>>,
                           uploader: int, filename: string, content: seq<Byte>, downloadToken: string,
                           bearer: Jwt, now: int)
    requires StoreValid(users, nextUserId, files, nextFileId, blobs)
    requires uploader in users
    requires DownloadTokenUnused(files, downloadToken)
    requires CurrentActiveUser(users, nextUserId, bearer, now).Ok?
    requires !users[CurrentActiveUser(users, nextUserId, bearer, now).value].isOpsUser
    ensures var files' := files[nextFileId := FileRecord(filename, uploader, downloadToken)];
            var blobs' := blobs[BlobPath(downloadToken, filename) := content];
            DownloadFile(users, nextUserId, files', nextFileId + 1, blobs', bearer, now, downloadToken)
              == Ok(Download(BlobPath(downloadToken, filename), filename))
            && blobs'[BlobPath(downloadToken, filename)] == content
  {
    UploadPreservesValid(users, nextUserId, files, nextFileId, blobs, uploader, filename, content, downloadToken);
  }

  /** The token signup returns already passes the authentication gate, for 30 minutes,
      although the new user is not verified (the gates never look at is_verified). */
  lemma SignupTokenAuthenticatesUnverified(users: map<int, User>, nextUserId: int, files: map<int, FileRecord>,
                                           nextFileId: int, blobs: map<string, seq<Byte>>,
                                           email: string, hashedPassword: string, isOpsUser: bool,
                                           verificationToken: string, issuedAt: int, now: int)
    requires StoreValid(users, nextUserId, files, nextFileId, blobs)
    requires UserByEmail(users, nextUserId, email).None?
    requires VerificationTokenUnused(users, verificationToken)
    ensures var users' := users[nextUserId := NewUser(email, hashedPassword, isOpsUser, verificationToken)];
            !users'[nextUserId].isVerified
            && (CurrentUser(users', nextUserId + 1, SessionToken(email, issuedAt), now) == Ok(nextUserId)
                <==> now < issuedAt + ACCESS_TOKEN_EXPIRE_MINUTES)
  {
    var users' := users[nextUserId := NewUser(email, hashedPassword, isOpsUser, verificationToken)];
    SignupPreservesValid(users, nextUserId, files, nextFileId, blobs, email, hashedPassword, isOpsUser, verificationToken);
    SessionTokenLifetime(email, issuedAt, now);
    CurrentUserResolves(users', nextUserId + 1, SessionToken(email, issuedAt), now, nextUserId);
  }

  /** Login is refused with 403 after signup and succeeds once the verification token has
      been used, provided the password verifies against the stored digest. */
  lemma VerificationUnlocksLogin(users: map<int, User>, nextUserId: int, files: map<int, FileRecord>,
                                 nextFileId: int, blobs: map<string, seq<Byte>>,
                                 email: string, password: string, hashedPassword: string, isOpsUser: bool,
                                 verificationToken: string, verify: (string, string) -> bool, now: int)
    requires StoreValid(users, nextUserId, files, nextFileId, blobs)
    requires UserByEmail(users, nextUserId, email).None?
    requires VerificationTokenUnused(users, verificationToken)
    requires verify(password, hashedPassword)
    ensures var users' := users[nextUserId := NewUser(email, hashedPassword, isOpsUser, verificationToken)];
            var users'' := users'[nextUserId := Verified(users'[nextUserId])];
            LoginForAccessToken(users', nextUserId + 1, verify, email, password, now) == Err(403, UNVERIFIED_DETAIL)
            && UserByVerificationToken(users', nextUserId + 1, verificationToken) == Some(nextUserId)
            && LoginForAccessToken(users'', nextUserId + 1, verify, email, password, now)
               == Ok(TokenResponse(SessionToken(email, now), "bearer"))
  {
    var users' := users[nextUserId := NewUser(email, hashedPassword, isOpsUser, verificationToken)];
    SignupPreservesValid(users, nextUserId, files, nextFileId, blobs, email, hashedPassword, isOpsUser, verificationToken);
    UserByVerificationTokenFinds(users', nextUserId + 1, nextUserId, verificationToken);
    VerificationConsumesToken(users', nextUserId + 1, verificationToken);
    var users'' := users'[nextUserId := Verified(users'[nextUserId])];
    VerifiedUserLogsIn(users'', nextUserId + 1, verify, nextUserId, password, now);
  }
}
