/** A client of the service, as a walk-through: a regular user and an ops user sign up,
    verify and log in; the ops user uploads a document; only the regular user can download
    it. The hasher's digests and the oracle's tokens are parameters. */
module Scenario {
  import opened Wrappers
  import opened Tokens
  import opened Store
  import opened Gates
  import opened Accounts
  import opened Transfer
  import opened App

  /** Signs a new user up, verifies the address and logs in: the user ends up verified,
      and the session token names that user. */
  method Onboard(app: FileShare, verify: (string, string) -> bool, email: string, password: string,
                 digest: string, isOpsUser: bool, verificationToken: string, now: int)
    returns (id: int, bearer: Jwt)
    requires app.Valid() && verify(password, digest)
    requires UserByEmail(app.users, app.nextUserId, email).None?
    requires VerificationTokenUnused(app.users, verificationToken)
    modifies app
    ensures app.Valid()
    ensures id == old(app.nextUserId) && app.nextUserId == id + 1
    ensures app.users == old(app.users)[id := Verified(NewUser(email, digest, isOpsUser, verificationToken))]
    ensures app.files == old(app.files) && app.nextFileId == old(app.nextFileId) && app.blobs == old(app.blobs)
    ensures bearer == SessionToken(email, now)
  {
    ghost var before := app.users;
    var signedUp := app.Signup(email, digest, isOpsUser, verificationToken, now);
    id := app.nextUserId - 1;
    ghost var joined := app.users;
    assert joined == before[id := NewUser(email, digest, isOpsUser, verificationToken)];
    UserByVerificationTokenFinds(app.users, app.nextUserId, id, verificationToken);
    var verified := app.VerifyEmail(verificationToken);
    assert app.users == joined[id := Verified(joined[id])];
    VerifiedUserLogsIn(app.users, app.nextUserId, verify, id, password, now);
    var login := LoginForAccessToken(app.users, app.nextUserId, verify, email, password, now);
    bearer := login.value.accessToken;
  }

  /** A regular user and an ops user join; only the ops user may upload. */
  method Walkthrough(verify: (string, string) -> bool, digestA: string, digestB: string,
                     verificationA: string, verificationB: string, fileToken: string,
                     content: seq<Byte>, now: int)
    requires verify("pw123456", digestA) && verify("pw123456", digestB)
    requires verificationA != verificationB && |fileToken| == TOKEN_LENGTH
  {
    var app := new FileShare();

    // A regular user signs up, verifies and logs in; the listing is empty.
    var a, bearerA := Onboard(app, verify, "a@x.com", "pw123456", digestA, false, verificationA, now);
    SessionTokenLifetime("a@x.com", now, now);
    CurrentUserResolves(app.users, app.nextUserId, bearerA, now, a);
    assert CurrentActiveUser(app.users, app.nextUserId, bearerA, now) == Ok(a);
    assert app.files == map[] && app.nextFileId == 1;
    var listingA := ListFiles(app.users, app.nextUserId, app.files, app.nextFileId, bearerA, now);
    assert listingA == Ok([]);

    // Uploading is for ops users only.
    var refused := app.UploadFile(bearerA, now, "report.docx", content, fileToken);
    assert refused == Err(403, NOT_OPS_DETAIL);
    assert app.files == map[] && app.nextFileId == 1 && app.blobs == map[];

    // An ops user signs up, verifies, logs in and uploads a document.
    assert app.users[a].email != "b@x.com";
    var b, bearerB := Onboard(app, verify, "b@x.com", "pw123456", digestB, true, verificationB, now);
    SessionTokenLifetime("b@x.com", now, now);
    CurrentUserResolves(app.users, app.nextUserId, bearerB, now, b);
    assert CurrentOpsUser(app.users, app.nextUserId, bearerB, now) == Ok(b);
    assert CurrentActiveUser(app.users, app.nextUserId, bearerB, now) == Ok(b);
    CurrentUserResolves(app.users, app.nextUserId, bearerA, now, a);
    ShareDocument(app, a, bearerA, b, bearerB, fileToken, content, now);
  }

  /** An ops user uploads a document into an empty files table: the ops user lists it but
      may not download it; a regular user may. */
  method ShareDocument(app: FileShare, a: int, bearerA: Jwt, b: int, bearerB: Jwt,
                       fileToken: string, content: seq<Byte>, now: int)
    requires app.Valid() && app.files == map[] && app.nextFileId == 1 && |fileToken| == TOKEN_LENGTH
    requires CurrentActiveUser(app.users, app.nextUserId, bearerA, now) == Ok(a) && !app.users[a].isOpsUser
    requires CurrentActiveUser(app.users, app.nextUserId, bearerB, now) == Ok(b) && app.users[b].isOpsUser
    modifies app
  {
    AllowedExtensionOfStem("report", ".docx");
    assert "report" + ".docx" == "report.docx";
    var uploaded := app.UploadFile(bearerB, now, "report.docx", content, fileToken);
    assert uploaded == Ok(UploadResponse(UPLOADED_MESSAGE, fileToken));
    assert app.files == map[1 := FileRecord("report.docx", b, fileToken)];

    // The ops user lists the new file but may not download it; the regular user may.
    ListFilesExactlyVisible(app.users, app.nextUserId, app.files, app.nextFileId, bearerB, now);
    var listingB := ListFiles(app.users, app.nextUserId, app.files, app.nextFileId, bearerB, now);
    assert FileUpload("report.docx", fileToken) in listingB.value;
    FileByDownloadTokenFinds(app.files, app.nextFileId, app.users, 1);
    var asOps := DownloadFile(app.users, app.nextUserId, app.files, app.nextFileId, app.blobs, bearerB, now, fileToken);
    assert asOps == Err(403, ACCESS_DENIED_DETAIL);
    var asRegular := DownloadFile(app.users, app.nextUserId, app.files, app.nextFileId, app.blobs, bearerA, now, fileToken);
    assert asRegular == Ok(Download(BlobPath(fileToken, "report.docx"), "report.docx"));
    assert app.blobs[asRegular.value.location] == content;
  }
}
