# File-sharing backend: accounts, bearer tokens and file access

This project models the core of a small FastAPI file-sharing service (`main.py`) in Dafny and
proves properties of that model. Users sign up with an email, confirm it through a single-use
verification token, and log in to obtain a 30-minute bearer token. With that token, operations
("ops") users upload office documents. Each uploaded document gets an opaque download token.
Regular (non-ops) users are meant to download by that token, and every active user lists the files visible to them.

The model has eight modules: one per component of the service, and a client:

- `Wrappers` (wrappers.dfy): `Option`, and `Result` holding a response or the status and detail of an HTTP exception.
- `Tokens` (tokens.dfy): bearer tokens as a claims dictionary plus a "signed with the process key" flag; `create_access_token` and decoding.
- `Store` (store.dfy): the `User` and `File` rows, and the two tables as maps from id to row with a next-id counter. A `.filter(...)` query is the ascending list of matching ids, and `.first()` is its head. The module also holds the invariants the handlers keep.
- `Gates` (gates.dfy): `get_current_user`, `get_current_active_user` and `get_current_ops_user`.
- `Accounts` (accounts.dfy): `login_for_access_token`.
- `Transfer` (transfer.dfy): the extension allow-list, the blob path and the download link, and the upload admission checks. It also holds `get_download_link`, `download_file` and `list_files`.
- `App` (app.dfy): class `FileShare`, which holds the users table, the files table, both id counters and the blob store (path to bytes). Its methods are the three endpoints that change state: `signup`, `verify_email` and `upload_file`. The module also holds the lemmas that chain operations together.
- `Scenario` (scenario.dfy): a client that runs a walk-through. A regular user and an ops user sign up, verify and log in; the ops user uploads a document; only the regular user can download it.

Time is an integer count of minutes passed in as `now`. Password hashing, token signing and
random tokens are outside collaborators:
- the signup method receives the password's digest;
- login receives the hasher's `verify` as a function;
- a token's signature is the `signed` flag;
- fresh verification and download tokens are method parameters. The methods assume they are unused, and assume download tokens have the 43-character length of `token_urlsafe(32)`.

Behaviour of main.py worth noting:
- an unknown verification token gives 400;
- the ops gate does not check `is_active`;
- signup returns a session token right away, and the gates never look at `is_verified`. So an unverified user is already authenticated (`SignupTokenAuthenticatesUnverified`);
- login checks the password (401) before verification (403).
- get_download_link binds `file_id` through the SQLite driver. An id outside the signed 64-bit range makes the driver raise OverflowError before any check of the table, so it answers 500, not 404.

## Model

| member | source | states |
|---|---|---|
| Tokens.ExpiryOf | main.py:109-112 | expiry is now + delta for a non-zero delta, now + 15 minutes for a missing or zero (falsy) delta |
| Tokens.CreateAccessToken | main.py:107-115 | the issued token is signed, keeps every input claim except "exp", and its "exp" is the expiry instant |
| Tokens.SubjectClaims | main.py:167 | the session claims hold exactly "sub" = the email |
| Tokens.Decode | main.py:124 | a decoded token was signed, has a string subject if any, and has not reached its "exp" |
| Tokens.SessionToken | main.py:199-202 | the session token is signed and holds exactly "sub" = the email and "exp" = issue + 30 minutes |
| Tokens.IssuedTokenLifetime | main.py:107-115 | a token issued at t decodes exactly while now < its expiry |
| Tokens.SessionTokenLifetime | main.py:199-202 | a session token decodes exactly before issue + 30 minutes and carries the email as subject |
| Store.Query | main.py:277 | a filter returns exactly the matching ids of the table, in strictly ascending order |
| Store.First | main.py:131 | `.first()` is the head of the query, None on an empty result |
| Store.UserByEmail | main.py:148 | the lookup finds a user with that email, the lowest such id, or reports none exists |
| Store.UserByVerificationToken | main.py:174 | the lookup finds a user holding the token, or reports none does |
| Store.FileByDownloadToken | main.py:256 | the lookup finds a file holding the token, or reports none does |
| Store.UsersValid | main.py:56-61 | defined as: ids are 1 up to the next id, emails are unique, verification tokens are unique, and a user is verified exactly when its token is cleared |
| Store.FilesValid | main.py:66-70 | defined as: ids are 1 up to the next id, every uploader exists, download tokens are unique and 43 characters long |
| Store.UserByEmailFinds | main.py:56 | with unique emails the lookup by a user's email yields that user |
| Store.UserByVerificationTokenFinds | main.py:61 | with unique verification tokens the lookup yields the holder |
| Store.FileByDownloadTokenFinds | main.py:70 | with unique download tokens the lookup yields the holder |
| Gates.CurrentUser | main.py:117-134 | the result is a user the token names while it decodes; every failure is 401 |
| Gates.CurrentActiveUser | main.py:136-139 | base gate errors pass through, an inactive user gets 400, and a resolved user passes iff active |
| Gates.CurrentOpsUser | main.py:141-144 | base gate errors pass through, a non-ops user gets 403, and a resolved user passes iff ops (active or not) |
| Gates.CurrentUserResolves | main.py:131-134 | in a valid table a user is resolved iff the token decodes and names their email |
| Gates.OpsGateIgnoresActive | main.py:136-144 | an inactive ops user passes the ops gate but fails the active gate with 400 |
| Accounts.CredentialsMatch | main.py:185-186 | matching credentials mean a user with exactly that email is found by the lookup (and the password verifies against its digest) |
| Accounts.LoginForAccessToken | main.py:183-203 | 401 iff the email is unknown or the password fails, 403 only for an unverified user, success only for a verified user, with a 30-minute token for that email |
| Accounts.LoginTokenAuthenticates | main.py:199-203 | the login token resolves to the user who logged in before issue + 30 and is refused with 401 after |
| Accounts.VerifiedUserLogsIn | main.py:185-203 | a verified user with a verifying password always receives a session token |
| Transfer.AllowedExtension | main.py:211-212 | defined as: the filename ends with ".pptx", ".docx" or ".xlsx"; an admitted name has at least five characters |
| Transfer.BlobPath | main.py:226 | the path is "uploads/" followed by the token, "_" and the filename, with the matching length |
| Transfer.DownloadLink | main.py:247 | the link starts with "/download/" and is the token longer than it |
| Transfer.AllowedExtensionOfStem | main.py:211-213 | any stem followed by an allowed extension is admitted |
| Transfer.AllowedExtensionIff | main.py:211-213 | admitted iff the last five characters are ".pptx", ".docx" or ".xlsx" |
| Transfer.UpperCaseExtensionRefused | main.py:212 | the suffix test is case-sensitive: "report.DOCX" is refused |
| Transfer.BlobPathParts | main.py:226 | the token and the filename can be read back from a blob path |
| Transfer.BlobPathInjective | main.py:226 | with tokens of equal length, equal blob paths mean equal token and filename |
| Transfer.BlobPathAmbiguousForUnequalTokens | main.py:226 | with tokens of different lengths two uploads can share a blob path |
| Transfer.DownloadLinkToken | main.py:247 | the token is recovered from its download link |
| Transfer.UploadAdmission | main.py:205-213 | the ops gate is checked before the extension check; an upload is admitted iff the user passes the ops gate and the extension is allowed |
| Transfer.GetDownloadLink | main.py:234-248 | gate errors first; then 500 for an id outside the 64-bit SQLite INTEGER range, which the driver cannot bind at main.py:240; then 404 for an unknown id, then 403 for non-ops; the link "/download/" + token is returned iff the user is active and ops and the id is bindable and known |
| Transfer.DownloadFile | main.py:250-267 | gate errors first, then 404 for an unknown token, then 403 for ops, then 404 for a missing blob; an active non-ops user with a known token is served iff the blob exists, with its location and the filename |
| Transfer.Entries | main.py:269 | one listing entry per row, in order |
| Transfer.VisibleIds | main.py:274-277 | the ids listed are exactly the files an ops user sees (all) or a regular user sees (their own uploads) |
| Transfer.ListFiles | main.py:269-278 | gate errors pass through; a listing is returned iff the user passes the active gate, and every entry is a file that user may see |
| Transfer.ListFilesExactlyVisible | main.py:274-277 | a file's entry is listed iff the user is ops or uploaded it |
| Transfer.DownloadLinkResolves | main.py:247 | the token in an issued link finds the same file at download |
| Transfer.LinkAndDownloadExclusive | main.py:234-261 | no user obtains a link and a download at once (the role inversion) |
| App.NewUser | main.py:153-158 | the signup row is active, unverified, has the requested role and holds the verification token |
| App.Verified | main.py:178-179 | verification sets verified, clears the token, and changes nothing else |
| App.FileShare.constructor | main.py:72 | empty tables with counters at 1 and no blobs |
| App.FileShare.Signup | main.py:146-170 | a taken email gives 400 and no change; otherwise exactly one new user is added and a session token is returned; the email is taken afterwards |
| App.FileShare.VerifyEmail | main.py:172-181 | an unknown token gives 400 and no change; otherwise only the holder changes (verified, token cleared); afterwards nobody holds the token |
| App.FileShare.UploadFile | main.py:205-232 | a refused upload changes nothing; an admitted one adds exactly one row owned by the uploader and writes the blob at its path |
| App.SignupPreservesValid | main.py:146-161 | signup keeps emails and verification tokens unique and "verified iff no token"; a second signup finds the email |
| App.VerificationConsumesToken | main.py:172-181 | verification keeps the invariants and leaves the token held by nobody, so a replay fails |
| App.UploadPreservesValid | main.py:215-232 | upload keeps tokens unique, owners existing and blobs present, and its token finds the new row |
| App.UploadKeepsOtherBlobs | main.py:215-230 | an upload leaves every earlier file's blob content unchanged |
| App.UploadThenDownload | main.py:226-263 | after an upload any active non-ops user downloads exactly the content written, under the uploaded name |
| App.SignupTokenAuthenticatesUnverified | main.py:166-170 | the signup token authenticates the new, unverified user for 30 minutes |
| App.VerificationUnlocksLogin | main.py:172-203 | login gives 403 after signup and succeeds after the verification token is used |
| Scenario.Onboard | main.py:146-203 | signup, verification and login leave the user verified and return a session token for that user |

## Left out

- Database plumbing: sessions, commit and refresh. The tables are maps. Ids are the dense rowids 1, 2, … (rows are never deleted), and `.first()` takes the lowest matching id.
- The uniqueness constraints of the SQL schema: they would raise an integrity error on a duplicate token. The model instead assumes that the tokens passed in are unused.
- Password hashing (bcrypt): the digest is passed to signup, and `verify` is a function parameter of login.
- Token encoding, signing and the process-lifetime secret key: a token is its claims plus a `signed` flag, and signature checking is not verifiable here.
- Tokens.Decode: it follows section 4.1.4 of RFC 7519 and rejects a token from its "exp" instant on. The JWT library is not part of this model, and its own comparison accepts a token during the very second of "exp". A token without "exp" is accepted.
- Random tokens (`secrets.token_urlsafe`): they are parameters. Their freshness and 43-character length are assumptions on the token source, not proved facts, because uniqueness is only probabilistic in the code.
- The verification email (`send_verification_email`): it is fire-and-forget with errors swallowed, so signup does not model it.
- Filesystem I/O: the blob store is a map from path to bytes. `os.makedirs` is not modelled, and the response stream is not modelled either: `download_file` returns the blob location and the filename.
- `upload_date`, CORS, routing, uvicorn, the WWW-Authenticate header, request parsing and pydantic's email validation.
- The wall clock: `datetime.utcnow` becomes the `now` parameter, in whole minutes.
- Assertions of tests/test_endpoints.py that disagree with main.py are not modelled; the model follows main.py. These are: a signup message carrying the verification token, an access token returned by verification, a `/users/me` route, a string id passed to `/download-file/`, and upload date and owner fields in the listing.
- App.FileShare.UploadFile: the row and the blob are written in one step, and the write always succeeds. In main.py the row is committed first (main.py:221-222) and the file opened afterwards (main.py:228). If that open fails, the row stays without a blob: the filename contains '/', the name is too long, or an I/O error. `download_file` then answers 404 (main.py:264-265). `App.BlobsValid`, `App.UploadPreservesValid` and `App.UploadThenDownload` rely on the write succeeding.
- App.FileShare.UploadFile: models the evidently intended endpoint. As written, main.py:63 rebinds the name `File` (imported from fastapi at main.py:1) to the ORM class. So the default `File(...)` at main.py:207 calls the ORM's keyword-only constructor with a positional argument, which raises TypeError when the module loads. The model takes `File(...)` to be FastAPI's upload parameter.
- Transfer.DownloadFile: a success returns the location and filename the response would stream. As written, `FileResponse` at main.py:267 is never imported, so every download that passes all checks raises NameError and answers 500. The model, and `App.UploadThenDownload`, describe the evidently intended response.
- App.FileShare.Signup: `email` is the address as stored, after the request model's `EmailStr` type has normalised it (main.py:82), for example by lower-casing the domain. Login compares the form's username as typed (main.py:185). So a user who signs up as "a@X.com" and logs in as "a@X.com" is refused with 401 by main.py. `App.VerificationUnlocksLogin` and `Scenario.Onboard` log in with the stored form. Normalisation is library code and is not part of this model.
- Concurrency between requests, such as two signups racing for one email: each operation is one atomic step.
- Transfer.ListFiles: its own contract states only that every entry is visible to the user. The converse, that every visible file is listed, is `Transfer.ListFilesExactlyVisible`, which needs the files-table invariant.
