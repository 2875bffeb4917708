/** The file transfer service: which uploads are admitted, where a blob is stored, and the
    three read-only file endpoints (download link, download, listing). */
module Transfer {
  import opened Wrappers
  import opened Tokens
  import opened Store
  import opened Gates

  const ALLOWED_EXTENSIONS: seq<string> := [".pptx", ".docx", ".xlsx"]
  const UPLOAD_DIR_PREFIX: string := "uploads/"
  const DOWNLOAD_ROUTE_PREFIX: string := "/download/"

  const INVALID_TYPE_DETAIL: string := "Invalid file type"
  const NOT_FOUND_DETAIL: string := "File not found"
  const ACCESS_DENIED_DETAIL: string := "Access denied"
  /** The body of the 500 answer for an exception no handler catches. */
  const INTERNAL_ERROR_DETAIL: string := "Internal Server Error"

  /** The range of a SQLite INTEGER: a Python int outside it cannot be bound as a query
      parameter, and the driver raises OverflowError. */
  const SQLITE_INTEGER_MIN: int := -0x8000_0000_0000_0000
  const SQLITE_INTEGER_MAX: int := 0x7fff_ffff_ffff_ffff

  predicate SqliteInteger(n: int)
  {
    SQLITE_INTEGER_MIN <= n <= SQLITE_INTEGER_MAX
  }

  predicate EndsWith(s: string, suffix: string) {
    |suffix| <= |s| && s[|s| - |suffix|..] == suffix
  }

  /** The filename ends with one of the allowed extensions (a case-sensitive suffix test). */
  predicate AllowedExtension(filename: string)
    ensures AllowedExtension(filename) ==> |filename| >= 5
  {
    exists ext :: ext in ALLOWED_EXTENSIONS && EndsWith(filename, ext)
  }

  /** Where an upload's content is written, and where a download looks for it. */
  function BlobPath(downloadToken: string, filename: string): (path: string)
    ensures |path| == |UPLOAD_DIR_PREFIX| + |downloadToken| + 1 + |filename|
    ensures path[..|UPLOAD_DIR_PREFIX|] == UPLOAD_DIR_PREFIX
  {
    UPLOAD_DIR_PREFIX + downloadToken + "_" + filename
  }

  /** The route that download_file serves for a token. */
  function DownloadLink(downloadToken: string): (link: string)
    ensures |link| == |DOWNLOAD_ROUTE_PREFIX| + |downloadToken|
    ensures link[..|DOWNLOAD_ROUTE_PREFIX|] == DOWNLOAD_ROUTE_PREFIX
  {
    DOWNLOAD_ROUTE_PREFIX + downloadToken
  }

  /** Any name made of a stem and an allowed extension is admitted, the bare extension included. */
  lemma {:induction false} AllowedExtensionOfStem(stem: string, ext: string)
    requires ext in ALLOWED_EXTENSIONS
    ensures AllowedExtension(stem + ext)
  {
    var s := stem + ext;
    assert s[|s| - |ext|..] == ext;
  }

  /** The allow-list test is exactly "the last five characters are one of the extensions". */
  lemma AllowedExtensionIff(filename: string)
    ensures AllowedExtension(filename) <==>
            |filename| >= 5 && filename[|filename| - 5..] in {".pptx", ".docx", ".xlsx"}
  {
    if |filename| >= 5 && filename[|filename| - 5..] in {".pptx", ".docx", ".xlsx"} {
      var ext := filename[|filename| - 5..];
      assert ext in ALLOWED_EXTENSIONS && EndsWith(filename, ext);
    }
  }

  /** The test is case-sensitive: an upper-case extension is refused. */
  lemma UpperCaseExtensionRefused()
    ensures !AllowedExtension("report.DOCX")
  {
    AllowedExtensionIff("report.DOCX");
  }

  /** The parts of a blob path can be read back from it. */
  lemma BlobPathParts(downloadToken: string, filename: string)
    ensures var p := BlobPath(downloadToken, filename);
            |p| == |UPLOAD_DIR_PREFIX| + |downloadToken| + 1 + |filename|
            && p[|UPLOAD_DIR_PREFIX|..|UPLOAD_DIR_PREFIX| + |downloadToken|] == downloadToken
            && p[|UPLOAD_DIR_PREFIX| + |downloadToken| + 1..] == filename
  {
    var p := BlobPath(downloadToken, filename);
    assert p == UPLOAD_DIR_PREFIX + (downloadToken + ("_" + filename));
  }

  /** Two uploads whose tokens have the same length are stored at the same path only if
      they have the same token and filename. */
  lemma BlobPathInjective(t1: string, f1: string, t2: string, f2: string)
    requires |t1| == |t2| && BlobPath(t1, f1) == BlobPath(t2, f2)
    ensures t1 == t2 && f1 == f2
  {
    BlobPathParts(t1, f1);
    BlobPathParts(t2, f2);
  }

  /** Without equal token lengths the path is ambiguous, since '_' may occur in a token. */
  lemma BlobPathAmbiguousForUnequalTokens()
    ensures BlobPath("a_b", "c.docx") == BlobPath("a", "b_c.docx")
  {
  }

  /** The token can be read back from its download link. */
  lemma DownloadLinkToken(downloadToken: string)
    ensures DownloadLink(downloadToken)[|DOWNLOAD_ROUTE_PREFIX|..] == downloadToken
  {
  }

  /** The checks upload_file makes before writing anything: the ops gate, then the
      extension allow-list. The result is the uploader's id. */
  function UploadAdmission(users: map<int, User>, nextUserId: int, bearer: Jwt, now: int, filename: string): (r: Result<int>)
    ensures r.Ok? ==> r == CurrentOpsUser(users, nextUserId, bearer, now) && AllowedExtension(filename)
    ensures CurrentOpsUser(users, nextUserId, bearer, now).Err? ==> r == CurrentOpsUser(users, nextUserId, bearer, now)
    ensures CurrentOpsUser(users, nextUserId, bearer, now).Ok? && !AllowedExtension(filename) ==> r == Err(400, INVALID_TYPE_DETAIL)
    ensures r.Ok? <==> CurrentOpsUser(users, nextUserId, bearer, now).Ok? && AllowedExtension(filename)
  {
    var uploader := CurrentOpsUser(users, nextUserId, bearer, now);
    if uploader.Err? then uploader
    else if !AllowedExtension(filename) then Err(400, INVALID_TYPE_DETAIL)
    else uploader
  }

  /** The response body of get_download_link. */
  datatype LinkResponse = LinkResponse(downloadLink: string, message: string)

  /** get_download_link: the active gate, then 500 for an id the database driver cannot
      bind, then 404 for an unknown file id, then 403 for a non-ops user, otherwise the
      download route of the file's token. */
  function GetDownloadLink(users: map<int, User>, nextUserId: int, files: map<int, FileRecord>,
                           bearer: Jwt, now: int, fileId: int): (r: Result<LinkResponse>)
    ensures CurrentActiveUser(users, nextUserId, bearer, now).Err? ==> r == CurrentActiveUser(users, nextUserId, bearer, now).Raise()
    ensures CurrentActiveUser(users, nextUserId, bearer, now).Ok? && !SqliteInteger(fileId) ==> r == Err(500, INTERNAL_ERROR_DETAIL)
    ensures CurrentActiveUser(users, nextUserId, bearer, now).Ok? && SqliteInteger(fileId) && fileId !in files
            ==> r == Err(404, NOT_FOUND_DETAIL)
    ensures var who := CurrentActiveUser(users, nextUserId, bearer, now);
            (who.Ok? && SqliteInteger(fileId) && fileId in files && !users[who.value].isOpsUser) ==> r == Err(403, ACCESS_DENIED_DETAIL)
    ensures var who := CurrentActiveUser(users, nextUserId, bearer, now);
            r.Ok? <==> who.Ok? && SqliteInteger(fileId) && fileId in files && users[who.value].isOpsUser
    ensures r.Ok? ==> fileId in files && users[CurrentActiveUser(users, nextUserId, bearer, now).value].isOpsUser
                      && r.value == LinkResponse(DownloadLink(files[fileId].downloadToken), "success")
  {
    var who := CurrentActiveUser(users, nextUserId, bearer, now);
    if who.Err? then who.Raise()
    else if !SqliteInteger(fileId) then Err(500, INTERNAL_ERROR_DETAIL)
    else if fileId !in files then Err(404, NOT_FOUND_DETAIL)
    else if !users[who.value].isOpsUser then Err(403, ACCESS_DENIED_DETAIL)
    else Ok(LinkResponse(DownloadLink(files[fileId].downloadToken), "success"))
  }

  /** What download_file hands to the response: the blob's location and the name to serve it as. */
  datatype Download = Download(location: string, filename: string)

  /** download_file: the active gate, then 404 for an unknown token, then 403 for an ops
      user, then 404 when the blob is missing, otherwise the blob's location and filename. */
  function DownloadFile(users: map<int, User>, nextUserId: int, files: map<int, FileRecord>, nextFileId: int,
                        blobs: map<string, seq<Byte>>, bearer: Jwt, now: int, downloadToken: string): (r: Result<Download>)
    ensures CurrentActiveUser(users, nextUserId, bearer, now).Err? ==> r == CurrentActiveUser(users, nextUserId, bearer, now).Raise()
    ensures (CurrentActiveUser(users, nextUserId, bearer, now).Ok? && FileByDownloadToken(files, nextFileId, downloadToken).None?)
            ==> r == Err(404, NOT_FOUND_DETAIL)
    ensures var who := CurrentActiveUser(users, nextUserId, bearer, now);
            (who.Ok? && FileByDownloadToken(files, nextFileId, downloadToken).Some? && users[who.value].isOpsUser)
            ==> r == Err(403, ACCESS_DENIED_DETAIL)
    ensures r.Err? ==> r.status in {400, 401, 403, 404}
    ensures var who := CurrentActiveUser(users, nextUserId, bearer, now);
            var found := FileByDownloadToken(files, nextFileId, downloadToken);
            (who.Ok? && found.Some? && !users[who.value].isOpsUser) ==>
              (r.Ok? <==> BlobPath(downloadToken, files[found.value].filename) in blobs)
              && (r.Err? ==> r == Err(404, NOT_FOUND_DETAIL))
    ensures r.Ok? ==> var id := FileByDownloadToken(files, nextFileId, downloadToken).value;
                      !users[CurrentActiveUser(users, nextUserId, bearer, now).value].isOpsUser
                      && r.value == Download(BlobPath(files[id].downloadToken, files[id].filename), files[id].filename)
                      && r.value.location in blobs
  {
    var who := CurrentActiveUser(users, nextUserId, bearer, now);
    if who.Err? then who.Raise()
    else
      match FileByDownloadToken(files, nextFileId, downloadToken)
      case None => Err(404, NOT_FOUND_DETAIL)
      case Some(id) =>
        if users[who.value].isOpsUser then Err(403, ACCESS_DENIED_DETAIL)
        else
          var location := BlobPath(downloadToken, files[id].filename);
          if location !in blobs then Err(404, NOT_FOUND_DETAIL)
          else Ok(Download(location, files[id].filename))
  }

  /** An entry of the file listing (the FileUpload response model). */
  datatype FileUpload = FileUpload(filename: string, downloadToken: string)

  function Entry(f: FileRecord): FileUpload {
    FileUpload(f.filename, f.downloadToken)
  }

  /** The listing entries of the given rows, in order. */
  function Entries(files: map<int, FileRecord>, ids: seq<int>): (r: seq<FileUpload>)
    requires forall i :: 0 <= i < |ids| ==> ids[i] in files
    ensures |r| == |ids| && forall i :: 0 <= i < |ids| ==> r[i] == Entry(files[ids[i]])
  {
    seq(|ids|, i requires 0 <= i < |ids| => Entry(files[ids[i]]))
  }

  /** The rows a user may list: every row for an ops user, the user's own rows otherwise. */
  function VisibleIds(files: map<int, FileRecord>, nextFileId: int, viewer: int, isOps: bool): (ids: seq<int>)
    ensures forall i :: 0 <= i < |ids| ==> ids[i] in files && (isOps || files[ids[i]].uploadedBy == viewer)
    ensures forall id :: 1 <= id < nextFileId && id in files && (isOps || files[id].uploadedBy == viewer) ==> id in ids
  {
    if isOps then Query(files, 1, nextFileId, (f: FileRecord) => true)
    else Query(files, 1, nextFileId, (f: FileRecord) => f.uploadedBy == viewer)
  }

  /** list_files: the active gate, then the entries of the rows the user may see, in id order. */
  function ListFiles(users: map<int, User>, nextUserId: int, files: map<int, FileRecord>, nextFileId: int,
                     bearer: Jwt, now: int): (r: Result<seq<FileUpload>>)
    ensures CurrentActiveUser(users, nextUserId, bearer, now).Err? ==> r == CurrentActiveUser(users, nextUserId, bearer, now).Raise()
    ensures r.Ok? <==> CurrentActiveUser(users, nextUserId, bearer, now).Ok?
    ensures r.Ok? ==> var viewer := CurrentActiveUser(users, nextUserId, bearer, now).value;
                      forall e :: e in r.value ==>
                        exists id :: id in files && e == Entry(files[id]) && (users[viewer].isOpsUser || files[id].uploadedBy == viewer)
  {
    var who := CurrentActiveUser(users, nextUserId, bearer, now);
    if who.Err? then who.Raise()
    else
      var ids := VisibleIds(files, nextFileId, who.value, users[who.value].isOpsUser);
      Ok(Entries(files, ids))
  }

  /** A non-ops user's listing holds exactly the entries of the rows that user uploaded; an
      ops user's holds every row's entry. */
  lemma ListFilesExactlyVisible(users: map<int, User>, nextUserId: int, files: map<int, FileRecord>, nextFileId: int,
                                bearer: Jwt, now: int)
    requires FilesValid(files, nextFileId, users)
    requires ListFiles(users, nextUserId, files, nextFileId, bearer, now).Ok?
    ensures var viewer := CurrentActiveUser(users, nextUserId, bearer, now).value;
            var listing := ListFiles(users, nextUserId, files, nextFileId, bearer, now).value;
            forall id :: id in files ==>
              (Entry(files[id]) in listing <==> users[viewer].isOpsUser || files[id].uploadedBy == viewer)
  {
    var viewer := CurrentActiveUser(users, nextUserId, bearer, now).value;
    var isOps := users[viewer].isOpsUser;
    var ids := VisibleIds(files, nextFileId, viewer, isOps);
    var listing := ListFiles(users, nextUserId, files, nextFileId, bearer, now).value;
    assert listing == Entries(files, ids);
    forall id | id in files
      ensures Entry(files[id]) in listing <==> isOps || files[id].uploadedBy == viewer
    {
      assert 1 <= id < nextFileId;
      if isOps || files[id].uploadedBy == viewer {
        assert id in ids;
        var i :| 0 <= i < |ids| && ids[i] == id;
        assert listing[i] == Entry(files[id]);
      }
      if Entry(files[id]) in listing {
        var i :| 0 <= i < |listing| && listing[i] == Entry(files[id]);
        assert files[ids[i]].downloadToken == files[id].downloadToken;
        assert ids[i] == id;
      }
    }
  }

  /** A link handed out by get_download_link leads download_file to the same file. */
  lemma DownloadLinkResolves(users: map<int, User>, nextUserId: int, files: map<int, FileRecord>, nextFileId: int,
                             bearer: Jwt, now: int, fileId: int)
    requires FilesValid(files, nextFileId, users)
    requires GetDownloadLink(users, nextUserId, files, bearer, now, fileId).Ok?
    ensures var link := GetDownloadLink(users, nextUserId, files, bearer, now, fileId).value.downloadLink;
            FileByDownloadToken(files, nextFileId, link[|DOWNLOAD_ROUTE_PREFIX|..]) == Some(fileId)
  {
    DownloadLinkToken(files[fileId].downloadToken);
    FileByDownloadTokenFinds(files, nextFileId, users, fileId);
  }

  /** The role inversion of the two download endpoints: no user both gets a link and
      downloads with the same token at the same moment. */
  lemma LinkAndDownloadExclusive(users: map<int, User>, nextUserId: int, files: map<int, FileRecord>, nextFileId: int,
                                 blobs: map<string, seq<Byte>>, bearer: Jwt, now: int, fileId: int, downloadToken: string)
    ensures !(GetDownloadLink(users, nextUserId, files, bearer, now, fileId).Ok?
              && DownloadFile(users, nextUserId, files, nextFileId, blobs, bearer, now, downloadToken).Ok?)
  {
  }
}
