/**
 The upload routine `uploadToGoogleDrive` as a function over an abstract
 world: it takes the world (decodable credential bundles, the identity
 provider's grants, the Drive's items, which Drive calls fail, and the ids
 Drive assigns), the routine's arguments and the four random bytes, and
 returns a `Step`: the outcome, the requests issued in order, and the Drive
 afterwards.

 The stages run in the source's order: token exchange, folder-reference
 parse, parent verification, subfolder find-or-create, name-conflict
 resolution, upload. The first stage that fails ends the run; its error is
 the run's error, unchanged.
 */
module Upload {
  import opened Api
  import opened Drive
  import Hex
  import FolderUrl

  /** What the credential bundle's JSON holds. */
  datatype Credentials = Credentials(clientId: string, clientSecret: string, refreshToken: string)

  const FolderMimeType: string := "application/vnd.google-apps.folder"
  const MediaMimeType: string := "application/octet-stream"
  const CopySeparator: string := "_copy_"

  /** A request the routine sends; every Drive request carries the bearer
      token obtained from the token exchange. */
  datatype Request =
    | TokenExchange(body: map<string, string>)
    | GetMetadata(bearer: string, fileId: string)
    | ListFiles(bearer: string, query: Query)
    | CreateFolder(bearer: string, name: string, mimeType: string, parents: seq<string>)
    | UploadMultipart(bearer: string, name: string, parents: seq<string>, mimeType: string, localPath: string)

  /** Everything outside the routine that decides its course. */
  datatype World = World(
    /** The bundles whose base64 decodes to credentials JSON; any other
        bundle makes decoding or `JSON.parse` throw. */
    bundles: map<string, Credentials>,
    /** The grants the identity provider honours, with the access token it
        returns for each. */
    grants: map<Credentials, string>,
    /** The Drive's items in listing order. */
    drive: seq<Item>,
    /** The Drive calls that answer with an API error. */
    rejects: set<Call>,
    /** The id Drive gives a folder the routine creates. */
    newFolderId: string,
    /** The id Drive gives the uploaded file. */
    newFileId: string)

  /** The arguments of `uploadToGoogleDrive`, the logger left out. */
  datatype UploadArgs = UploadArgs(
    base64Credentials: string,
    folderUrl: Option<string>,
    compositionName: string,
    filePath: string,
    fileName: string,
    driveId: Option<string>)

  /** One stage's (or the whole run's) outcome, the requests it issued in
      order, and the Drive after it. */
  datatype Step<+T> = Step(result: Result<T>, issued: seq<Request>, drive: seq<Item>)

  /** The body of the refresh-token grant built from the decoded bundle. */
  function TokenBody(c: Credentials): (body: map<string, string>)
    ensures body.Keys == {"client_id", "client_secret", "refresh_token", "grant_type"}
    ensures body["client_id"] == c.clientId
    ensures body["client_secret"] == c.clientSecret
    ensures body["refresh_token"] == c.refreshToken
    ensures body["grant_type"] == "refresh_token"
  {
    map["client_id" := c.clientId,
        "client_secret" := c.clientSecret,
        "refresh_token" := c.refreshToken,
        "grant_type" := "refresh_token"]
  }

  /** Decode the bundle and exchange its refresh token for an access token. */
  function Authenticate(w: World, bundle: string): (s: Step<string>)
    ensures s.drive == w.drive
    ensures s.result.Ok? <==> bundle in w.bundles && w.bundles[bundle] in w.grants
    ensures s.result.Ok? ==> s.result.value == w.grants[w.bundles[bundle]]
    ensures bundle !in w.bundles ==> s.issued == [] && s.result == Err(MalformedCredentials)
    ensures bundle in w.bundles ==> s.issued == [TokenExchange(TokenBody(w.bundles[bundle]))]
  {
    if bundle !in w.bundles then Step(Err(MalformedCredentials), [], w.drive)
    else
      var creds := w.bundles[bundle];
      var issued := [TokenExchange(TokenBody(creds))];
      if creds in w.grants then Step(Ok(w.grants[creds]), issued, w.drive)
      else Step(Err(TokenRejected), issued, w.drive)
  }

  /** Extract the parent folder id from the folder reference. */
  function ParseFolderUrl(folderUrl: Option<string>): (r: Result<string>)
    ensures folderUrl.None? ==> r == Err(MissingFolderUrl)
    ensures folderUrl.Some? && r.Err? ==> r.error == InvalidFolderUrl(folderUrl.value)
  {
    match folderUrl
    case None => Err(MissingFolderUrl)
    case Some(url) =>
      match FolderUrl.FolderId(url)
      case None => Err(InvalidFolderUrl(url))
      case Some(id) => Ok(id)
  }

  /** The parse fails exactly when the reference holds no match of the
      pattern, with an error naming the reference; a parsed id is non-empty
      and free of `/`. */
  lemma ParseFolderUrlOutcome(folderUrl: Option<string>)
    ensures folderUrl.Some? ==>
      (ParseFolderUrl(folderUrl).Ok? <==> exists i :: FolderUrl.MatchesAt(folderUrl.value, i))
    ensures folderUrl.Some? && ParseFolderUrl(folderUrl).Err? ==>
      ParseFolderUrl(folderUrl).error == InvalidFolderUrl(folderUrl.value)
    ensures ParseFolderUrl(folderUrl).Ok? ==>
      var id := ParseFolderUrl(folderUrl).value;
      id != [] && forall k :: 0 <= k < |id| ==> id[k] != '/'
  {
    if ParseFolderUrl(folderUrl).Ok? {
      FolderUrl.FolderIdShape(folderUrl.value);
    }
  }

  /** Fetch the parent folder's metadata; a trashed parent is an error. The
      request carries the whole id, but the item it names is the one whose
      id is the id's path part. */
  function VerifyParent(w: World, token: string, folderId: string): (s: Step<Item>)
    ensures s.drive == w.drive
    ensures s.issued == [GetMetadata(token, folderId)]
    ensures s.result.Ok? ==> s.result.value.id == FolderUrl.PathPart(folderId) && !s.result.value.trashed
  {
    if MetadataCall in w.rejects then Step(Err(RequestFailed(MetadataCall)), [GetMetadata(token, folderId)], w.drive)
    else
      var fetched := FolderUrl.PathPart(folderId);
      match Lookup(w.drive, fetched)
      case None => Step(Err(FolderNotFound(fetched)), [GetMetadata(token, folderId)], w.drive)
      case Some(it) =>
        if it.trashed then Step(Err(ParentTrashed), [GetMetadata(token, folderId)], w.drive)
        else Step(Ok(it), [GetMetadata(token, folderId)], w.drive)
  }

  /** The parent check accepts exactly a non-trashed item whose id is the
      path part of the folder id; an absent one is "not found", a trashed
      one `ParentTrashed`, and a rejected request its own error. */
  lemma VerifyParentOutcome(w: World, token: string, folderId: string)
    ensures var s := VerifyParent(w, token, folderId);
      var fetched := FolderUrl.PathPart(folderId);
      && (MetadataCall in w.rejects ==> s.result == Err(RequestFailed(MetadataCall)))
      && (MetadataCall !in w.rejects && (forall i :: 0 <= i < |w.drive| ==> w.drive[i].id != fetched) ==>
            s.result == Err(FolderNotFound(fetched)))
      && (MetadataCall !in w.rejects && Lookup(w.drive, fetched).Some? ==>
            (Lookup(w.drive, fetched).value.trashed <==> s.result == Err(ParentTrashed)))
      && (s.result.Ok? <==> MetadataCall !in w.rejects && Lookup(w.drive, fetched).Some?
                             && !Lookup(w.drive, fetched).value.trashed)
      && (s.result.Ok? ==> s.result.value in w.drive)
  {
  }

  /** The query for the composition subfolder under `parent`. */
  function SubfolderQuery(parent: string, name: string): Query {
    Query(parent, name, true)
  }

  /** The folder Drive records when the routine creates the subfolder. */
  function CreatedFolder(w: World, parent: string, name: string): Item {
    Item(w.newFolderId, name, [parent], true, false)
  }

  /** Find the composition subfolder under `parent`, or create it. */
  function FindOrCreate(w: World, token: string, parent: string, name: string): (s: Step<string>)
    ensures 1 <= |s.issued| <= 2 && s.issued[0] == ListFiles(token, SubfolderQuery(parent, name))
    ensures |s.issued| == 2 ==> s.issued[1] == CreateFolder(token, name, FolderMimeType, [parent])
    ensures s.result.Err? ==>
      s.result.error == RequestFailed(if |s.issued| == 1 then FolderSearchCall else FolderCreateCall)
      && s.result.error.call in w.rejects
  {
    var q := SubfolderQuery(parent, name);
    var search := ListFiles(token, q);
    if FolderSearchCall in w.rejects then Step(Err(RequestFailed(FolderSearchCall)), [search], w.drive)
    else
      var found := Search(w.drive, q);
      if found != [] then Step(Ok(found[0].id), [search], w.drive)
      else
        var create := CreateFolder(token, name, FolderMimeType, [parent]);
        if FolderCreateCall in w.rejects then Step(Err(RequestFailed(FolderCreateCall)), [search, create], w.drive)
        else Step(Ok(w.newFolderId), [search, create], w.drive + [CreatedFolder(w, parent, name)])
  }

  /** An existing non-trashed folder of that name under `parent` is reused,
      the first the listing returns, and nothing is created; with none,
      exactly one create is issued, with that name and `parent` as the only
      parent, and the new folder is added to the Drive. */
  lemma FindOrCreateChoice(w: World, token: string, parent: string, name: string)
    ensures var s := FindOrCreate(w, token, parent, name);
      var q := SubfolderQuery(parent, name);
      && (FolderSearchCall in w.rejects ==>
            s == Step(Err(RequestFailed(FolderSearchCall)), [ListFiles(token, q)], w.drive))
      && (FolderSearchCall !in w.rejects && (exists it :: it in w.drive && Matches(q, it)) ==>
            && s.issued == [ListFiles(token, q)]
            && s.drive == w.drive
            && s.result.Ok?
            && exists i :: IsFirstMatch(w.drive, q, i) && s.result.value == w.drive[i].id)
      && (FolderSearchCall !in w.rejects && (forall it :: it in w.drive ==> !Matches(q, it)) ==>
            && s.issued == [ListFiles(token, q), CreateFolder(token, name, FolderMimeType, [parent])]
            && (FolderCreateCall in w.rejects ==> s.result == Err(RequestFailed(FolderCreateCall)) && s.drive == w.drive)
            && (FolderCreateCall !in w.rejects ==>
                  s.result == Ok(w.newFolderId) && s.drive == w.drive + [CreatedFolder(w, parent, name)]))
  {
  }

  /** The query for a same-named item in the destination: no folder-type
      filter, so a same-named folder counts as a conflict too. */
  function ConflictQuery(folderId: string, fileName: string): Query {
    Query(folderId, fileName, false)
  }

  /** A non-trashed item named `fileName` is in folder `folderId`. */
  predicate HasConflict(items: seq<Item>, folderId: string, fileName: string) {
    exists it :: it in items && folderId in it.parents && it.name == fileName && !it.trashed
  }

  /** The name a conflicting upload gets: the desired name, then `_copy_`,
      then exactly eight lowercase hexadecimal digits. */
  function CopyName(fileName: string, rnd: Hex.Bytes4): (n: string)
    ensures |n| == |fileName| + |CopySeparator| + 8
    ensures n[..|fileName|] == fileName
    ensures n[|fileName|..|fileName| + |CopySeparator|] == CopySeparator
    ensures Hex.IsLowerHex(n[|fileName| + |CopySeparator|..])
  {
    var n := fileName + CopySeparator + Hex.ToHex(rnd);
    assert n[|fileName| + |CopySeparator|..] == Hex.ToHex(rnd);
    n
  }

  /** The copy name's hex digits read back as the random bytes: it differs
      from the desired name, and two draws give the same copy name exactly
      when they are the same bytes. */
  lemma CopyNameReadsBack(fileName: string, rnd: Hex.Bytes4, other: Hex.Bytes4)
    ensures Hex.FromHex(CopyName(fileName, rnd)[|fileName| + |CopySeparator|..]) == Some(rnd)
    ensures CopyName(fileName, rnd) != fileName
    ensures CopyName(fileName, other) == CopyName(fileName, rnd) <==> other == rnd
  {
    var n := CopyName(fileName, rnd);
    var m := CopyName(fileName, other);
    assert n[|fileName| + |CopySeparator|..] == Hex.ToHex(rnd);
    assert m[|fileName| + |CopySeparator|..] == Hex.ToHex(other);
    Hex.FromHexToHex(rnd);
    Hex.ToHexInjective(rnd, other);
  }

  /** Choose the name to upload under. */
  function ResolveName(w: World, token: string, folderId: string, fileName: string, rnd: Hex.Bytes4): (s: Step<string>)
    ensures s.drive == w.drive
    ensures s.issued == [ListFiles(token, ConflictQuery(folderId, fileName))]
    ensures s.result.Err? <==> FileSearchCall in w.rejects
    ensures s.result.Err? ==> s.result.error == RequestFailed(FileSearchCall)
  {
    var q := ConflictQuery(folderId, fileName);
    var search := ListFiles(token, q);
    if FileSearchCall in w.rejects then Step(Err(RequestFailed(FileSearchCall)), [search], w.drive)
    else if Search(w.drive, q) != [] then Step(Ok(CopyName(fileName, rnd)), [search], w.drive)
    else Step(Ok(fileName), [search], w.drive)
  }

  /** The desired name is kept exactly when the destination holds no
      non-trashed item of that name; otherwise the copy name is used, and it
      is not searched for again. */
  lemma ResolveNameChoice(w: World, token: string, folderId: string, fileName: string, rnd: Hex.Bytes4)
    ensures var s := ResolveName(w, token, folderId, fileName, rnd);
      && (s.result.Ok? ==> (s.result.value == fileName <==> !HasConflict(w.drive, folderId, fileName)))
      && (s.result.Ok? && HasConflict(w.drive, folderId, fileName) ==> s.result.value == CopyName(fileName, rnd))
      && (s.result.Ok? ==> s.result.value == fileName || s.result.value == CopyName(fileName, rnd))
  {
    var q := ConflictQuery(folderId, fileName);
    assert |CopyName(fileName, rnd)| > |fileName|;
    if HasConflict(w.drive, folderId, fileName) {
      var it :| it in w.drive && folderId in it.parents && it.name == fileName && !it.trashed;
      assert Matches(q, it);
    }
  }

  /** The file Drive records for the upload. */
  function UploadedFile(w: World, folderId: string, finalName: string): Item {
    Item(w.newFileId, finalName, [folderId], false, false)
  }

  /** The upload request: a JSON body whose metadata names the final name
      and the subfolder as the only parent, sent to the multipart upload
      URL; the result is the id in Drive's response. */
  function UploadFile(w: World, token: string, folderId: string, finalName: string, path: string): (s: Step<string>)
    ensures s.issued == [UploadMultipart(token, finalName, [folderId], MediaMimeType, path)]
    ensures s.result.Ok? <==> UploadCall !in w.rejects
    ensures s.result.Ok? ==> s.result.value == w.newFileId && s.drive == w.drive + [UploadedFile(w, folderId, finalName)]
    ensures s.result.Err? ==> s.result.error == RequestFailed(UploadCall) && s.drive == w.drive
  {
    var req := UploadMultipart(token, finalName, [folderId], MediaMimeType, path);
    if UploadCall in w.rejects then Step(Err(RequestFailed(UploadCall)), [req], w.drive)
    else Step(Ok(w.newFileId), [req], w.drive + [UploadedFile(w, folderId, finalName)])
  }

  /** `s` preceded by the requests `issued` before it. */
  function After<T>(issued: seq<Request>, s: Step<T>): Step<T> {
    Step(s.result, issued + s.issued, s.drive)
  }

  /** The last two stages, once the destination subfolder `dest` is known:
      resolve the name, then upload. */
  function NameAndUpload(w: World, token: string, dest: string, a: UploadArgs, rnd: Hex.Bytes4): (s: Step<string>)
    ensures 1 <= |s.issued| <= 2
    ensures s.result.Ok? ==> s.result.value == w.newFileId && |s.issued| == 2 && s.issued[1].UploadMultipart?
  {
    var name := ResolveName(w, token, dest, a.fileName, rnd);
    if name.result.Err? then Step(Err(name.result.error), name.issued, w.drive)
    else After(name.issued, UploadFile(w, token, dest, name.result.value, a.filePath))
  }

  /** The stages from the subfolder on, once the parent `folderId` is
      verified. A created subfolder is part of the Drive the later stages
      see. */
  function IntoParent(w: World, token: string, folderId: string, a: UploadArgs, rnd: Hex.Bytes4): (s: Step<string>)
    ensures 1 <= |s.issued| <= 4
    ensures s.result.Ok? ==> s.result.value == w.newFileId && |s.issued| >= 3 && s.issued[|s.issued| - 1].UploadMultipart?
  {
    var sub := FindOrCreate(w, token, folderId, a.compositionName);
    if sub.result.Err? then Step(Err(sub.result.error), sub.issued, sub.drive)
    else After(sub.issued, NameAndUpload(w.(drive := sub.drive), token, sub.result.value, a, rnd))
  }

  /** The stages after the token exchange: parse the folder reference,
      verify the parent, and go on. */
  function WithToken(w: World, token: string, a: UploadArgs, rnd: Hex.Bytes4): (s: Step<string>)
    ensures |s.issued| <= 5
    ensures s.result.Ok? ==> s.result.value == w.newFileId && |s.issued| >= 4 && s.issued[|s.issued| - 1].UploadMultipart?
  {
    match ParseFolderUrl(a.folderUrl)
    case Err(e) => Step(Err(e), [], w.drive)
    case Ok(folderId) =>
      var parent := VerifyParent(w, token, folderId);
      if parent.result.Err? then Step(Err(parent.result.error), parent.issued, w.drive)
      else After(parent.issued, IntoParent(w, token, folderId, a, rnd))
  }

  /** `uploadToGoogleDrive`: the stages in order, each failure ending the run
      with that stage's error. A run sends at most six requests; a
      successful one sends at least five, the last of them the upload, and
      returns the id Drive gave the uploaded file. */
  function UploadToGoogleDrive(w: World, a: UploadArgs, rnd: Hex.Bytes4): (r: Step<string>)
    ensures |r.issued| <= 6
    ensures r.result.Ok? ==> r.result.value == w.newFileId && |r.issued| >= 5 && r.issued[|r.issued| - 1].UploadMultipart?
  {
    var auth := Authenticate(w, a.base64Credentials);
    if auth.result.Err? then auth
    else After(auth.issued, WithToken(w, auth.result.value, a, rnd))
  }
}
