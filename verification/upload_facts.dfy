/**
 Properties of the whole upload run: what is requested in which order, what
 a failure at each stage leaves undone, what a successful run uploads, and
 that the subfolder find-or-create is idempotent.
 */
module UploadFacts {
  import opened Api
  import opened Drive
  import opened Upload
  import Hex
  import FolderUrl

  /** Which remote call a request is. */
  function KindOf(r: Request): Call {
    match r
    case TokenExchange(_) => TokenCall
    case GetMetadata(_, _) => MetadataCall
    case ListFiles(_, q) => if q.foldersOnly then FolderSearchCall else FileSearchCall
    case CreateFolder(_, _, _, _) => FolderCreateCall
    case UploadMultipart(_, _, _, _, _) => UploadCall
  }

  function Kinds(rs: seq<Request>): (ks: seq<Call>)
    ensures |ks| == |rs|
  {
    seq(|rs|, i requires 0 <= i < |rs| => KindOf(rs[i]))
  }

  /** The calls of the last two stages: the conflict search, then the upload. */
  const NameTail: seq<Call> := [FileSearchCall, UploadCall]

  /** The calls from the subfolder stage on when the subfolder is created. */
  const CreateTail: seq<Call> := [FolderSearchCall, FolderCreateCall] + NameTail

  /** The calls from the subfolder stage on when a subfolder is reused. */
  const ReuseTail: seq<Call> := [FolderSearchCall] + NameTail

  /** The calls of a run that creates the subfolder, in order. */
  const CreatePlan: seq<Call> := [TokenCall] + ([MetadataCall] + CreateTail)

  /** The calls of a run that reuses an existing subfolder, in order. */
  const ReusePlan: seq<Call> := [TokenCall] + ([MetadataCall] + ReuseTail)

  lemma CreatePlanCalls()
    ensures CreatePlan == [TokenCall, MetadataCall, FolderSearchCall, FolderCreateCall, FileSearchCall, UploadCall]
  {
  }

  lemma ReusePlanCalls()
    ensures ReusePlan == [TokenCall, MetadataCall, FolderSearchCall, FileSearchCall, UploadCall]
  {
  }

  predicate IsPrefix(a: seq<Call>, b: seq<Call>) {
    |a| <= |b| && b[..|a|] == a
  }

  /** The token the identity provider returns for the run's bundle. */
  function TokenOf(w: World, a: UploadArgs): string
    requires Authenticated(w, a)
  {
    w.grants[w.bundles[a.base64Credentials]]
  }

  predicate Authenticated(w: World, a: UploadArgs) {
    a.base64Credentials in w.bundles && w.bundles[a.base64Credentials] in w.grants
  }

  lemma KindsAppend(x: seq<Request>, y: seq<Request>)
    ensures Kinds(x + y) == Kinds(x) + Kinds(y)
  {
  }

  lemma KindsOne(r: Request)
    ensures Kinds([r]) == [KindOf(r)]
  {
  }

  lemma KindsTwo(r1: Request, r2: Request)
    ensures Kinds([r1, r2]) == [KindOf(r1), KindOf(r2)]
  {
  }

  /** One step of the run: with a decoded and accepted bundle, the token
      request comes first and the remaining stages follow. */
  lemma AuthenticatedRun(w: World, a: UploadArgs, rnd: Hex.Bytes4)
    requires Authenticated(w, a)
    ensures UploadToGoogleDrive(w, a, rnd) ==
      After([TokenExchange(TokenBody(w.bundles[a.base64Credentials]))], WithToken(w, TokenOf(w, a), a, rnd))
  {
  }

  /** One step of the run: a parsed and verified parent is followed by the
      subfolder stage. */
  lemma VerifiedParentRun(w: World, token: string, a: UploadArgs, rnd: Hex.Bytes4, id: string)
    requires ParseFolderUrl(a.folderUrl) == Ok(id)
    requires VerifyParent(w, token, id).result.Ok?
    ensures WithToken(w, token, a, rnd) == After([GetMetadata(token, id)], IntoParent(w, token, id, a, rnd))
  {
  }

  /** One step of the run: a resolved subfolder is followed by naming and
      uploading, on the Drive the subfolder stage left. */
  lemma ResolvedSubfolderRun(w: World, token: string, id: string, a: UploadArgs, rnd: Hex.Bytes4)
    requires FindOrCreate(w, token, id, a.compositionName).result.Ok?
    ensures var sub := FindOrCreate(w, token, id, a.compositionName);
      IntoParent(w, token, id, a, rnd) ==
        After(sub.issued, NameAndUpload(w.(drive := sub.drive), token, sub.result.value, a, rnd))
  {
  }

  /** What every run guarantees from some stage on, where `p1` and `p2` are
      the calls left of the two plans: the calls sent are a prefix of one of
      them, and a success completes one and returns the uploaded file's id;
      a rejected call is the last one sent; and when the upload was the last
      call the run returns its id or its error. */
  predicate Shaped(s: Step<string>, w: World, p1: seq<Call>, p2: seq<Call>) {
    var ks := Kinds(s.issued);
    && (IsPrefix(ks, p1) || IsPrefix(ks, p2))
    && (s.result.Ok? ==> (ks == p1 || ks == p2) && s.result.value == w.newFileId)
    && (s.result.Err? && s.result.error.RequestFailed? ==>
          |ks| >= 1 && ks[|ks| - 1] == s.result.error.call && s.result.error.call in w.rejects)
    && (|ks| >= 1 && ks[|ks| - 1] == UploadCall ==>
          s.result == Ok(w.newFileId) || s.result == Err(RequestFailed(UploadCall)))
  }

  /** Within either plan the token call comes first only, and the upload
      call only last. */
  lemma PlanPrefixCalls(ks: seq<Call>)
    requires IsPrefix(ks, CreatePlan) || IsPrefix(ks, ReusePlan)
    ensures forall j :: 1 <= j < |ks| ==> ks[j] != TokenCall
    ensures forall j :: 0 <= j < |ks| && ks[j] == UploadCall ==> j == |ks| - 1
  {
    var plan := if IsPrefix(ks, CreatePlan) then CreatePlan else ReusePlan;
    CreatePlanCalls();
    ReusePlanCalls();
    forall j | 0 <= j < |ks|
      ensures ks[j] == plan[j]
    {
      assert ks[j] == plan[..|ks|][j];
    }
  }

  /** Prefixing the requests of earlier, successful stages keeps the shape. */
  lemma AfterShaped(head: seq<Request>, rest: Step<string>, w: World, p1: seq<Call>, p2: seq<Call>)
    requires |rest.issued| >= 1
    requires Shaped(rest, w, p1, p2)
    ensures Shaped(After(head, rest), w, Kinds(head) + p1, Kinds(head) + p2)
  {
    var s := After(head, rest);
    KindsAppend(head, rest.issued);
    var ks := Kinds(s.issued);
    assert ks[|ks| - 1] == Kinds(rest.issued)[|rest.issued| - 1];
    assert IsPrefix(Kinds(rest.issued), p1) ==> IsPrefix(ks, Kinds(head) + p1) by {
      if IsPrefix(Kinds(rest.issued), p1) {
        assert (Kinds(head) + p1)[..|ks|] == Kinds(head) + p1[..|rest.issued|];
      }
    }
    assert IsPrefix(Kinds(rest.issued), p2) ==> IsPrefix(ks, Kinds(head) + p2) by {
      if IsPrefix(Kinds(rest.issued), p2) {
        assert (Kinds(head) + p2)[..|ks|] == Kinds(head) + p2[..|rest.issued|];
      }
    }
  }

  lemma ShapedWeaken(s: Step<string>, w: World, p: seq<Call>, p1: seq<Call>, p2: seq<Call>)
    requires Shaped(s, w, p, p)
    requires p == p1 || p == p2
    ensures Shaped(s, w, p1, p2)
  {
  }

  lemma NameAndUploadShaped(w: World, token: string, dest: string, a: UploadArgs, rnd: Hex.Bytes4)
    ensures |NameAndUpload(w, token, dest, a, rnd).issued| >= 1
    ensures Shaped(NameAndUpload(w, token, dest, a, rnd), w, NameTail, NameTail)
  {
    var s := NameAndUpload(w, token, dest, a, rnd);
    var name := ResolveName(w, token, dest, a.fileName, rnd);
    var search := ListFiles(token, ConflictQuery(dest, a.fileName));
    if name.result.Ok? {
      var up := UploadFile(w, token, dest, name.result.value, a.filePath);
      assert s.issued == [search, up.issued[0]];
      KindsTwo(search, up.issued[0]);
    } else {
      KindsOne(search);
    }
  }

  lemma IntoParentShaped(w: World, token: string, folderId: string, a: UploadArgs, rnd: Hex.Bytes4)
    ensures |IntoParent(w, token, folderId, a, rnd).issued| >= 1
    ensures Shaped(IntoParent(w, token, folderId, a, rnd), w, CreateTail, ReuseTail)
  {
    var sub := FindOrCreate(w, token, folderId, a.compositionName);
    if sub.result.Ok? {
      SubfolderFoundShaped(w, token, folderId, a, rnd);
    } else if |sub.issued| == 1 {
      assert sub.issued == [sub.issued[0]];
      KindsOne(sub.issued[0]);
    } else {
      assert sub.issued == [sub.issued[0], sub.issued[1]];
      KindsTwo(sub.issued[0], sub.issued[1]);
    }
  }

  lemma SubfolderFoundShaped(w: World, token: string, folderId: string, a: UploadArgs, rnd: Hex.Bytes4)
    requires FindOrCreate(w, token, folderId, a.compositionName).result.Ok?
    ensures |IntoParent(w, token, folderId, a, rnd).issued| >= 1
    ensures Shaped(IntoParent(w, token, folderId, a, rnd), w, CreateTail, ReuseTail)
  {
    var sub := FindOrCreate(w, token, folderId, a.compositionName);
    var rest := NameAndUpload(w.(drive := sub.drive), token, sub.result.value, a, rnd);
    ResolvedSubfolderRun(w, token, folderId, a, rnd);
    NameAndUploadShaped(w.(drive := sub.drive), token, sub.result.value, a, rnd);
    AfterShaped(sub.issued, rest, w, NameTail, NameTail);
    if |sub.issued| == 1 {
      assert sub.issued == [sub.issued[0]];
      KindsOne(sub.issued[0]);
      ShapedWeaken(After(sub.issued, rest), w, ReuseTail, CreateTail, ReuseTail);
    } else {
      assert sub.issued == [sub.issued[0], sub.issued[1]];
      KindsTwo(sub.issued[0], sub.issued[1]);
      ShapedWeaken(After(sub.issued, rest), w, CreateTail, CreateTail, ReuseTail);
    }
  }

  lemma WithTokenShaped(w: World, token: string, a: UploadArgs, rnd: Hex.Bytes4)
    ensures Shaped(WithToken(w, token, a, rnd), w, [MetadataCall] + CreateTail, [MetadataCall] + ReuseTail)
  {
    match ParseFolderUrl(a.folderUrl)
    case Err(e) =>
      assert WithToken(w, token, a, rnd).issued == [];
    case Ok(folderId) =>
      var parent := VerifyParent(w, token, folderId);
      if parent.result.Ok? {
        ParentVerifiedShaped(w, token, a, rnd, folderId);
      } else {
        KindsOne(GetMetadata(token, folderId));
      }
  }

  lemma ParentVerifiedShaped(w: World, token: string, a: UploadArgs, rnd: Hex.Bytes4, folderId: string)
    requires ParseFolderUrl(a.folderUrl) == Ok(folderId)
    requires VerifyParent(w, token, folderId).result.Ok?
    ensures Shaped(WithToken(w, token, a, rnd), w, [MetadataCall] + CreateTail, [MetadataCall] + ReuseTail)
  {
    var head := [GetMetadata(token, folderId)];
    VerifiedParentRun(w, token, a, rnd, folderId);
    IntoParentShaped(w, token, folderId, a, rnd);
    AfterShaped(head, IntoParent(w, token, folderId, a, rnd), w, CreateTail, ReuseTail);
    KindsOne(head[0]);
  }

  /** The whole run's shape: its calls are a prefix of the create plan or of
      the reuse plan. */
  lemma RunShaped(w: World, a: UploadArgs, rnd: Hex.Bytes4)
    ensures var s := UploadToGoogleDrive(w, a, rnd);
      && (|s.issued| >= 1 ==> Kinds(s.issued)[0] == TokenCall)
      && (|s.issued| >= 2 ==> Shaped(s, w, CreatePlan, ReusePlan))
      && (|s.issued| <= 1 ==> s.result.Err? && !s.result.error.RequestFailed?)
  {
    if Authenticated(w, a) {
      var head := [TokenExchange(TokenBody(w.bundles[a.base64Credentials]))];
      var rest := WithToken(w, TokenOf(w, a), a, rnd);
      AuthenticatedRun(w, a, rnd);
      WithTokenShaped(w, TokenOf(w, a), a, rnd);
      KindsOne(head[0]);
      KindsAppend(head, rest.issued);
      if |rest.issued| >= 1 {
        AfterShaped(head, rest, w, [MetadataCall] + CreateTail, [MetadataCall] + ReuseTail);
      }
    }
  }

  /** The token request is the first request of every run that sends one; it
      carries exactly the four grant fields, copied from the decoded bundle,
      and no other request is a token request. A bundle that does not decode
      ends the run before anything is sent. */
  lemma TokenRequestFirst(w: World, a: UploadArgs, rnd: Hex.Bytes4)
    ensures a.base64Credentials !in w.bundles ==>
      UploadToGoogleDrive(w, a, rnd) == Step(Err(MalformedCredentials), [], w.drive)
    ensures a.base64Credentials in w.bundles ==>
      var s := UploadToGoogleDrive(w, a, rnd);
      var c := w.bundles[a.base64Credentials];
      && |s.issued| >= 1
      && s.issued[0].TokenExchange?
      && s.issued[0].body.Keys == {"client_id", "client_secret", "refresh_token", "grant_type"}
      && s.issued[0].body["client_id"] == c.clientId
      && s.issued[0].body["client_secret"] == c.clientSecret
      && s.issued[0].body["refresh_token"] == c.refreshToken
      && s.issued[0].body["grant_type"] == "refresh_token"
      && forall j :: 1 <= j < |s.issued| ==> !s.issued[j].TokenExchange?
  {
    var s := UploadToGoogleDrive(w, a, rnd);
    if a.base64Credentials in w.bundles {
      var head := [TokenExchange(TokenBody(w.bundles[a.base64Credentials]))];
      if Authenticated(w, a) {
        AuthenticatedRun(w, a, rnd);
        assert s.issued[0] == head[0];
      }
      RunShaped(w, a, rnd);
      if |s.issued| >= 2 {
        PlanPrefixCalls(Kinds(s.issued));
      }
      forall j | 1 <= j < |s.issued|
        ensures !s.issued[j].TokenExchange?
      {
        assert Kinds(s.issued)[j] == KindOf(s.issued[j]);
      }
    }
  }

  /** A rejected grant ends the run after the token request alone. */
  lemma TokenRejectedStops(w: World, a: UploadArgs, rnd: Hex.Bytes4)
    requires a.base64Credentials in w.bundles && w.bundles[a.base64Credentials] !in w.grants
    ensures UploadToGoogleDrive(w, a, rnd) ==
      Step(Err(TokenRejected), [TokenExchange(TokenBody(w.bundles[a.base64Credentials]))], w.drive)
  {
  }

  /** A folder reference without a `/folders/` segment followed by a non-`/`
      character, or no reference at all, fails after the token request and
      before any Drive request. */
  lemma BadFolderUrlStopsAfterToken(w: World, a: UploadArgs, rnd: Hex.Bytes4)
    requires Authenticated(w, a)
    requires a.folderUrl.None? || forall i :: !FolderUrl.MatchesAt(a.folderUrl.value, i)
    ensures UploadToGoogleDrive(w, a, rnd) == Step(
      Err(if a.folderUrl.None? then MissingFolderUrl else InvalidFolderUrl(a.folderUrl.value)),
      [TokenExchange(TokenBody(w.bundles[a.base64Credentials]))],
      w.drive)
  {
    ParseFolderUrlOutcome(a.folderUrl);
  }

  /** When the reference parses, the second request is the parent's metadata
      request, with the access token and the parsed id, which is non-empty
      and free of `/`. */
  lemma MetadataRequestNamesParsedId(w: World, a: UploadArgs, rnd: Hex.Bytes4)
    requires Authenticated(w, a)
    requires ParseFolderUrl(a.folderUrl).Ok?
    ensures var s := UploadToGoogleDrive(w, a, rnd);
      var id := ParseFolderUrl(a.folderUrl).value;
      && |s.issued| >= 2
      && s.issued[1] == GetMetadata(TokenOf(w, a), id)
      && id != []
      && forall k :: 0 <= k < |id| ==> id[k] != '/'
  {
    ParseFolderUrlOutcome(a.folderUrl);
    var token := TokenOf(w, a);
    var id := ParseFolderUrl(a.folderUrl).value;
    var rest := WithToken(w, token, a, rnd);
    assert rest.issued[0] == GetMetadata(token, id) by {
      if VerifyParent(w, token, id).result.Ok? {
        IntoParentShaped(w, token, id, a, rnd);
      }
    }
  }

  /** A parent whose metadata says it is trashed ends the run with
      `ParentTrashed` after the metadata request: no subfolder search, no
      create, no file search, no upload, and the Drive unchanged. */
  lemma TrashedParentStops(w: World, a: UploadArgs, rnd: Hex.Bytes4, id: string)
    requires Authenticated(w, a)
    requires ParseFolderUrl(a.folderUrl) == Ok(id)
    requires MetadataCall !in w.rejects
    requires Lookup(w.drive, FolderUrl.PathPart(id)).Some? && Lookup(w.drive, FolderUrl.PathPart(id)).value.trashed
    ensures UploadToGoogleDrive(w, a, rnd) == Step(
      Err(ParentTrashed),
      [TokenExchange(TokenBody(w.bundles[a.base64Credentials])), GetMetadata(TokenOf(w, a), id)],
      w.drive)
  {
    VerifyParentOutcome(w, TokenOf(w, a), id);
  }

  /** The requests of every run follow the stage order: they are a prefix of
      the create plan or of the reuse plan, and a successful run completes
      one of the two. */
  lemma RequestsFollowStageOrder(w: World, a: UploadArgs, rnd: Hex.Bytes4)
    ensures var ks := Kinds(UploadToGoogleDrive(w, a, rnd).issued);
      IsPrefix(ks, CreatePlan) || IsPrefix(ks, ReusePlan)
    ensures UploadToGoogleDrive(w, a, rnd).result.Ok? ==>
      Kinds(UploadToGoogleDrive(w, a, rnd).issued) in {CreatePlan, ReusePlan}
  {
    var s := UploadToGoogleDrive(w, a, rnd);
    RunShaped(w, a, rnd);
    if |s.issued| == 1 {
      assert Kinds(s.issued) == [TokenCall];
    }
  }

  /** A `RequestFailed` error comes from the last request the run sent: the
      run stops at the call Drive rejected. */
  lemma FailedCallIsLast(w: World, a: UploadArgs, rnd: Hex.Bytes4)
    ensures var s := UploadToGoogleDrive(w, a, rnd);
      s.result.Err? && s.result.error.RequestFailed? ==>
        |s.issued| >= 1 && KindOf(s.issued[|s.issued| - 1]) == s.result.error.call
        && s.result.error.call in w.rejects
  {
    RunShaped(w, a, rnd);
  }

  /** An upload request is sent only once every earlier stage succeeded, as
      the last request; the run then either returns the id Drive gave the
      upload or fails with the upload's own error. */
  lemma UploadOnlyAfterEveryStage(w: World, a: UploadArgs, rnd: Hex.Bytes4)
    ensures var s := UploadToGoogleDrive(w, a, rnd);
      forall j :: 0 <= j < |s.issued| && s.issued[j].UploadMultipart? ==>
        && j == |s.issued| - 1
        && (s.result == Ok(w.newFileId) || s.result == Err(RequestFailed(UploadCall)))
  {
    RunShaped(w, a, rnd);
    UploadLastWhenShaped(UploadToGoogleDrive(w, a, rnd), w);
  }

  /** The upload part of `UploadOnlyAfterEveryStage`, for any requests of
      the run's shape. */
  lemma UploadLastWhenShaped(s: Step<string>, w: World)
    requires |s.issued| >= 1 ==> Kinds(s.issued)[0] == TokenCall
    requires |s.issued| >= 2 ==> Shaped(s, w, CreatePlan, ReusePlan)
    ensures forall j :: 0 <= j < |s.issued| && s.issued[j].UploadMultipart? ==>
      && j == |s.issued| - 1
      && (s.result == Ok(w.newFileId) || s.result == Err(RequestFailed(UploadCall)))
  {
    if |s.issued| >= 2 {
      PlanPrefixCalls(Kinds(s.issued));
    }
    forall j | 0 <= j < |s.issued| && s.issued[j].UploadMultipart?
      ensures j == |s.issued| - 1
      ensures s.result == Ok(w.newFileId) || s.result == Err(RequestFailed(UploadCall))
    {
      assert Kinds(s.issued)[j] == UploadCall;
    }
  }

  /** Stages four and five with nothing rejected: one file search, then the
      upload of the resolved name into `dest`; the id Drive gives the upload
      is returned unchanged. */
  lemma NameAndUploadSucceeds(w: World, token: string, dest: string, a: UploadArgs, rnd: Hex.Bytes4)
    requires FileSearchCall !in w.rejects && UploadCall !in w.rejects
    ensures var n := if HasConflict(w.drive, dest, a.fileName) then CopyName(a.fileName, rnd) else a.fileName;
      NameAndUpload(w, token, dest, a, rnd) == Step(
        Ok(w.newFileId),
        [ListFiles(token, ConflictQuery(dest, a.fileName)), UploadMultipart(token, n, [dest], MediaMimeType, a.filePath)],
        w.drive + [UploadedFile(w, dest, n)])
  {
    ResolveNameChoice(w, token, dest, a.fileName, rnd);
  }

  /** A successful run passed every stage: the bundle decoded and was
      accepted, the reference parsed, the parent was found and not trashed,
      and the subfolder was found or created. */
  lemma SuccessfulRunStages(w: World, a: UploadArgs, rnd: Hex.Bytes4)
    requires UploadToGoogleDrive(w, a, rnd).result.Ok?
    ensures Authenticated(w, a)
    ensures ParseFolderUrl(a.folderUrl).Ok?
    ensures VerifyParent(w, TokenOf(w, a), ParseFolderUrl(a.folderUrl).value).result.Ok?
    ensures FindOrCreate(w, TokenOf(w, a), ParseFolderUrl(a.folderUrl).value, a.compositionName).result.Ok?
  {
  }

  /** A successful run returns the id Drive gave the upload, unchanged; the
      last request is the upload into the subfolder that find-or-create
      resolved, under the desired name when that subfolder held no
      non-trashed item of that name and under its copy name when it did;
      the Drive afterwards is the one find-or-create left, with the new
      file appended. */
  lemma SuccessfulRunUploads(w: World, a: UploadArgs, rnd: Hex.Bytes4)
    requires UploadToGoogleDrive(w, a, rnd).result.Ok?
    ensures Authenticated(w, a) && ParseFolderUrl(a.folderUrl).Ok?
    ensures FindOrCreate(w, TokenOf(w, a), ParseFolderUrl(a.folderUrl).value, a.compositionName).result.Ok?
    ensures var s := UploadToGoogleDrive(w, a, rnd);
      var sub := FindOrCreate(w, TokenOf(w, a), ParseFolderUrl(a.folderUrl).value, a.compositionName);
      var dest := sub.result.value;
      var finalName := if HasConflict(sub.drive, dest, a.fileName) then CopyName(a.fileName, rnd) else a.fileName;
      && s.result.value == w.newFileId
      && |s.issued| >= 1
      && s.issued[|s.issued| - 1] == UploadMultipart(TokenOf(w, a), finalName, [dest], MediaMimeType, a.filePath)
      && s.drive == sub.drive + [UploadedFile(w, dest, finalName)]
  {
    SuccessfulRunStages(w, a, rnd);
    var token := TokenOf(w, a);
    var id := ParseFolderUrl(a.folderUrl).value;
    var sub := FindOrCreate(w, token, id, a.compositionName);
    RunThroughSubfolder(w, a, rnd, id);
    NameAndUploadSucceeds(w.(drive := sub.drive), token, sub.result.value, a, rnd);
  }

  /** Find-or-create is idempotent: run it, keep the Drive it leaves, and
      run it again with the same parent and name; the second run reuses the
      same folder, creates nothing and leaves the Drive as it was. */
  lemma FindOrCreateIdempotent(w: World, token: string, parent: string, name: string)
    requires FindOrCreate(w, token, parent, name).result.Ok?
    ensures var s1 := FindOrCreate(w, token, parent, name);
      FindOrCreate(w.(drive := s1.drive), token, parent, name) ==
        Step(s1.result, [ListFiles(token, SubfolderQuery(parent, name))], s1.drive)
  {
    var q := SubfolderQuery(parent, name);
    var s1 := FindOrCreate(w, token, parent, name);
    if Search(w.drive, q) == [] {
      var folder := CreatedFolder(w, parent, name);
      SearchAppend(w.drive, folder, q);
      assert Search(s1.drive, q) == [folder];
    }
  }

  /** The copy name is not searched for: when the destination already holds
      both the desired name and the copy name, the run still picks the copy
      name, which collides. */
  lemma CopyNameNotRechecked(w: World, token: string, folderId: string, fileName: string, rnd: Hex.Bytes4)
    requires FileSearchCall !in w.rejects
    requires HasConflict(w.drive, folderId, fileName)
    requires HasConflict(w.drive, folderId, CopyName(fileName, rnd))
    ensures var s := ResolveName(w, token, folderId, fileName, rnd);
      s.result.Ok? && HasConflict(w.drive, folderId, s.result.value) && |s.issued| == 1
  {
    ResolveNameChoice(w, token, folderId, fileName, rnd);
  }

  /** The conflict search has no folder-type filter: a same-named subfolder
      in the destination renames the upload just as a file would. */
  lemma SameNamedFolderRenames(w: World, token: string, folderId: string, fileName: string, rnd: Hex.Bytes4, f: Item)
    requires FileSearchCall !in w.rejects
    requires f in w.drive && f.isFolder && !f.trashed && f.name == fileName && folderId in f.parents
    ensures ResolveName(w, token, folderId, fileName, rnd).result == Ok(CopyName(fileName, rnd))
  {
    assert HasConflict(w.drive, folderId, fileName);
    ResolveNameChoice(w, token, folderId, fileName, rnd);
  }

  /** Regrouping the requests of the stages into one trace. */
  lemma Regroup5(r1: Request, r2: Request, r3: Request, r4: Request, r5: Request)
    ensures [r1] + ([r2] + ([r3] + [r4, r5])) == [r1, r2, r3, r4, r5]
  {
  }

  lemma Regroup6(r1: Request, r2: Request, r3: Request, r4: Request, r5: Request, r6: Request)
    ensures [r1] + ([r2] + ([r3, r4] + [r5, r6])) == [r1, r2, r3, r4, r5, r6]
  {
  }

  lemma AppendTwo(items: seq<Item>, x: Item, y: Item)
    ensures (items + [x]) + [y] == items + [x, y]
  {
  }

  /** No item has `id` as its id or among its parents. */
  predicate FreshId(items: seq<Item>, id: string) {
    forall it :: it in items ==> it.id != id && id !in it.parents
  }

  /** A run that gets past the subfolder stage is the token exchange, the
      metadata request, the subfolder stage's requests and the last two
      stages' requests, and ends as those last two stages end. */
  lemma RunThroughSubfolder(w: World, a: UploadArgs, rnd: Hex.Bytes4, id: string)
    requires Authenticated(w, a)
    requires ParseFolderUrl(a.folderUrl) == Ok(id)
    requires VerifyParent(w, TokenOf(w, a), id).result.Ok?
    requires FindOrCreate(w, TokenOf(w, a), id, a.compositionName).result.Ok?
    ensures var token := TokenOf(w, a);
      var sub := FindOrCreate(w, token, id, a.compositionName);
      var nu := NameAndUpload(w.(drive := sub.drive), token, sub.result.value, a, rnd);
      UploadToGoogleDrive(w, a, rnd) == Step(
        nu.result,
        [TokenExchange(TokenBody(w.bundles[a.base64Credentials]))] + ([GetMetadata(token, id)] + (sub.issued + nu.issued)),
        nu.drive)
  {
    var token := TokenOf(w, a);
    AuthenticatedRun(w, a, rnd);
    VerifiedParentRun(w, token, a, rnd, id);
    ResolvedSubfolderRun(w, token, id, a, rnd);
  }

  /** A folder with a fresh id, just added, holds nothing: no name
      conflicts in it. */
  lemma NewFolderHasNoConflict(items: seq<Item>, created: Item, newId: string, fileName: string)
    requires FreshId(items, newId) && newId !in created.parents
    ensures !HasConflict(items + [created], newId, fileName)
  {
    forall it | it in items + [created]
      ensures newId !in it.parents
    {
      if it !in items {
        assert it == created;
      }
    }
  }

  /** First end-to-end scenario: a valid token, a non-trashed parent, no
      subfolder of that name yet, a fresh folder id, and no rejected call.
      The run sends the six requests of the create plan, creates exactly one
      folder, uploads exactly once under the desired name, and returns the
      id from Drive's response. */
  lemma CreateScenario(w: World, a: UploadArgs, rnd: Hex.Bytes4, id: string, p: Item)
    requires Authenticated(w, a)
    requires ParseFolderUrl(a.folderUrl) == Ok(id)
    requires w.rejects == {}
    requires Lookup(w.drive, FolderUrl.PathPart(id)) == Some(p) && !p.trashed
    requires forall it :: it in w.drive ==> !Matches(SubfolderQuery(id, a.compositionName), it)
    requires FreshId(w.drive, w.newFolderId) && w.newFolderId != id
    ensures var token := TokenOf(w, a);
      UploadToGoogleDrive(w, a, rnd) == Step(
        Ok(w.newFileId),
        [ TokenExchange(TokenBody(w.bundles[a.base64Credentials])),
          GetMetadata(token, id),
          ListFiles(token, SubfolderQuery(id, a.compositionName)),
          CreateFolder(token, a.compositionName, FolderMimeType, [id]),
          ListFiles(token, ConflictQuery(w.newFolderId, a.fileName)),
          UploadMultipart(token, a.fileName, [w.newFolderId], MediaMimeType, a.filePath) ],
        w.drive + [CreatedFolder(w, id, a.compositionName), UploadedFile(w, w.newFolderId, a.fileName)])
  {
    var token := TokenOf(w, a);
    VerifyParentOutcome(w, token, id);
    FindOrCreateChoice(w, token, id, a.compositionName);
    var sub := FindOrCreate(w, token, id, a.compositionName);
    RunThroughSubfolder(w, a, rnd, id);
    var w2 := w.(drive := sub.drive);
    NewFolderHasNoConflict(w.drive, CreatedFolder(w, id, a.compositionName), w.newFolderId, a.fileName);
    NameAndUploadSucceeds(w2, token, w.newFolderId, a, rnd);
    var r1 := TokenExchange(TokenBody(w.bundles[a.base64Credentials]));
    var r2 := GetMetadata(token, id);
    var r3 := ListFiles(token, SubfolderQuery(id, a.compositionName));
    var r4 := CreateFolder(token, a.compositionName, FolderMimeType, [id]);
    var r5 := ListFiles(token, ConflictQuery(w.newFolderId, a.fileName));
    var r6 := UploadMultipart(token, a.fileName, [w.newFolderId], MediaMimeType, a.filePath);
    var created := CreatedFolder(w, id, a.compositionName);
    var uploaded := UploadedFile(w, w.newFolderId, a.fileName);
    var last := Step(Ok(w.newFileId), [r5, r6], w2.drive + [uploaded]);
    assert NameAndUpload(w2, token, w.newFolderId, a, rnd) == last;
    assert sub.issued == [r3, r4] && sub.result.value == w.newFolderId;
    AppendTwo(w.drive, created, uploaded);
    Regroup6(r1, r2, r3, r4, r5, r6);
  }

  /** Second end-to-end scenario: the subfolder exists (the first match is
      `d`) and already holds a non-trashed item with the desired name. The
      run creates nothing and uploads into `d` under the desired name
      followed by `_copy_` and the eight hex digits of the random bytes. */
  lemma CollisionScenario(w: World, a: UploadArgs, rnd: Hex.Bytes4, id: string, p: Item, i: int)
    requires Authenticated(w, a)
    requires ParseFolderUrl(a.folderUrl) == Ok(id)
    requires w.rejects == {}
    requires Lookup(w.drive, FolderUrl.PathPart(id)) == Some(p) && !p.trashed
    requires IsFirstMatch(w.drive, SubfolderQuery(id, a.compositionName), i)
    requires HasConflict(w.drive, w.drive[i].id, a.fileName)
    ensures var token := TokenOf(w, a);
      var d := w.drive[i].id;
      UploadToGoogleDrive(w, a, rnd) == Step(
        Ok(w.newFileId),
        [ TokenExchange(TokenBody(w.bundles[a.base64Credentials])),
          GetMetadata(token, id),
          ListFiles(token, SubfolderQuery(id, a.compositionName)),
          ListFiles(token, ConflictQuery(d, a.fileName)),
          UploadMultipart(token, CopyName(a.fileName, rnd), [d], MediaMimeType, a.filePath) ],
        w.drive + [UploadedFile(w, d, CopyName(a.fileName, rnd))])
  {
    var token := TokenOf(w, a);
    var q := SubfolderQuery(id, a.compositionName);
    AuthenticatedRun(w, a, rnd);
    VerifyParentOutcome(w, token, id);
    VerifiedParentRun(w, token, a, rnd, id);
    FindOrCreateChoice(w, token, id, a.compositionName);
    assert w.drive[i] in w.drive && Matches(q, w.drive[i]);
    var sub := FindOrCreate(w, token, id, a.compositionName);
    var k :| IsFirstMatch(w.drive, q, k) && sub.result.value == w.drive[k].id;
    assert Matches(q, w.drive[k]) && Matches(q, w.drive[i]);
    assert k == i;
    var d := w.drive[i].id;
    ResolvedSubfolderRun(w, token, id, a, rnd);
    assert w.(drive := sub.drive) == w;
    NameAndUploadSucceeds(w, token, d, a, rnd);
    var r1 := TokenExchange(TokenBody(w.bundles[a.base64Credentials]));
    var r2 := GetMetadata(token, id);
    var r3 := ListFiles(token, q);
    var r4 := ListFiles(token, ConflictQuery(d, a.fileName));
    var r5 := UploadMultipart(token, CopyName(a.fileName, rnd), [d], MediaMimeType, a.filePath);
    var last := Step(Ok(w.newFileId), [r4, r5], w.drive + [UploadedFile(w, d, CopyName(a.fileName, rnd))]);
    assert NameAndUpload(w, token, d, a, rnd) == last;
    assert sub.issued == [r3];
    Regroup5(r1, r2, r3, r4, r5);
  }

  /** A sharing link whose id is followed by a query, as in
      `.../folders/<id>?usp=sharing`: the reference parses to the id with the
      query attached. The metadata request then verifies the folder `<id>`,
      but the subfolder search and the create name the whole text as the
      parent; when no item has that text among its parents, a create is
      sent whatever `<id>` already holds. */
  lemma QueryLinkSplitsParentId(w: World, a: UploadArgs, rnd: Hex.Bytes4, id: string, query: string, p: Item)
    requires Authenticated(w, a)
    requires id != [] && forall k :: 0 <= k < |id| ==> id[k] != '/' && id[k] != '?' && id[k] != '#'
    requires forall k :: 0 <= k < |query| ==> query[k] != '/'
    requires a.folderUrl == Some("https://drive.google.com/drive/folders/" + id + "?" + query)
    requires w.rejects == {}
    requires Lookup(w.drive, id) == Some(p) && !p.trashed
    requires forall it :: it in w.drive ==> id + "?" + query !in it.parents
    ensures var full := id + "?" + query;
      var s := UploadToGoogleDrive(w, a, rnd);
      var token := TokenOf(w, a);
      && ParseFolderUrl(a.folderUrl) == Ok(full)
      && VerifyParent(w, token, full).result == Ok(p)
      && |s.issued| >= 4
      && s.issued[1] == GetMetadata(token, full)
      && s.issued[2] == ListFiles(token, SubfolderQuery(full, a.compositionName))
      && s.issued[3] == CreateFolder(token, a.compositionName, FolderMimeType, [full])
  {
    var full := id + "?" + query;
    FolderUrl.SharingLinkWithQuery(id, query);
    var token := TokenOf(w, a);
    VerifyParentOutcome(w, token, full);
    FindOrCreateChoice(w, token, full, a.compositionName);
    var sub := FindOrCreate(w, token, full, a.compositionName);
    assert |sub.issued| == 2;
    SubfolderRequestsInRun(w, a, rnd, full);
  }

  /** Once the parent is verified and the subfolder resolved, the run's
      requests are the token exchange, the metadata request, and then the
      subfolder stage's requests in order. */
  lemma SubfolderRequestsInRun(w: World, a: UploadArgs, rnd: Hex.Bytes4, id: string)
    requires Authenticated(w, a)
    requires ParseFolderUrl(a.folderUrl) == Ok(id)
    requires VerifyParent(w, TokenOf(w, a), id).result.Ok?
    requires FindOrCreate(w, TokenOf(w, a), id, a.compositionName).result.Ok?
    ensures var s := UploadToGoogleDrive(w, a, rnd);
      var sub := FindOrCreate(w, TokenOf(w, a), id, a.compositionName);
      && |s.issued| >= 2 + |sub.issued|
      && s.issued[1] == GetMetadata(TokenOf(w, a), id)
      && forall k :: 0 <= k < |sub.issued| ==> s.issued[2 + k] == sub.issued[k]
  {
    var token := TokenOf(w, a);
    AuthenticatedRun(w, a, rnd);
    VerifiedParentRun(w, token, a, rnd, id);
    ResolvedSubfolderRun(w, token, id, a, rnd);
  }
}
