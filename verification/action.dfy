/**
 The nexrender action entry point `run(job, settings, action, type)`: it
 refuses to run outside the postrender stage, checks the two required
 parameters, works out the path of the rendered file, hands everything to
 the upload routine and rethrows whatever that routine throws.

 The logger in `settings` only prints messages and is not modelled.
 */
module Action {
  import opened Api
  import opened Drive
  import opened Upload
  import Hex
  import UploadFacts

  /** The fields of the nexrender job the action reads. */
  datatype Job = Job(output: string, workpath: string)

  /** The action's parameters as the job description gives them; `None` is a
      parameter that is absent. */
  datatype ActionParams = ActionParams(
    base64Credentials: Option<string>,
    folderUrl: Option<string>,
    compositionName: string,
    fileName: Option<string>,
    driveID: Option<string>)

  /** What `run` does: its outcome (it returns nothing on success), the
      arguments it passed to the upload routine if it got that far, and the
      requests and Drive that the upload left. */
  datatype RunOutcome = RunOutcome(
    result: Result<()>,
    call: Option<UploadArgs>,
    issued: seq<Request>,
    drive: seq<Item>)

  const Postrender: string := "postrender"

  /** JavaScript falsiness of a string parameter: absent or empty. */
  predicate Falsy(v: Option<string>) {
    v.None? || v.value == ""
  }

  /** `path.isAbsolute` for POSIX paths. */
  predicate IsAbsolute(p: string) {
    |p| > 0 && p[0] == '/'
  }

  /** The rendered file's path: the job output as it is when absolute,
      otherwise joined onto the job's working directory. */
  function InputPath(job: Job): (p: string)
    ensures IsAbsolute(job.output) ==> p == job.output
    ensures !IsAbsolute(job.output) ==>
      && |p| == |job.workpath| + 1 + |job.output|
      && p[..|job.workpath|] == job.workpath
      && p[|job.workpath|] == '/'
      && p[|job.workpath| + 1..] == job.output
  {
    if IsAbsolute(job.output) then job.output
    else
      var p := job.workpath + "/" + job.output;
      assert p == job.workpath + ("/" + job.output);
      assert p[|job.workpath|..] == "/" + job.output;
      p
  }

  /** The arguments `run` passes to the upload routine once both required
      parameters are present. */
  function UploadCallArgs(job: Job, action: ActionParams): UploadArgs
    requires !Falsy(action.base64Credentials) && !Falsy(action.fileName)
  {
    UploadArgs(
      action.base64Credentials.value,
      action.folderUrl,
      action.compositionName,
      InputPath(job),
      action.fileName.value,
      action.driveID)
  }

  /** `run`; the random bytes are those the upload routine would draw. */
  function Run(w: World, job: Job, action: ActionParams, stage: string, rnd: Hex.Bytes4): (o: RunOutcome)
    ensures o.call.Some? <==> stage == Postrender && !Falsy(action.base64Credentials) && !Falsy(action.fileName)
    ensures o.call.None? ==> o.result.Err? && o.issued == [] && o.drive == w.drive
    ensures o.result.Ok? ==> |o.issued| >= 5 && o.issued[|o.issued| - 1].UploadMultipart?
  {
    if stage != Postrender then RunOutcome(Err(NotPostrender(stage)), None, [], w.drive)
    else if Falsy(action.base64Credentials) then RunOutcome(Err(MissingCredentials), None, [], w.drive)
    else if Falsy(action.fileName) then RunOutcome(Err(MissingFileName), None, [], w.drive)
    else
      var args := UploadCallArgs(job, action);
      var s := UploadToGoogleDrive(w, args, rnd);
      RunOutcome(if s.result.Ok? then Ok(()) else Err(s.result.error), Some(args), s.issued, s.drive)
  }

  /** The stage gate comes first: outside postrender the action fails with an
      error naming the stage it was given, whatever its parameters, and
      nothing is sent. */
  lemma StageGateFirst(w: World, job: Job, action: ActionParams, stage: string, rnd: Hex.Bytes4)
    ensures stage != Postrender <==> Run(w, job, action, stage, rnd).result == Err(NotPostrender(stage))
    ensures stage != Postrender ==> Run(w, job, action, stage, rnd) == RunOutcome(Err(NotPostrender(stage)), None, [], w.drive)
  {
    if stage == Postrender {
      var o := Run(w, job, action, stage, rnd);
      if o.call.Some? {
        var s := UploadToGoogleDrive(w, o.call.value, rnd);
        UploadNeverNotPostrender(w, o.call.value, rnd);
      }
    }
  }

  /** The upload routine never raises the stage error itself. */
  lemma UploadNeverNotPostrender(w: World, a: UploadArgs, rnd: Hex.Bytes4)
    ensures UploadToGoogleDrive(w, a, rnd).result.Err? ==> !UploadToGoogleDrive(w, a, rnd).result.error.NotPostrender?
    ensures UploadToGoogleDrive(w, a, rnd).result.Err? ==> !UploadToGoogleDrive(w, a, rnd).result.error.MissingCredentials?
    ensures UploadToGoogleDrive(w, a, rnd).result.Err? ==> !UploadToGoogleDrive(w, a, rnd).result.error.MissingFileName?
  {
    var s := UploadToGoogleDrive(w, a, rnd);
    if UploadFacts.Authenticated(w, a) {
      var token := w.grants[w.bundles[a.base64Credentials]];
      assert s.result == WithToken(w, token, a, rnd).result;
      match ParseFolderUrl(a.folderUrl)
      case Err(e) =>
      case Ok(id) =>
        if VerifyParent(w, token, id).result.Ok? {
          assert s.result == IntoParent(w, token, id, a, rnd).result;
        }
    }
  }

  /** In postrender, the credentials are checked before the file name, and
      each missing parameter fails the action before any request. */
  lemma ParameterChecksInOrder(w: World, job: Job, action: ActionParams, rnd: Hex.Bytes4)
    ensures Falsy(action.base64Credentials) ==>
      Run(w, job, action, Postrender, rnd) == RunOutcome(Err(MissingCredentials), None, [], w.drive)
    ensures !Falsy(action.base64Credentials) && Falsy(action.fileName) ==>
      Run(w, job, action, Postrender, rnd) == RunOutcome(Err(MissingFileName), None, [], w.drive)
  {
  }

  /** The resolved path always ends with the job output's text, and it is
      absolute when the output or the working directory is. */
  lemma InputPathResolves(job: Job)
    ensures |InputPath(job)| >= |job.output|
    ensures InputPath(job)[|InputPath(job)| - |job.output|..] == job.output
    ensures IsAbsolute(job.output) || IsAbsolute(job.workpath) ==> IsAbsolute(InputPath(job))
  {
    var p := InputPath(job);
    if !IsAbsolute(job.output) {
      assert p[|p| - |job.output|..] == p[|job.workpath| + 1..];
    }
  }

  /** The parameters are handed to the upload routine unchanged, with the
      resolved input path and the desired file name; the requests and the
      Drive are the upload routine's own. */
  lemma ForwardsArguments(w: World, job: Job, action: ActionParams, rnd: Hex.Bytes4)
    requires !Falsy(action.base64Credentials) && !Falsy(action.fileName)
    ensures var o := Run(w, job, action, Postrender, rnd);
      && o.call.Some?
      && o.call.value.base64Credentials == action.base64Credentials.value
      && o.call.value.folderUrl == action.folderUrl
      && o.call.value.compositionName == action.compositionName
      && o.call.value.filePath == InputPath(job)
      && o.call.value.fileName == action.fileName.value
      && o.call.value.driveId == action.driveID
      && o.issued == UploadToGoogleDrive(w, o.call.value, rnd).issued
      && o.drive == UploadToGoogleDrive(w, o.call.value, rnd).drive
  {
  }

  /** The upload's error is rethrown unchanged, and its success (the file id)
      becomes a plain return with no value. */
  lemma RethrowsUnchanged(w: World, job: Job, action: ActionParams, rnd: Hex.Bytes4)
    requires !Falsy(action.base64Credentials) && !Falsy(action.fileName)
    ensures var o := Run(w, job, action, Postrender, rnd);
      var s := UploadToGoogleDrive(w, UploadCallArgs(job, action), rnd);
      && (o.result.Ok? <==> s.result.Ok?)
      && (o.result.Ok? ==> o.result == Ok(()))
      && (s.result.Err? ==> o.result == Err(s.result.error))
  {
  }

  /** `r` uploads the file at `path` under `fileName` or its copy name. */
  predicate UploadsFrom(r: Request, path: string, fileName: string, rnd: Hex.Bytes4) {
    && r.UploadMultipart?
    && r.localPath == path
    && (r.name == fileName || r.name == CopyName(fileName, rnd))
  }

  /** A successful action uploaded the rendered file: the last request is
      the upload of the resolved input path, under the desired name or its
      copy name. */
  lemma SuccessUploadsRenderedFile(w: World, job: Job, action: ActionParams, stage: string, rnd: Hex.Bytes4)
    requires Run(w, job, action, stage, rnd).result.Ok?
    ensures stage == Postrender && !Falsy(action.fileName)
    ensures var o := Run(w, job, action, stage, rnd);
      |o.issued| >= 1 && UploadsFrom(o.issued[|o.issued| - 1], InputPath(job), action.fileName.value, rnd)
  {
    var o := Run(w, job, action, stage, rnd);
    assert o.call.Some?;
    var args := UploadCallArgs(job, action);
    var s := UploadToGoogleDrive(w, args, rnd);
    assert o.issued == s.issued && s.result.Ok?;
    UploadFacts.SuccessfulRunUploads(w, args, rnd);
    var last := s.issued[|s.issued| - 1];
    assert o.issued[|o.issued| - 1] == last;
    assert last.localPath == args.filePath == InputPath(job);
    assert last.name == args.fileName || last.name == CopyName(args.fileName, rnd);
  }
}
