/**
 The vocabulary shared by the whole model: optional values, results, the
 remote calls the upload routine can issue, and the errors it can raise.

 The JavaScript routine signals every failure by throwing; here each stage
 returns a tagged `Result` instead, and "rethrow unchanged" becomes "the same
 `Error` value is passed on".
 */
module Api {

  datatype Option<+T> = None | Some(value: T)

  datatype Result<+T> = Ok(value: T) | Err(error: Error)

  /** The remote calls of one upload, in the order the routine issues them. */
  datatype Call =
    | TokenCall         // POST to the OAuth2 token endpoint
    | MetadataCall      // GET files/{id} for the parent folder
    | FolderSearchCall  // files.list for the composition subfolder
    | FolderCreateCall  // files.create of the composition subfolder
    | FileSearchCall    // files.list for a same-named file
    | UploadCall        // POST to the multipart upload URL, with a JSON body

  datatype Error =
    /** Decoding the base64 bundle or parsing its JSON threw. */
    | MalformedCredentials
    /** The token endpoint refused the refresh-token grant. */
    | TokenRejected
    /** `folderUrl` was undefined, so calling `match` on it threw. */
    | MissingFolderUrl
    /** The folder reference holds no `/folders/<id>` segment. */
    | InvalidFolderUrl(url: string)
    /** The parent folder's metadata request answered "not found". */
    | FolderNotFound(id: string)
    /** The parent folder's metadata says it is in the trash. */
    | ParentTrashed
    /** Any other API error, tagged with the call that raised it. */
    | RequestFailed(call: Call)
    /** The action was invoked for a lifecycle stage other than "postrender". */
    | NotPostrender(stage: string)
    /** The action's `base64Credentials` parameter is falsy. */
    | MissingCredentials
    /** The action's `fileName` parameter is falsy. */
    | MissingFileName
}
