# Upload of a rendered file to Google Drive, as a Dafny model

This project models the nexrender post-render action that uploads a rendered
file to Google Drive. It covers two parts:

- the action entry point `run` (`index.js`);
- the upload routine `uploadToGoogleDrive` (`uploadToGdrive.js`).

The upload routine runs six stages in order:

1. exchange the refresh token of a base64 credential bundle for an access token;
2. extract the parent folder id from the folder URL;
3. fetch the parent's metadata and refuse a trashed parent;
4. find the composition subfolder under the parent, or create it;
5. search the subfolder for an item with the desired name, and on a conflict
   rename the upload to `<name>_copy_<8 hex digits>`;
6. post an upload request, with a JSON body whose metadata names the final
   name and the subfolder, to the multipart upload URL, and return the new
   file's id.

`run` runs only in the `postrender` stage. It checks `base64Credentials` and
then `fileName`, resolves the rendered file's path against the job's working
directory, calls the upload routine, and rethrows any error unchanged.

The model is a set of pure functions over a `World`:

- the credential bundles that decode, and the grants the identity provider accepts;
- the Drive, as a list of items in listing order;
- the Drive calls that answer with an error;
- the ids Drive assigns to a new folder and to a new file.

A run returns a `Step`: its result (`Ok` or `Err` with the stage's error), the
requests sent in order, and the Drive afterwards. The four random bytes of the
rename are a parameter.

Modules:

- `Api`: `Option`, `Result`, the call kinds and the errors.
- `Hex`: rendering of the random bytes as lowercase hex, and reading it back.
- `FolderUrl`: the semantics of the unanchored `/\/folders\/([^\/]+)/` match.
- `Drive`: items, queries, `files.list` and `files.get`.
- `Upload`: the stages and `UploadToGoogleDrive`.
- `UploadFacts`: properties of whole runs.
- `Action`: `run`.

Three facts about the code are worth stating, because a reader could
expect otherwise:

- The code sends the token request before it parses the folder reference,
  so an unparsable reference fails after one request
  (`UploadFacts.BadFolderUrlStopsAfterToken`).
- Only references with a `/folders/<id>` segment parse. A bare id is
  rejected (`FolderUrl.BareIdRejected`).
- `index.js` always uses `job.output` as the file to upload.

The captured id is used in two ways. The metadata request splices it into
its URL path. The HTTP client drops a `#fragment` from that URL, and a `?`
starts the query string, so Drive looks up only the text before the first
`?` or `#` (`FolderUrl.PathPart`). The subfolder search and the create use
the whole captured text. For a sharing link ending in `?usp=sharing`, the
folder that is verified is therefore not the parent named in the search and
the create (`UploadFacts.QueryLinkSplitsParentId`).

## Model

| member | source | states |
|---|---|---|
| `Upload.Authenticate` | uploadToGdrive.js:27-40 | An undecodable bundle fails with nothing sent. Otherwise exactly one token request is sent, with the grant built from the bundle. The run goes on exactly when the grant is accepted, using the token the provider returns. The Drive is untouched. |
| `Upload.TokenBody` | uploadToGdrive.js:33-38 | The grant body has exactly the four keys `client_id`, `client_secret`, `refresh_token` and `grant_type`. The first three are copied from the credentials; `grant_type` is `refresh_token`. |
| `UploadFacts.TokenRequestFirst` | uploadToGdrive.js:27-40 | A bundle that does not decode ends the run with nothing sent. Otherwise the first request is the token exchange, with exactly the four fields. No later request is a token request. |
| `UploadFacts.TokenRejectedStops` | uploadToGdrive.js:31-40 | A rejected grant ends the run after the token request alone, with the Drive unchanged. |
| `FolderUrl.FolderId` | uploadToGdrive.js:43-47 | No id exactly when no position has `/folders/` followed by a non-`/` character. Otherwise the id is the greedy capture at the leftmost such position. |
| `FolderUrl.FolderIdFrom` | uploadToGdrive.js:43-47 | The regex engine's scan from a start position: no id exactly when no later position matches. Otherwise the capture at the first matching position. |
| `FolderUrl.RunLength` | uploadToGdrive.js:43 | The greedy `[^/]+` run stays within the string, holds no `/`, and ends at a `/` or at the end. |
| `FolderUrl.CaptureUnique` | uploadToGdrive.js:43 | At one start position the greedy capture is unique. |
| `FolderUrl.FolderIdIsLeftmostCapture` | uploadToGdrive.js:43-47 | Given the leftmost match, the parser returns `id` if and only if `id` is the capture there. |
| `FolderUrl.FolderIdShape` | uploadToGdrive.js:43-47 | A parsed id is non-empty and contains no `/`. |
| `FolderUrl.SharingPrefixNoMatch` | uploadToGdrive.js:43 | The `https://drive.google.com/drive` part of a sharing link holds no match. |
| `FolderUrl.SharingLink` | uploadToGdrive.js:43-47 | For a sharing link `https://drive.google.com/drive/folders/<id>` whose id has no `/`, the id is everything after `/folders/`, including a `?query`. |
| `FolderUrl.PathPart` | uploadToGdrive.js:52-58 | The id a request path built from the captured id names: the longest prefix with no `?` or `#`. It ends at the end of the id or just before its first `?` or `#`. |
| `FolderUrl.PathPartStopsAtQuery` | uploadToGdrive.js:52-58 | An id without `?` or `#` names itself in a request path. Followed by a query or fragment, it names only the text before it. |
| `FolderUrl.SharingLinkWithQuery` | uploadToGdrive.js:43-58 | For `.../folders/<id>?<query>`, the captured id keeps the query, and the metadata request names `<id>` alone. |
| `FolderUrl.BareIdRejected` | uploadToGdrive.js:43-46 | A bare id without `/` never parses. |
| `Upload.ParseFolderUrl` | uploadToGdrive.js:43-47 | A missing reference fails with `MissingFolderUrl`. An unparsable one fails with an error naming the reference. |
| `Upload.ParseFolderUrlOutcome` | uploadToGdrive.js:43-47 | The parse succeeds if and only if the pattern matches somewhere. The failure names the reference. A parsed id is non-empty and free of `/`. |
| `UploadFacts.BadFolderUrlStopsAfterToken` | uploadToGdrive.js:31-47 | A missing or unparsable reference ends the run after the token request, before any Drive request, with the Drive unchanged. |
| `UploadFacts.MetadataRequestNamesParsedId` | uploadToGdrive.js:47-58 | After a successful parse, the second request is the metadata request for the parsed id, with the access token. |
| `Drive.Lookup` | uploadToGdrive.js:52-59 | `files.get` finds nothing exactly when no item has the id. Otherwise it returns an item of the Drive with that id. |
| `Upload.VerifyParent` | uploadToGdrive.js:52-62 | One metadata request carrying the captured id, with the Drive unchanged. A verified parent is not trashed, and its id is the path part of the captured id. |
| `Upload.VerifyParentOutcome` | uploadToGdrive.js:52-62 | The failure cases are: a rejected call, no item whose id is the path part (`FolderNotFound` naming that path part), and a trashed parent (`ParentTrashed`, if and only if the parent is trashed). Verification succeeds if and only if none of these holds. |
| `UploadFacts.QueryLinkSplitsParentId` | uploadToGdrive.js:43-102 | For a sharing link `.../folders/<id>?<query>`, the run verifies the folder `<id>` but searches and creates under `<id>?<query>`. When no item lists that text as a parent, a create is sent whatever `<id>` already holds. |
| `UploadFacts.SubfolderRequestsInRun` | uploadToGdrive.js:25-102 | Once the parent is verified and the subfolder resolved, the requests are the token exchange, the metadata request for the captured id, then the subfolder stage's requests in order. |
| `UploadFacts.RunThroughSubfolder` | uploadToGdrive.js:25-152 | A run past the subfolder stage is the token exchange, the metadata request, the subfolder requests and the last two stages' requests. It ends with those stages' result and Drive. |
| `UploadFacts.TrashedParentStops` | uploadToGdrive.js:52-62 | A trashed parent ends the run with `ParentTrashed` after the token and metadata requests. There is no search, no create and no upload, and the Drive is unchanged. |
| `Drive.Search` | uploadToGdrive.js:66-81 | `files.list` returns exactly the items the query selects. When non-empty, its head is the first selected item in listing order. When empty, no item is selected. |
| `Drive.SearchAppend` | uploadToGdrive.js:66-77 | Adding an item at the end of the listing appends it to a search result exactly when the query selects it. |
| `Upload.FindOrCreate` | uploadToGdrive.js:66-102 | One or two requests: the folder search first, then possibly the create, with the composition name, the folder type and the parent as the only parent. A failure names the rejected call. |
| `Upload.FindOrCreateChoice` | uploadToGdrive.js:66-102 | A matching non-trashed folder means one search, no create, and the first match's id. No match means exactly one create, and on success the new id with the new folder appended to the Drive. A rejected search or create fails with that call. |
| `UploadFacts.FindOrCreateIdempotent` | uploadToGdrive.js:66-102 | Repeating find-or-create on the Drive the first run left reuses the same folder. It sends only the search and leaves the Drive unchanged. |
| `Hex.ToHex` | uploadToGdrive.js:120 | The random suffix is exactly eight lowercase hexadecimal digits. |
| `Hex.FromHexToHex` | uploadToGdrive.js:120 | Reading the suffix back gives the four random bytes. |
| `Hex.ToHexInjective` | uploadToGdrive.js:120 | Distinct random bytes give distinct suffixes. |
| `Upload.CopyName` | uploadToGdrive.js:119-121 | The copy name is the desired name, then `_copy_`, then exactly eight lowercase hex digits. |
| `Upload.CopyNameReadsBack` | uploadToGdrive.js:119-121 | The hex digits of the copy name read back as the random bytes. The copy name differs from the desired name. Two draws give the same copy name if and only if they are the same bytes. |
| `Upload.ResolveName` | uploadToGdrive.js:104-123 | Exactly one search, with no folder-type filter, in the destination, with the Drive unchanged. It fails exactly when that search is rejected. |
| `Upload.ResolveNameChoice` | uploadToGdrive.js:104-123 | The desired name is kept if and only if the destination holds no non-trashed item of that name. Otherwise the copy name is used. |
| `UploadFacts.CopyNameNotRechecked` | uploadToGdrive.js:119-123 | The copy name is not searched for. It is chosen even when it also collides, after a single search. |
| `UploadFacts.SameNamedFolderRenames` | uploadToGdrive.js:106-123 | A same-named folder in the destination forces the rename just as a file does. |
| `Upload.UploadFile` | uploadToGdrive.js:125-148 | One upload request whose metadata has the final name and the subfolder as the only parent. Success returns exactly Drive's new id and adds the file. A rejection fails and leaves the Drive unchanged. |
| `UploadFacts.NameAndUploadSucceeds` | uploadToGdrive.js:104-148 | With nothing rejected, the last two stages send one file search and one upload under the resolved name, and return the upload's id. |
| `UploadFacts.RequestsFollowStageOrder` | uploadToGdrive.js:25-148 | Every run's calls are a prefix of token, metadata, folder search, [create], file search, upload. A successful run completes one of the two plans. |
| `UploadFacts.FailedCallIsLast` | uploadToGdrive.js:149-152 | A rejected call's error is rethrown unchanged, and that call was the last request sent. |
| `UploadFacts.NewFolderHasNoConflict` | uploadToGdrive.js:104-123 | A folder just created with a fresh id holds no item, so no name conflicts in it. |
| `UploadFacts.UploadOnlyAfterEveryStage` | uploadToGdrive.js:125-148 | An upload is sent only as the last request, after every other stage. The run then returns its id or its own error. |
| `UploadFacts.SuccessfulRunStages` | uploadToGdrive.js:25-148 | A successful run passed every stage. |
| `UploadFacts.SuccessfulRunUploads` | uploadToGdrive.js:64-148 | A successful run returns Drive's new id unchanged. Its last request uploads into the subfolder that find-or-create resolved. The name is the copy name if and only if that subfolder, on the Drive find-or-create left, holds a non-trashed item with the desired name. The Drive afterwards is the Drive find-or-create left, so with the new subfolder exactly when it created one, followed by the uploaded file. |
| `Upload.UploadToGoogleDrive` | uploadToGdrive.js:16-153 | A run sends at most six requests. A successful one sends at least five, the last of them the upload, and returns the id Drive gave the uploaded file. |
| `UploadFacts.CreateScenario` | uploadToGdrive.js:25-148 | With no subfolder and no conflict, the run sends exactly six requests, with one create and one upload under the desired name, and returns the new id. |
| `UploadFacts.CollisionScenario` | uploadToGdrive.js:25-148 | With an existing subfolder holding the desired name, the run creates nothing and uploads under `<name>_copy_<hex>` into that subfolder. |
| `Action.Run` | index.js:4-54 | The upload routine is called if and only if the stage is postrender and both required parameters are present. When it is not called, the action fails with nothing sent and the Drive unchanged. A successful action ends with an upload request. |
| `Action.StageGateFirst` | index.js:5-9 | Outside postrender the action fails with the stage error naming the given stage, whatever the parameters, and nothing is sent. In postrender it never fails with that error. |
| `Action.ParameterChecksInOrder` | index.js:15-21 | The credentials are checked first and the file name second, each failing before any request. |
| `Action.InputPath` | index.js:25-28 | An absolute output is used unchanged. A relative one becomes the working directory, `/`, then the output. |
| `Action.InputPathResolves` | index.js:25-28 | The resolved path always ends with the output's text. It is absolute when the output or the working directory is. |
| `Action.ForwardsArguments` | index.js:35-43 | The parameters reach the upload routine unchanged, with the resolved path. The requests and the Drive are the routine's own. |
| `Action.RethrowsUnchanged` | index.js:35-53 | The upload's error is rethrown unchanged. Success returns no value. |
| `Action.SuccessUploadsRenderedFile` | index.js:25-47 | A successful action ran in postrender. Its last request uploaded the resolved input path under the desired or copy name. |

## Left out

- HTTP: headers, URLs, `fields` and `supportsAllDrives` parameters, and response bodies are not modelled. A request is its meaning (`Request`), and an API error is a call kind in `World.rejects`.
- Decoding base64 and JSON of the bundle: an opaque map from bundle strings to credentials (`World.bundles`). A bundle that decodes but lacks a field is not modelled.
- Bearer validity: the token from the provider is passed on as-is. Drive's rejection of a bad token is one of the rejected calls.
- The Drive query syntax and quoting: a name containing `'` would break the query string. Queries are modelled by their intended meaning (`Drive.Matches`).
- The upload body: the code posts `{metadata, media: {mimeType, body: <read stream>}}` with `Content-Type: application/json`, so the body is serialised as JSON. The stream object is serialised, not read, and the file's bytes are not sent; only the URL says `uploadType=multipart`. The model still takes a non-rejected upload to create an item named the final name under the subfolder (`Upload.UploadedFile`). Whether Drive accepts that body is folded into `UploadCall` being among the rejected calls. An unreadable local file is not modelled either, since the stream is never read.
- `crypto.randomBytes`: the four bytes are a parameter.
- Logging (`logger.log`) and the `driveId` argument, which is only logged.
- `Action.InputPath` and `Action.InputPathResolves`: Node's `path.join` normalisation (`.`, `..`, repeated or trailing `/`, an empty output) is not modelled. A relative output is joined with a single `/`. An empty working directory is one case: `path.join("", "out.mp4")` gives `out.mp4`, while the model gives `/out.mp4`, which is absolute.
- An absent `compositionName` or `job.output` (JavaScript `undefined`) is not modelled. They are strings here.
- Concurrency: two runs that both see no subfolder and both create one. Each run here is a function of one Drive state.
- Drive's own checks, such as whether the parent is really a folder, or that assigned ids are fresh, are not modelled. The scenarios state freshness as a precondition where they need it.
- Drive's check that a create names an existing parent is not modelled. After a sharing link with a query, Drive would reject the create under `<id>?<query>`; here that create succeeds unless the create call is among the rejected calls.
- The request URL beyond the `?` and `#` split: other characters of the captured id (`/` cannot occur; spaces or `%` escapes can) are taken to name the item whose id is that text.
