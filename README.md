# my-drive, modelled in Dafny

my-drive is a small actix-web file server. It exposes one base directory over
HTTP. Requests can list a folder, download a file, search by name, upload
files, create a folder and delete a file. This project models the decision
logic of that server and proves what it promises.

- **Path guard** (`Server`): the routed path text is joined onto the base
  directory. The request goes on only if the joined path has the base as a
  component prefix.
- **Drive access** (`DriveAccess`):
  - the file-type table;
  - `relative_path`;
  - the listing and search pipelines;
  - saving uploads, creating a folder and deleting a file.

  The operations that change the tree are methods of the class
  `DriveAccess.Drive`, which holds the tree.
- **Input flattening** (`MultitypeInput`): a form, a JSON body or a multipart
  form becomes `Either<L, R>`.
- **Response renderer** (`Renderer`): HTML when an `HX-Request` header is
  present, JSON otherwise.
- **Route table and request serving** (`WebServices`).
- **Handlers**: index, folder contents, query, create, delete and upload.
  Each one sequences the guard, one operation, one listing and a status.

## The model's pieces

- **Paths**: the sequence of components that Rust's `Path::components()`
  yields. There is no normalisation in the core, so `..` is an ordinary
  component.
  - `Paths.Join` follows `PathBuf::push`.
  - `Paths.StartsWith` follows `Path::starts_with`.
  - `Paths.Parse` and `Paths.Render` convert between text and components.
    Reading back a rendered path gives the same components
    (`Paths.ParseRender`). The other direction does not hold: `Render`
    writes a canonical spelling, so `Render(Parse(t))` drops a doubled `/`
    or an inner `.` that `t` had.
- **The operating system's view of a path** is `Paths.Resolve`: `.` is
  skipped and `..` steps back over a name. The file tree
  (`Platform.FileSystem`) is keyed by resolved paths. This lets the model
  say where a guarded path really lands.
- **Given as parameters**, because the core cannot see them:
  - the order in which `read_dir` enumerates a directory, and which items
    fail;
  - what `glob` yields (`Platform.Os`);
  - the outcome of sniffing a file's bytes (the format stored in a file
    node);
  - template rendering (`Renderer.Templates`).

  `Platform.Enumerates` states when an enumeration is faithful to the
  tree. Lemmas that relate a listing to the tree assume it.
- **JSON**: values are `Common.Json`. Objects are maps, because the order
  of an object's keys carries no meaning in JSON.

## Behaviour that departs from the stated intent

In each of these points the code does something other than what the
project's stated design leads one to expect. The model follows the code.

- **No sorting.** A listing comes in the directory's enumeration order,
  minus unreadable and hidden entries (`src/drive_access.rs:67-97`).
- **No `metadata` field.** `FileInfo` has only `name`, `is_dir` and
  `file_type`.
- **Category names.** The text category is `"txt"`, not `"text"`.
- **Response choice.** `ResponseRenderer` picks HTML on the presence of
  `HX-Request`; the `Accept` header plays no part. The route guard, however,
  requires the value `true`. So a GET with `HX-Request: false` reaches the
  index handler and still gets HTML (`WebServices.HxRequestFalseStillHtml`).
  Only the upload handler looks at `Accept`: any item with subtype `json`.
- **Search.** Search is the `glob` pattern `{base}/**/{query}*`, matched
  case-sensitively. Only the match's own name is tested for a leading dot,
  so files inside hidden directories are found.
- **The guard does not contain the request.** Nothing is canonicalised, so
  `../etc` under the base `/data` passes the guard, and the operating
  system resolves the path to `/etc` (`Server.GuardAdmitsTraversal`). Only
  an absolute path outside the base is refused. A relative text without
  `..` does stay inside the base (`Server.GuardContainsPlainNames`).
- **Names are not re-checked.** The new folder's name and the uploads' file
  names are joined after the guard has run. An absolute name replaces the
  directory altogether (`CreateDirHandler.NewDirTarget`).
- **The 400 branch is dead.** The index and folder-contents handlers answer
  400 for a `FileListInputError`, but no such error reaches them
  (`IndexHandler.NeverBadRequest`). Every failure there is a 404.
- **The upload's JSON `message`** is the rendered summary text, not the
  summary list.

## Model

| member | source | states |
|---|---|---|
| Common.Escaped | src/webservices.rs:19 | the quoted text of `Invalid path: {0:?}` is well escaped: every `\` starts an escape of `"` or `\`, and no `"` stands alone, so the closing quote is unambiguous |
| Common.EscapedRoundTrip | src/webservices.rs:19 | reading the escapes back gives the original path text |
| Paths.Join | src/server.rs:52 | `join`: an absolute right operand replaces the left one; a relative one is appended after a non-empty left operand, without its leading `.`; well-formedness is kept |
| Paths.JoinPushesText | src/server.rs:52 | joining the parsed texts reads the same as pushing the text: `a` and a relative `b` give the components of `a/b`, an absolute `b` gives its own |
| Paths.Parse | src/server.rs:51 | the routed text read as a path is well-formed, and it is absolute exactly when the text starts with `/` |
| Paths.ParseRender | src/drive_access.rs:100 | writing a well-formed path out as text and reading it back gives the same components |
| Paths.Parent | src/drive_access.rs:91-92 | `parent()` is absent exactly for the empty path or one ending at the root; otherwise it is one component shorter and a prefix |
| Paths.FileName | src/drive_access.rs:120 | `file_name()` is present exactly when the last component is a proper name, and it is that name |
| Paths.ParseName | src/drive_access.rs:140 | joining a proper name appends exactly one component |
| Platform.ReadDir | src/drive_access.rs:68-70 | `read_dir` succeeds exactly on a directory the process may read, yielding the platform's enumeration of it; otherwise the error is `Reading {dir:?}` |
| DriveAccess.DefaultFileType | src/drive_access.rs:12-19 | the default is `application/octet-stream` / `unknown` |
| DriveAccess.Category | src/drive_access.rs:28-47 | the kind table is total and every result is one of the eight categories (`txt`, not `text`) |
| DriveAccess.CategoryOnto | src/drive_access.rs:28-47 | every one of the eight categories is produced by some kind |
| DriveAccess.Classify | src/drive_access.rs:24-27 | a failed sniff gives the default; a successful one keeps the media type and gives a category; `unknown` arises only from the default |
| DriveAccess.EntryInfo | src/drive_access.rs:73-82 | an entry is a directory only when `file_type()` said so; a directory has no file type, anything else has one |
| DriveAccess.EntryInfos | src/drive_access.rs:71-84 | every `FileInfo` built from the enumeration is typed by its kind |
| DriveAccess.Visible | src/drive_access.rs:85 | no name starting with `.` survives the filter |
| DriveAccess.RelativePath | src/drive_access.rs:99-105 | fails with the prefix error exactly when the base is not a component prefix; otherwise `""` or text starting with `/` |
| DriveAccess.ParentDisplay | src/drive_access.rs:91-95 | the parent is shown exactly when there is one and it lies under the base |
| DriveAccess.ListFiles | src/drive_access.rs:67-97 | succeeds exactly when the directory reads and lies under the base; the read error wins; no hidden names; `path` and `parent` are the relative displays |
| DriveAccess.QueryPattern | src/drive_access.rs:109-113 | the pattern is the base's text, then `/**/`, then the query, then `*` |
| DriveAccess.MatchInfo | src/drive_access.rs:118-128 | a match is a directory exactly when the tree says so, is named by its last component only, and is typed by its kind |
| DriveAccess.MatchInfos | src/drive_access.rs:116-128 | every match's `FileInfo` is typed by its kind |
| DriveAccess.QueryFiles | src/drive_access.rs:107-132 | fails exactly on a pattern error, with its position and message; otherwise no hidden names and every entry typed by its kind |
| DriveAccess.PersistUpload | src/drive_access.rs:141 | persisting succeeds exactly when the target can hold a file; success stores the upload there, failure changes nothing and reports `Persisting file` |
| DriveAccess.Drive.CreateDir | src/drive_access.rs:150-152 | succeeds exactly for a new entry of a writable directory, adding that directory; a failure changes nothing and carries `Creating directory {path:?}` |
| DriveAccess.Drive.DeleteFile | src/drive_access.rs:146-148 | succeeds exactly for an existing file in a writable directory, removing only it; a failure changes nothing and carries `Deleting {path:?}` |
| DriveAccess.Drive.Persist | src/drive_access.rs:141 | the tree and the outcome are those of `PersistUpload` |
| DriveAccess.Drive.SaveFiles | src/drive_access.rs:134-144 | the loop over the uploads leaves the tree and the reports that `SaveAll` describes, keeping the tree well-shaped |
| DriveAccessLemmas.RelativePathRoundTrip | src/drive_access.rs:99-105 | the shown relative path, appended to the base, gives the path back; it is `""` exactly at the base |
| DriveAccessLemmas.ParentDisplayAtBase | src/drive_access.rs:91-95 | at the base the parent is `None` |
| DriveAccessLemmas.ParentDisplayOneBelow | src/drive_access.rs:91-95 | one level below the base the parent is `Some("")` |
| DriveAccessLemmas.ParentDisplayBelow | src/drive_access.rs:91-95 | deeper down the parent is the relative path of the parent directory |
| DriveAccessLemmas.DisplayExample | src/drive_access.rs:88-95 | under `/data`, `/data/x/y` shows as `/x/y` with parent `/x`, and `/data` as `""` with no parent |
| DriveAccessLemmas.ListingSelection | src/drive_access.rs:68-86 | the listing is the order-preserving selection of the read, visible entries: same count, same order, each entry's own `FileInfo`, none left out |
| DriveAccessLemmas.ListingMatchesTree | src/drive_access.rs:68-86 | with a faithful enumeration whose items all read, a name is listed exactly when it is a visible entry of the directory |
| DriveAccessLemmas.ListingTruthful | src/drive_access.rs:72-82 | with a faithful enumeration, a listed directory is one, and a listed file carries the classification of its bytes |
| DriveAccessLemmas.ListingOnlyChildren | src/drive_access.rs:68-84 | whatever items fail, only entries of the directory are listed |
| DriveAccessLemmas.UnsniffableListedAsDefault | src/drive_access.rs:80 | an entry whose content cannot be classified is listed with the default file type |
| DriveAccessLemmas.SearchSelection | src/drive_access.rs:114-131 | the search result is the order-preserving selection of the yielded paths whose own name is visible |
| DriveAccessLemmas.HiddenDirectoryContentsFound | src/drive_access.rs:129 | a file inside a hidden directory is still found |
| DriveAccessLemmas.SaveAllReportsEveryNamedUpload | src/drive_access.rs:134-144 | exactly one report per named upload, with its name, in upload order; a failure does not stop later uploads |
| DriveAccessLemmas.SaveAllGrows | src/drive_access.rs:134-144 | saving removes nothing, keeps directories as directories and changes no permission |
| DriveAccessLemmas.SaveAllSavedAreFiles | src/drive_access.rs:134-144 | every upload reported saved is a file at `dir.join(name)` afterwards |
| DriveAccessLemmas.SaveAllNewNodesSaved | src/drive_access.rs:134-144 | every new node is the target of an upload reported saved |
| Server.Into | src/server.rs:81-91 | `into` and `as_ref` give back the stored path unchanged |
| Server.Combined | src/server.rs:52 | the joined path is absolute under an absolute base, and is the text's own path when the text is absolute |
| Server.IsAccepted | src/server.rs:53 | a request passes exactly when its text is relative or its absolute path lies under the base |
| Server.Rejection | src/server.rs:55-65 | a refused request is answered 400 with `Invalid path: {path:?}` |
| Server.Call | src/server.rs:49-74 | on acceptance exactly `RequestedPath(combined)` is stored and the request goes on; on refusal the 400 answer is given and the request is left as it was |
| Server.Rejoined | src/webservices/upload_file.rs:20 | the handlers' `base_dir.join(path)` is the guarded path itself when that is absolute |
| Server.RejoinedIsCombined | src/webservices/create_dir.rs:28 | under an absolute base, re-joining gives the path the guard let through |
| Server.GuardContainsPlainNames | src/server.rs:51-53 | a relative text without `..` passes the guard and resolves inside the base |
| Server.GuardAdmitsTraversal | src/server.rs:51-53 | `../etc` under `/data` passes the guard, yet resolves to `/etc`, outside the base |
| Server.GuardRejectsAbsoluteOutside | src/server.rs:51-55 | `/etc` under `/data` is refused |
| MultitypeInput.Flatten | src/webservices/utilities/multitype_input.rs:15-23 | `Right` arises only from a multipart form; `Left` comes from a form or a JSON body, with the same payload |
| MultitypeInput.FlattenKeepsPayload | src/webservices/utilities/multitype_input.rs:16-22 | form and JSON both give `Left` and multipart gives `Right`, each with the payload unchanged |
| Renderer.RespondTo | src/webservices/response_renderer.rs:26-36 | with `HX-Request` present, a 200 HTML response with the template rendered over the data; without it, a 200 JSON response with the data |
| Renderer.OnlyPresenceCounts | src/webservices/response_renderer.rs:27 | only the header's presence matters, never its value or other headers |
| Serialization.FilesJson | src/drive_access.rs:53-58 | a file list serialises to an array of one object per file, in order |
| Serialization.FilesResultRoundTrip | src/drive_access.rs:60-65 | the JSON of a listing reads back as the same listing |
| ListFilesOrContents.ListFilesOrFileContents | src/webservices/list_files.rs:8-18 | a readable regular file gives `Right(file)` with no listing; an unopenable one gives `Could not open file`; anything else gives the listing or its error unchanged |
| ListFilesOrContents.NeverInvalidPath | src/webservices/list_files.rs:12-17 | no error from here is a `FileListInputError` |
| IndexHandler.ErrorResponse | src/webservices/index.rs:22-25 | a `FileListInputError` gives 400 with its message; any other error gives 404 with an empty body |
| IndexHandler.Handle | src/webservices/index.rs:7-27 | a file is served; a directory's listing goes through the renderer with `index`; every failure is 404 |
| IndexHandler.NeverBadRequest | src/webservices/index.rs:22-24 | the index handler never answers 400 |
| FolderContentsHandler.Handle | src/webservices/folder_contents.rs:7-30 | a file is served; a listing is always the `files_listing` fragment as HTML; every failure is 404 |
| QueryFilesHandler.QueryText | src/webservices/query_files.rs:25-30 | the query comes from a form, a JSON body or a multipart form alike |
| QueryFilesHandler.Handle | src/webservices/query_files.rs:20-46 | success renders `{"files": ...}` with `query_results`; a pattern error is 500 with `Error querying files: {e}` |
| QueryFilesHandler.InputFormIrrelevant | src/webservices/query_files.rs:25-32 | the same query sent in any of the three forms gets the same answer |
| CreateDirHandler.NewDirName | src/webservices/create_dir.rs:30-35 | the folder name comes from a form, a JSON body or a multipart form alike |
| CreateDirHandler.NewDirTarget | src/webservices/create_dir.rs:37 | the new folder is `dir_path/name`; an absolute name replaces the directory |
| CreateDirHandler.ListingAnswer | src/webservices/create_dir.rs:45-53 | the containing directory's listing as `files_listing`, or 500 exactly when it cannot be listed |
| CreateDirHandler.Handle | src/webservices/create_dir.rs:21-57 | on success the folder is added and the containing directory listed; on failure 500, nothing changed and nothing listed |
| CreateDirHandler.CreatedFolderIsListed | src/webservices/create_dir.rs:42-50 | after creation under a proper visible name, the answer's listing shows the new folder |
| DeleteFileHandler.AfterDeletion | src/webservices/delete_file.rs:28-45 | the parent's listing followed by the `File deleted` toast, or 500 with `Failed to fetch files` |
| DeleteFileHandler.Handle | src/webservices/delete_file.rs:8-50 | the guarded path itself is removed and its parent listed; a failed removal is 500 with `Failed to delete file` and nothing changes |
| DeleteFileHandler.DeletedNameNotListed | src/webservices/delete_file.rs:19-31 | after the removal, the parent's listing no longer shows the removed name |
| UploadFileHandler.AcceptsJson | src/webservices/upload_file.rs:43 | true exactly when some `Accept` item has the subtype `json` |
| UploadFileHandler.SummaryItem | src/webservices/upload_file.rs:26-33 | one object with `message` and `isError`: `File {name} saved` / false, or `File {name} failed to save: {e}` / true |
| UploadFileHandler.Summary | src/webservices/upload_file.rs:25-34 | one summary entry per save outcome, in order |
| UploadFileHandler.UploadAnswer | src/webservices/upload_file.rs:35-50 | a listing failure is 500 whatever the saves did; with JSON accepted, `{"files", "message"}` whose `files` reads back as the listing; otherwise the fragment then the toast |
| UploadFileHandler.Handle | src/webservices/upload_file.rs:12-51 | the uploads are saved into the directory, and the answer is built from the tree after all saves |
| UploadFileHandler.SummaryPerNamedUpload | src/webservices/upload_file.rs:24-34 | the summary has one entry per named upload, in order, each naming its upload and saying whether it failed |
| UploadFileHandler.SavedUploadsAreListed | src/webservices/upload_file.rs:22-38 | every upload reported saved under a proper visible name shows in the answer's listing |
| WebServices.Dispatch | src/webservices.rs:41-68 | `/static` first; `POST /` to the search; path routes: GET with `HX-Request: true` to folder contents, other GET to index, PUT with `command: new_folder` to create, other PUT to upload, DELETE to delete, anything else 405 |
| WebServices.RootGetIsGuarded | src/webservices.rs:45-50 | a GET of `/` goes through the guarded path resource |
| WebServices.Serve | src/webservices.rs:41-68 | the guard wraps the whole path resource: a refused request is answered 400 and changes nothing, whatever its method, and 405 comes only after acceptance; each accepted route answers as its handler does on the guarded path, and create, upload (within 128 MiB) and delete change the tree exactly as their handlers state; every other route changes nothing |
| WebServices.HxRequestFalseStillHtml | src/webservices.rs:56-61 | a GET with `HX-Request: false` goes to the index handler, which still answers a directory with HTML |

## Left out

- Rendering of templates (handlebars), the `handlebars_utils.rs` helper and template registration: `render(name, data)` is a parameter.
- Byte sniffing by `file_format`, the `glob` crate's matching, and the order of `read_dir`: these are given as inputs.
- Panicking `unwrap`s (non-UTF-8 names, render failures, `parent().unwrap()`, `file_name().unwrap()`) become preconditions or are shown not to arise.
- Tracing spans, telemetry, the ngrok and default runners, `main` and the reading of `BASE_DIR`: these are observability and startup wiring.
- A relative `BASE_DIR`: the model has no working directory, so it assumes an absolute base. A relative path never resolves to a node here, so with a relative base every listing fails. The source then acts differently: the create, delete and upload handlers (src/webservices/create_dir.rs:28, src/webservices/delete_file.rs:14, src/webservices/upload_file.rs:20) join the base a second time and act on `base/base/x`, while GET lists `base/x`. The model computes that doubled path (`Server.Rejoined`) but cannot show where it lands.
- Concurrency between requests: the code does not coordinate it.
- DeleteFileHandler.Handle: the handler calls `delete_file_or_directory`, which is not part of this model. The removal is modelled as `delete_file` (`remove_file`), so deleting a directory always fails here.
- DriveAccess.RelativePath: the displayed path is written in canonical spelling (`Paths.Render`), so a doubled `/` or an inner `.` is dropped. The source shows `strip_prefix(base_dir)` as the request spelled it: under base `/data`, a GET of `/x//y` shows `/x//y` there and `/x/y` here.
- DriveAccess.ParentDisplay: the parent link is in the same canonical spelling. For `/x//y//z` the source shows `/x//y` and the model `/x/y`.
- DriveAccess.ListFiles: the `path` and `parent` fields of a listing carry the canonical spelling, not the request's own text. The `{:?}` texts of the `Reading`, `Creating directory` and `Deleting` errors (`Platform.ReadDir`, `DriveAccess.Drive.CreateDir`, `DriveAccess.Drive.DeleteFile`) are canonical too; those texts never reach an HTTP response.
- Paths.Resolve: resolution is lexical. Symbolic links, and the failure of a path that passes through a file or a missing directory, are not modelled.
- Common.DebugQuote: `{:?}` is modelled as quoting with `"` and `\` escaped. Other escapes Rust applies, such as for control characters, are not modelled.
- Server.Call: the routed text is taken as delivered. Percent-decoding of the URL is not modelled.
- WebServices.Serve: an extractor that cannot build its argument is modelled as one `ExtractorRejected` answer, with no status. Only the upload form's size is checked against the 128 MiB limit.
- WebServices.Dispatch: the `/static` file service is one opaque answer, and the method restrictions of that service are not modelled.
- Other I/O failures (a full disk, a race with another process) are modelled only as permission denials (`FileSystem.denied`).
- Conditional-request and range handling of `NamedFile` are not modelled: `FileResponse` names the file that is served.
