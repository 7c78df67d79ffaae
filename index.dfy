/** `src/webservices/index.rs`: GET on a guarded path without
    `HX-Request: true`.  A directory's listing goes through the response
    renderer with the `index` template, a file is served, and an error
    becomes 400 when it is a `FileListInputError` and 404 otherwise. */
module IndexHandler {
  import opened Common
  import opened Paths
  import opened Platform
  import opened DriveAccess
  import opened Http
  import opened Server
  import opened Renderer
  import opened Serialization
  import opened ListFilesOrContents

  /** The `downcast_ref::<FileListInputError>()` split shared by the two GET
      handlers. */
  function ErrorResponse(e: Error): (r: Response)
    ensures r.Plain? && r.contentType.None? && r.reason.None?
    ensures e.InvalidPath? ==> r.status == 400 && r.body == TextBody(Display(e))
    ensures !e.InvalidPath? ==> r.status == 404 && r.body == Empty
  {
    if e.InvalidPath? then Plain(400, None, None, TextBody(Display(e))) else Plain(404, None, None, Empty)
  }

  /** `index::handle`.  The guarded path is used as it is, without joining
      the base again. */
  function Handle(fs: FileSystem, os: Os, base: Path, rp: RequestedPath, headers: Headers, hb: Templates): (r: Response)
    ensures fs.IsFileAt(Into(rp)) && Resolve(Into(rp)) !in fs.denied ==> r == FileResponse(Into(rp))
    ensures !fs.IsFileAt(Into(rp)) && ListFiles(fs, os, Into(rp), base).Ok? ==>
              r == RespondTo(ResponseRenderer(FilesResultJson(ListFiles(fs, os, Into(rp), base).value), "index"), headers, hb)
    ensures (fs.IsFileAt(Into(rp)) && Resolve(Into(rp)) in fs.denied) ||
            (!fs.IsFileAt(Into(rp)) && ListFiles(fs, os, Into(rp), base).Err?) ==>
              r == Plain(404, None, None, Empty)
  {
    var path := Into(rp);
    match ListFilesOrFileContents(fs, os, path, base)
    case Ok(Left(data)) => RespondTo(ResponseRenderer(FilesResultJson(data), "index"), headers, hb)
    case Ok(Right(file)) => FileResponse(file)
    case Err(e) =>
      NeverInvalidPath(fs, os, path, base);
      ErrorResponse(e)
  }

  /** The 400 branch cannot be taken: every failure is answered with 404. */
  lemma NeverBadRequest(fs: FileSystem, os: Os, base: Path, rp: RequestedPath, headers: Headers, hb: Templates)
    ensures Handle(fs, os, base, rp, headers, hb).Plain? ==> Handle(fs, os, base, rp, headers, hb).status != 400
  {
  }
}
