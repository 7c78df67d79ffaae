/** `src/webservices/folder_contents.rs`: GET on a guarded path with
    `HX-Request: true`.  A directory's listing is always the `files_listing`
    fragment as HTML (there is no JSON branch), a file is served, and errors
    map as in the index handler. */
module FolderContentsHandler {
  import opened Common
  import opened Paths
  import opened Platform
  import opened DriveAccess
  import opened Http
  import opened Server
  import opened Renderer
  import opened Serialization
  import opened ListFilesOrContents
  import IndexHandler

  /** `folder_contents::handle`. */
  function Handle(fs: FileSystem, os: Os, base: Path, rp: RequestedPath, hb: Templates): (r: Response)
    ensures fs.IsFileAt(Into(rp)) && Resolve(Into(rp)) !in fs.denied ==> r == FileResponse(Into(rp))
    ensures !fs.IsFileAt(Into(rp)) && ListFiles(fs, os, Into(rp), base).Ok? ==>
              r == Plain(200, Some(HtmlType), None, TextBody(hb("files_listing", FilesResultJson(ListFiles(fs, os, Into(rp), base).value))))
    ensures (fs.IsFileAt(Into(rp)) && Resolve(Into(rp)) in fs.denied) ||
            (!fs.IsFileAt(Into(rp)) && ListFiles(fs, os, Into(rp), base).Err?) ==>
              r == Plain(404, None, None, Empty)
  {
    var path := Into(rp);
    match ListFilesOrFileContents(fs, os, path, base)
    case Ok(Left(data)) => Plain(200, Some(HtmlType), None, TextBody(hb("files_listing", FilesResultJson(data))))
    case Ok(Right(file)) => FileResponse(file)
    case Err(e) =>
      NeverInvalidPath(fs, os, path, base);
      IndexHandler.ErrorResponse(e)
  }
}
