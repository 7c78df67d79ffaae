/** `src/webservices.rs`: the route table of `start_http_server`, tried in
    registration order, and one request served end to end: the path guard
    wraps the whole `/{path:.*}` resource, its 405 answer included, and
    `POST /` goes to the search without it. */
module WebServices {
  import opened Common
  import opened Paths
  import opened Platform
  import opened DriveAccess
  import opened Http
  import opened Server
  import opened Renderer
  import opened Serialization
  import IndexHandler
  import FolderContentsHandler
  import QueryFilesHandler
  import CreateDirHandler
  import DeleteFileHandler
  import UploadFileHandler

  /** `MultipartFormConfig::default().total_limit(1024 * 1024 * 128)` on the
      path routes: 128 MiB. */
  const MultipartLimit: nat := 1024 * 1024 * 128

  datatype Route =
    | StaticFiles      // actix_files::Files mounted at /static
    | Query            // query_files::handle
    | FolderContents   // folder_contents::handle
    | Index            // index::handle
    | CreateDir        // create_dir::handle
    | UploadFile       // upload_file::handle
    | DeleteFile       // delete_file::handle
    | NotAllowed       // the path resource matched but none of its routes: 405
    | NoRoute          // nothing matched: 404

  /** The routes of the `/{path:.*}` resource, all wrapped by the guard. */
  predicate Guarded(r: Route)
  {
    r.FolderContents? || r.Index? || r.CreateDir? || r.UploadFile? || r.DeleteFile?
  }

  /** The `/static` mount matches the path itself and everything below it. */
  predicate UnderStatic(uri: string)
  {
    uri == "/static" || (|uri| >= 8 && uri[..8] == "/static/")
  }

  /** `guard::Header(name, value)`: the header is there with exactly that
      value. */
  predicate HeaderIs(h: Headers, name: string, value: string)
  {
    name in h && h[name] == value
  }

  /** Which handler `start_http_server`'s table picks for a request. */
  function Dispatch(m: Method, uri: string, h: Headers): (r: Route)
    ensures r == StaticFiles <==> UnderStatic(uri)
    ensures r == Query <==> !UnderStatic(uri) && m == Post && uri == "/"
    ensures r == NoRoute <==> !UnderStatic(uri) && !(|uri| > 0 && uri[0] == '/')
    ensures Guarded(r) || r == NotAllowed <==>
              !UnderStatic(uri) && |uri| > 0 && uri[0] == '/' && !(m == Post && uri == "/")
    ensures Guarded(r) ==> (r == FolderContents <==> m == Get && HeaderIs(h, "hx-request", "true"))
    ensures Guarded(r) ==> (r == Index <==> m == Get && !HeaderIs(h, "hx-request", "true"))
    ensures Guarded(r) ==> (r == CreateDir <==> m == Put && HeaderIs(h, "command", "new_folder"))
    ensures Guarded(r) ==> (r == UploadFile <==> m == Put && !HeaderIs(h, "command", "new_folder"))
    ensures Guarded(r) ==> (r == DeleteFile <==> m == Delete)
    ensures r == NotAllowed ==> m.Post? || m.OtherMethod?
  {
    if UnderStatic(uri) then StaticFiles
    else if m == Post && uri == "/" then Query
    else if !(|uri| > 0 && uri[0] == '/') then NoRoute
    else match m
      case Get => if HeaderIs(h, "hx-request", "true") then FolderContents else Index
      case Put => if HeaderIs(h, "command", "new_folder") then CreateDir else UploadFile
      case Delete => DeleteFile
      case _ => NotAllowed
  }

  /** Every method but POST reaches the path resource at `/`: a GET of `/`
      lists the base directory through the guard. */
  lemma RootGetIsGuarded(h: Headers)
    ensures Guarded(Dispatch(Get, "/", h))
  {
  }

  /** The request body as the extractors deliver it, with the multipart
      body's total size. */
  datatype Payload =
    | NoPayload
    | QueryPayload(query: QueryFilesHandler.QueryInput)
    | NewDirPayload(newDir: CreateDirHandler.NewDirInput)
    | UploadPayload(files: seq<TempFile>, size: nat)

  /** The routes of the `/{path:.*}` resource together with its 405 answer
      for a method none of them takes: the guard wraps the whole resource,
      so it runs before any of them. */
  predicate OnPathResource(r: Route)
  {
    Guarded(r) || r == NotAllowed
  }

  /** The `path` segment the resource's pattern captures: the URI after
      its leading `/`. */
  function RoutedText(uri: string): (t: string)
    ensures |uri| > 0 ==> t == uri[1..]
  {
    if |uri| > 0 then uri[1..] else ""
  }

  /** The `RequestedPath` the guard stores for a request it accepts. */
  function GuardedPath(base: Path, uri: string): RequestedPath
  {
    RequestedPath(Combined(base, RoutedText(uri)))
  }

  /** One request served: dispatch, then for the path resource the guard,
      then the handler (or the resource's 405).  A request the guard refuses
      is answered with 400 and changes nothing; so does every route that does
      not change the tree.  The three changing routes answer and change the
      tree exactly as their handlers do on the guarded path. */
  method Serve(drive: Drive, os: Os, base: Path, m: Method, uri: string, h: Headers,
               accept: seq<UploadFileHandler.MediaRange>, payload: Payload, hb: Templates)
    returns (r: Response)
    requires drive.Valid()
    requires payload.QueryPayload? ==>
               var g := os.glob(drive.State(), QueryPattern(QueryFilesHandler.QueryText(payload.query), base));
               g.Matches? ==> NamedMatches(g.paths)
    modifies drive
    ensures drive.Valid()
    ensures Dispatch(m, uri, h) == StaticFiles ==> r == StaticAsset(uri)
    ensures Dispatch(m, uri, h) == NoRoute ==> r == Plain(404, None, None, Empty)
    ensures Dispatch(m, uri, h) == Query && payload.QueryPayload? ==>
              r == QueryFilesHandler.Handle(old(drive.State()), os, base, payload.query, h, hb)
    ensures Dispatch(m, uri, h) == Query && !payload.QueryPayload? ==> r == ExtractorRejected
    ensures OnPathResource(Dispatch(m, uri, h)) && !IsAccepted(base, RoutedText(uri)) ==> r == Rejection(RoutedText(uri))
    ensures Dispatch(m, uri, h) == NotAllowed && IsAccepted(base, RoutedText(uri)) ==> r == Plain(405, None, None, Empty)
    ensures Dispatch(m, uri, h) == Index && IsAccepted(base, RoutedText(uri)) ==>
              r == IndexHandler.Handle(old(drive.State()), os, base, GuardedPath(base, uri), h, hb)
    ensures Dispatch(m, uri, h) == FolderContents && IsAccepted(base, RoutedText(uri)) ==>
              r == FolderContentsHandler.Handle(old(drive.State()), os, base, GuardedPath(base, uri), hb)
    ensures Dispatch(m, uri, h) == CreateDir && IsAccepted(base, RoutedText(uri)) && payload.NewDirPayload? ==>
              var dir := Rejoined(base, GuardedPath(base, uri));
              var target := CreateDirHandler.NewDirTarget(dir, CreateDirHandler.NewDirName(payload.newDir));
              && (CanCreateDir(old(drive.State()), target) ==>
                    drive.nodes == old(drive.nodes)[Resolve(target) := Dir] &&
                    r == CreateDirHandler.ListingAnswer(drive.State(), os, dir, base, hb))
              && (!CanCreateDir(old(drive.State()), target) ==>
                    drive.nodes == old(drive.nodes) && r == ServerError(None))
    ensures Dispatch(m, uri, h) == CreateDir && IsAccepted(base, RoutedText(uri)) && !payload.NewDirPayload? ==>
              r == ExtractorRejected && drive.nodes == old(drive.nodes)
    ensures Dispatch(m, uri, h) == UploadFile && IsAccepted(base, RoutedText(uri)) &&
              payload.UploadPayload? && payload.size <= MultipartLimit ==>
              var dir := Rejoined(base, GuardedPath(base, uri));
              var saved := SaveAll(old(drive.State()), payload.files, dir);
              drive.State() == saved.0 &&
              r == UploadFileHandler.UploadAnswer(saved.0, os, dir, base, saved.1, accept, hb)
    ensures Dispatch(m, uri, h) == UploadFile && IsAccepted(base, RoutedText(uri)) &&
              !(payload.UploadPayload? && payload.size <= MultipartLimit) ==>
              r == ExtractorRejected && drive.nodes == old(drive.nodes)
    ensures Dispatch(m, uri, h) == DeleteFile && IsAccepted(base, RoutedText(uri)) ==>
              var path := Rejoined(base, GuardedPath(base, uri));
              && (CanRemoveFile(old(drive.State()), path) ==>
                    drive.nodes == old(drive.nodes) - {Resolve(path)} && Parent(path).Some? &&
                    r == DeleteFileHandler.AfterDeletion(drive.State(), os, path, base, hb))
              && (!CanRemoveFile(old(drive.State()), path) ==>
                    drive.nodes == old(drive.nodes) && r == ServerError(Some("Failed to delete file")))
    ensures !(Dispatch(m, uri, h) in {CreateDir, UploadFile, DeleteFile} && IsAccepted(base, RoutedText(uri))) ==>
              drive.nodes == old(drive.nodes)
  {
    var route := Dispatch(m, uri, h);
    if !OnPathResource(route) {
      match route {
        case StaticFiles => r := StaticAsset(uri);
        case NoRoute => r := Plain(404, None, None, Empty);
        case Query =>
          if payload.QueryPayload? {
            r := QueryFilesHandler.Handle(drive.State(), os, base, payload.query, h, hb);
          } else {
            r := ExtractorRejected;
          }
      }
      return;
    }
    var req := new ServiceRequest(uri[1..]);
    var g := Call(req, base);
    if g.Rejected? {
      return g.response;
    }
    var rp := req.requested.value;
    match route {
      case NotAllowed =>
        r := Plain(405, None, None, Empty);
      case Index =>
        r := IndexHandler.Handle(drive.State(), os, base, rp, h, hb);
      case FolderContents =>
        r := FolderContentsHandler.Handle(drive.State(), os, base, rp, hb);
      case CreateDir =>
        if payload.NewDirPayload? {
          r := CreateDirHandler.Handle(drive, os, base, rp, payload.newDir, hb);
        } else {
          r := ExtractorRejected;
        }
      case UploadFile =>
        if payload.UploadPayload? && payload.size <= MultipartLimit {
          r := UploadFileHandler.Handle(drive, os, base, rp, payload.files, accept, hb);
        } else {
          r := ExtractorRejected;
        }
      case DeleteFile =>
        r := DeleteFileHandler.Handle(drive, os, base, rp, hb);
    }
  }

  /** The route guard asks for the value `true`, the renderer only for the
      header's presence: a GET with `HX-Request: false` is routed to the index
      handler, which still answers a directory with HTML. */
  lemma HxRequestFalseStillHtml(fs: FileSystem, os: Os, base: Path, uri: string, h: Headers, hb: Templates)
    requires |uri| > 0 && uri[0] == '/' && !UnderStatic(uri)
    requires HeaderIs(h, "hx-request", "false")
    requires var p := Combined(base, uri[1..]);
             !fs.IsFileAt(p) && ListFiles(fs, os, p, base).Ok?
    ensures Dispatch(Get, uri, h) == Index
    ensures IndexHandler.Handle(fs, os, base, RequestedPath(Combined(base, uri[1..])), h, hb).contentType == Some(HtmlType)
  {
  }
}
