/** `src/webservices/query_files.rs`: `POST /`.  The query text comes from a
    form, a JSON body or a multipart form alike, is handed unchanged to the
    search, and the matches go through the response renderer with the
    `query_results` template; a bad pattern is a 500 with the error text. */
module QueryFilesHandler {
  import opened Common
  import opened Paths
  import opened Platform
  import opened DriveAccess
  import opened Http
  import opened Renderer
  import opened Serialization
  import opened MultitypeInput

  datatype QueryFilterRequest = QueryFilterRequest(query: string)
  datatype QueryFilterRequestMultipart = QueryFilterRequestMultipart(query: string)

  type QueryInput = InputExtended<QueryFilterRequest, QueryFilterRequestMultipart>

  /** The query text, whichever of the three forms carried it. */
  function QueryText(input: QueryInput): (q: string)
    ensures input.Left? ==> q == input.left.query
    ensures input.Right? && input.right.Left? ==> q == input.right.left.query
    ensures input.Right? && input.right.Right? ==> q == input.right.right.query
  {
    match Flatten(input)
    case Left(request) => request.query
    case Right(request) => request.query
  }

  /** `json!({ "files": files })`. */
  function FilesObject(files: seq<FileInfo>): Json
  {
    JObject(map["files" := FilesJson(files)])
  }

  /** `query_files::handle`. */
  function Handle(fs: FileSystem, os: Os, base: Path, input: QueryInput, headers: Headers, hb: Templates): (r: Response)
    requires var g := os.glob(fs, QueryPattern(QueryText(input), base)); g.Matches? ==> NamedMatches(g.paths)
    ensures QueryFiles(fs, os, QueryText(input), base).Ok? ==>
              r == RespondTo(ResponseRenderer(FilesObject(QueryFiles(fs, os, QueryText(input), base).value), "query_results"), headers, hb)
    ensures os.glob(fs, QueryPattern(QueryText(input), base)).PatternError? ==>
              var g := os.glob(fs, QueryPattern(QueryText(input), base));
              r == Plain(500, None, None, TextBody("Error querying files: " + Display(Pattern(g.pos, g.msg))))
  {
    match QueryFiles(fs, os, QueryText(input), base)
    case Ok(files) => RespondTo(ResponseRenderer(FilesObject(files), "query_results"), headers, hb)
    case Err(e) => Plain(500, None, None, TextBody("Error querying files: " + Display(e)))
  }

  /** The same query sent as a form, as JSON or as a multipart form gets the
      same answer. */
  lemma InputFormIrrelevant(fs: FileSystem, os: Os, base: Path, q: string, headers: Headers, hb: Templates)
    requires var g := os.glob(fs, QueryPattern(q, base)); g.Matches? ==> NamedMatches(g.paths)
    ensures Handle(fs, os, base, FromForm(QueryFilterRequest(q)), headers, hb) ==
            Handle(fs, os, base, FromJson(QueryFilterRequest(q)), headers, hb)
    ensures Handle(fs, os, base, FromForm(QueryFilterRequest(q)), headers, hb) ==
            Handle(fs, os, base, FromMultipart(QueryFilterRequestMultipart(q)), headers, hb)
  {
  }
}
