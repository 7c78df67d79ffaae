/** The HTTP vocabulary the handlers decide with: request methods, the request
    headers they consult, and the responses they build (status, content type,
    reason phrase and body), as actix-web's `HttpResponse` builders produce
    them. */
module Http {
  import opened Common
  import opened Paths

  datatype Method = Get | Post | Put | Delete | OtherMethod(name: string)

  /** Request headers by lower-case name: header names are matched without
      regard to case. */
  type Headers = map<string, string>

  datatype Body = Empty | TextBody(text: string) | JsonBody(value: Json)

  /** A response.  `FileResponse` is what `NamedFile` answers for an opened
      file, `StaticAsset` what the `/static` file service answers, and
      `ExtractorRejected` the error response of an extractor that could not
      build a handler argument from the request. */
  datatype Response =
    | Plain(status: nat, contentType: Option<string>, reason: Option<string>, body: Body)
    | FileResponse(path: Path)
    | StaticAsset(uri: string)
    | ExtractorRejected

  /** `header::ContentType::html()`. */
  const HtmlType: string := "text/html; charset=utf-8"

  /** The content type of `web::Json` and `HttpResponse::json`. */
  const JsonType: string := "application/json"

  /** `HttpResponse::InternalServerError()`, with an optional reason phrase
      and no body. */
  function ServerError(reason: Option<string>): (r: Response)
    ensures r.Plain? && r.status == 500 && r.reason == reason && r.body == Empty && r.contentType.None?
  {
    Plain(500, None, reason, Empty)
  }

  /** `HttpResponse::Ok().body(text)`: no content type is set. */
  function OkText(text: string): (r: Response)
    ensures r.Plain? && r.status == 200 && r.body == TextBody(text) && r.contentType.None? && r.reason.None?
  {
    Plain(200, None, None, TextBody(text))
  }
}
