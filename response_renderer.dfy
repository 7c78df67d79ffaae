/** `src/webservices/response_renderer.rs`: a responder holding data and a
    template name that answers with the rendered template when the request
    carries an `HX-Request` header, whatever its value, and with the data as
    JSON otherwise.  Template rendering (handlebars) is a parameter. */
module Renderer {
  import opened Common
  import opened Http

  /** `hb.render(template, data)`: the template engine, uninterpreted. */
  type Templates = (string, Json) -> string

  /** `ResponseRenderer { data, template, hb }`; `new` stores the three as
      given, so the datatype's constructor is `new`. */
  datatype ResponseRenderer = ResponseRenderer(data: Json, template: string)

  const HxRequest: string := "hx-request"

  /** `respond_to`: the HTML branch when the header is present, the JSON
      branch when it is absent. */
  function RespondTo(rr: ResponseRenderer, headers: Headers, hb: Templates): (r: Response)
    ensures r.Plain? && r.status == 200 && r.reason.None?
    ensures r.contentType == Some(HtmlType) <==> HxRequest in headers
    ensures HxRequest in headers ==> r.body == TextBody(hb(rr.template, rr.data))
    ensures HxRequest !in headers ==> r == Plain(200, Some(JsonType), None, JsonBody(rr.data))
  {
    if HxRequest in headers then Plain(200, Some(HtmlType), None, TextBody(hb(rr.template, rr.data)))
    else Plain(200, Some(JsonType), None, JsonBody(rr.data))
  }

  /** Only the presence of the header counts: two requests that agree on
      whether it is there get the same response, whatever its value and
      whatever other headers they carry. */
  lemma OnlyPresenceCounts(rr: ResponseRenderer, h1: Headers, h2: Headers, hb: Templates)
    requires (HxRequest in h1) == (HxRequest in h2)
    ensures RespondTo(rr, h1, hb) == RespondTo(rr, h2, hb)
  {
  }
}
