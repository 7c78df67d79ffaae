/** Value types shared by the whole model: optional values, the two-way `Either`
    of actix-web, the error values that travel inside `anyhow::Result`, and
    JSON values as `serde_json` builds them. */
module Common {

  datatype Option<+T> = None | Some(value: T)

  /** `actix_web::Either`: the left or the right of two alternatives. */
  datatype Either<+L, +R> = Left(left: L) | Right(right: R)

  /** The errors the core produces or propagates.  Each is what `anyhow`
      displays for it: an I/O error carries the context string attached with
      `.context(...)`, which is all its `Display` shows. */
  datatype Error =
    | InvalidPath(raw: string)          // FileListInputError::InvalidPath, holding the route text
    | Io(context: string)               // a std::io::Error wrapped with context
    | StripPrefix                       // std::path::StripPrefixError
    | Pattern(pos: nat, msg: string)    // glob::PatternError

  datatype Result<+T> = Ok(value: T) | Err(error: Error)

  /** The unit value of `anyhow::Result<()>`. */
  datatype Unit = Unit

  /** Rust's `{:?}` of a string or path: the text in double quotes with quotes
      and backslashes escaped. */
  function DebugQuote(s: string): (r: string)
    ensures |r| >= |s| + 2 && r[0] == '"' && r[|r| - 1] == '"'
  {
    "\"" + Escaped(s) + "\""
  }

  /** `t` reads as the inside of a debug-quoted string: a `\` always starts
      a two-character escape of `"` or `\`, and no `"` stands on its own, so
      the closing quote cannot be mistaken. */
  predicate WellEscaped(t: string)
    decreases |t|
  {
    if t == [] then true
    else if t[0] == '\\' then |t| >= 2 && (t[1] == '"' || t[1] == '\\') && WellEscaped(t[2..])
    else t[0] != '"' && WellEscaped(t[1..])
  }

  /** Reading the escapes back: `\c` stands for `c`. */
  function Unescaped(t: string): string
    decreases |t|
  {
    if t == [] then []
    else if t[0] == '\\' && |t| >= 2 then [t[1]] + Unescaped(t[2..])
    else [t[0]] + Unescaped(t[1..])
  }

  function Escaped(s: string): (r: string)
    ensures |r| >= |s|
    ensures WellEscaped(r)
  {
    if s == [] then []
    else (if s[0] == '"' || s[0] == '\\' then ['\\', s[0]] else [s[0]]) + Escaped(s[1..])
  }

  /** Escaping loses nothing: the quoted text reads back as the original. */
  lemma {:induction false} EscapedRoundTrip(s: string)
    ensures Unescaped(Escaped(s)) == s
    decreases |s|
  {
    if s != [] {
      EscapedRoundTrip(s[1..]);
      var rest := Escaped(s[1..]);
      if s[0] == '"' || s[0] == '\\' {
        assert Escaped(s) == ['\\', s[0]] + rest;
        assert (['\\', s[0]] + rest)[2..] == rest;
      } else {
        assert Escaped(s) == [s[0]] + rest;
        assert ([s[0]] + rest)[1..] == rest;
      }
      assert [s[0]] + s[1..] == s;
    }
  }

  /** What `format!("{}", e)` prints for an error. */
  function Display(e: Error): string
  {
    match e
    case InvalidPath(raw) => "Invalid path: " + DebugQuote(raw)
    case Io(context) => context
    case StripPrefix => "prefix not found"
    case Pattern(pos, msg) => "Pattern syntax error near position " + NatText(pos) + ": " + msg
  }

  function NatText(n: nat): (r: string)
    ensures |r| >= 1
    decreases n
  {
    if n < 10 then [Digit(n)] else NatText(n / 10) + [Digit(n % 10)]
  }

  function Digit(d: nat): char
    requires d < 10
  {
    ['0', '1', '2', '3', '4', '5', '6', '7', '8', '9'][d]
  }

  /** A JSON value.  Objects are maps: `serde_json`'s default `Map` keeps its
      keys sorted, so the insertion order of `json!` is not observable. */
  datatype Json =
    | JNull
    | JBool(b: bool)
    | JString(s: string)
    | JArray(items: seq<Json>)
    | JObject(fields: map<string, Json>)
}
