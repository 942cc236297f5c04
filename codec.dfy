/** The wire codec of src/request.rs: request text to a `Request`, a `Response`
    to text. The request line and status line follow the shape of sections 3 and
    4 of RFC 9112, with this server's own rules: the version token of a request is
    never looked at, a header line is split at its first colon, and the body is
    every line from the first empty line on, glued together without terminators. */
module Codec {
  import opened Wrappers
  import opened Strings

  // ---------------------------------------------------------------------------
  // Values

  /** `http::Method`. The decoder only ever builds `Get` and `Post`. */
  datatype Method = Get | Post | Extension(name: string)

  /** A request as the handler sees it: the header map holds names lowercased
      and values exactly as they followed the colon. */
  datatype Request = Request(httpMethod: Method, uri: string, headers: map<string, string>, body: string)

  /** `http::Version`. */
  datatype Version = Http09 | Http10 | Http11 | Http2 | Http3

  /** The `Debug` text of a version, which the status line uses. */
  function VersionText(v: Version): (t: string)
    ensures |t| > 0 && ' ' !in t && '\n' !in t
  {
    match v
    case Http09 => "HTTP/0.9"
    case Http10 => "HTTP/1.0"
    case Http11 => "HTTP/1.1"
    case Http2 => "HTTP/2.0"
    case Http3 => "HTTP/3.0"
  }

  /** `http::StatusCode` holds a three-digit code. */
  type StatusCode = c: int | 100 <= c <= 999 witness 200

  /** A token character of RFC 9110, section 5.6.2. */
  predicate IsTokenChar(c: char)
  {
    || ('a' <= c <= 'z') || ('A' <= c <= 'Z') || ('0' <= c <= '9')
    || c == '!' || c == '#' || c == '$' || c == '%' || c == '&' || c == '\'' || c == '*' || c == '+'
    || c == '-' || c == '.' || c == '^' || c == '_' || c == '`' || c == '|' || c == '~'
  }

  /** The names `HeaderName::from_bytes` accepts. */
  predicate IsHeaderName(s: string)
  {
    |s| > 0 && forall i :: 0 <= i < |s| ==> IsTokenChar(s[i])
  }

  function LowerChar(c: char): char
  {
    if 'A' <= c <= 'Z' then (c as int + 32) as char else c
  }

  /** ASCII lowercasing, which `HeaderName` applies to the names it stores. */
  function LowerAscii(s: string): (t: string)
    ensures |t| == |s|
    ensures forall i :: 0 <= i < |s| ==> t[i] == LowerChar(s[i])
  {
    if s == [] then [] else [LowerChar(s[0])] + LowerAscii(s[1..])
  }

  /** The values `HeaderValue::from_str` accepts: no control character other
      than tab. */
  predicate IsHeaderValue(s: string)
  {
    forall i :: 0 <= i < |s| ==> s[i] == '\t' || (' ' <= s[i] && s[i] != '\U{007F}')
  }

  /** The values `HeaderValue::to_str` can show: tab and visible ASCII. */
  predicate IsVisibleText(s: string)
  {
    forall i :: 0 <= i < |s| ==> s[i] == '\t' || (' ' <= s[i] <= '~')
  }

  predicate IsLowerName(s: string)
  {
    IsHeaderName(s) && forall i :: 0 <= i < |s| ==> !('A' <= s[i] <= 'Z')
  }

  /** A header name as a `HeaderName` stores it. */
  type FieldName = s: string | IsLowerName(s) witness "x"

  /** A header value a response can be serialised with. */
  type FieldText = s: string | IsVisibleText(s) witness ""

  /** A response as the handler builds it; headers in the map's iteration order. */
  datatype Response = Response(version: Version, status: StatusCode, headers: seq<(FieldName, FieldText)>, body: string)

  /** `Response::builder().status(code).body(body)`. */
  function NewResponse(code: StatusCode, body: string): (r: Response)
    ensures r.status == code && r.body == body && r.headers == [] && r.version == Http11
  {
    Response(Http11, code, [], body)
  }

  // ---------------------------------------------------------------------------
  // serialize_response

  const CRLF: string := "\r\n"

  function DigitChar(d: int): char
    requires 0 <= d < 10
  {
    ('0' as int + d) as char
  }

  /** `StatusCode::as_str`: the code's three decimal digits. */
  function StatusText(c: StatusCode): (t: string)
    ensures |t| == 3 && ' ' !in t && '\n' !in t
  {
    [DigitChar(c / 100), DigitChar((c / 10) % 10), DigitChar(c % 10)]
  }

  /** `StatusCode::canonical_reason`: the reason phrases the http crate knows. */
  function CanonicalReason(c: StatusCode): Option<string>
  {
    match c
    case 100 => Some("Continue")
    case 101 => Some("Switching Protocols")
    case 102 => Some("Processing")
    case 200 => Some("OK")
    case 201 => Some("Created")
    case 202 => Some("Accepted")
    case 203 => Some("Non Authoritative Information")
    case 204 => Some("No Content")
    case 205 => Some("Reset Content")
    case 206 => Some("Partial Content")
    case 207 => Some("Multi-Status")
    case 208 => Some("Already Reported")
    case 226 => Some("IM Used")
    case 300 => Some("Multiple Choices")
    case 301 => Some("Moved Permanently")
    case 302 => Some("Found")
    case 303 => Some("See Other")
    case 304 => Some("Not Modified")
    case 305 => Some("Use Proxy")
    case 307 => Some("Temporary Redirect")
    case 308 => Some("Permanent Redirect")
    case 400 => Some("Bad Request")
    case 401 => Some("Unauthorized")
    case 402 => Some("Payment Required")
    case 403 => Some("Forbidden")
    case 404 => Some("Not Found")
    case 405 => Some("Method Not Allowed")
    case 406 => Some("Not Acceptable")
    case 407 => Some("Proxy Authentication Required")
    case 408 => Some("Request Timeout")
    case 409 => Some("Conflict")
    case 410 => Some("Gone")
    case 411 => Some("Length Required")
    case 412 => Some("Precondition Failed")
    case 413 => Some("Payload Too Large")
    case 414 => Some("URI Too Long")
    case 415 => Some("Unsupported Media Type")
    case 416 => Some("Range Not Satisfiable")
    case 417 => Some("Expectation Failed")
    case 418 => Some("I'm a teapot")
    case 421 => Some("Misdirected Request")
    case 422 => Some("Unprocessable Entity")
    case 423 => Some("Locked")
    case 424 => Some("Failed Dependency")
    case 426 => Some("Upgrade Required")
    case 428 => Some("Precondition Required")
    case 429 => Some("Too Many Requests")
    case 431 => Some("Request Header Fields Too Large")
    case 451 => Some("Unavailable For Legal Reasons")
    case 500 => Some("Internal Server Error")
    case 501 => Some("Not Implemented")
    case 502 => Some("Bad Gateway")
    case 503 => Some("Service Unavailable")
    case 504 => Some("Gateway Timeout")
    case 505 => Some("HTTP Version Not Supported")
    case 506 => Some("Variant Also Negotiates")
    case 507 => Some("Insufficient Storage")
    case 508 => Some("Loop Detected")
    case 510 => Some("Not Extended")
    case 511 => Some("Network Authentication Required")
    case _ => None
  }

  /** The reason text of the status line: the canonical phrase, or else the
      text of `StatusCode::BAD_REQUEST.as_str()`, which is the code "400". */
  function Reason(c: StatusCode): string
  {
    CanonicalReason(c).GetOr(StatusText(400))
  }

  function StatusLine(r: Response): string
  {
    VersionText(r.version) + " " + StatusText(r.status) + " " + Reason(r.status)
  }

  function HeaderLine(h: (FieldName, FieldText)): string
  {
    h.0 + ": " + h.1
  }

  function HeaderLines(hs: seq<(FieldName, FieldText)>): (ls: seq<string>)
    ensures |ls| == |hs|
    ensures forall k :: 0 <= k < |hs| ==> ls[k] == HeaderLine(hs[k])
  {
    if hs == [] then [] else [HeaderLine(hs[0])] + HeaderLines(hs[1..])
  }

  /** `serialize_response`. */
  function SerializeResponse(r: Response): string
  {
    StatusLine(r) + CRLF + CrlfTerminated(HeaderLines(r.headers)) + CRLF + r.body
  }

  // ---------------------------------------------------------------------------
  // deserialize_request

  const INVALID_REQUEST: string := "Invalid HTTP Request"
  const INVALID_METHOD: string := "Invalid HTTP Method"
  const INVALID_URI: string := "Invalid HTTP URI"
  const MISSING_HEADERS: string := "Missing Headers"
  // Display texts of `InvalidHeaderName` and `InvalidHeaderValue`.
  const INVALID_HEADER_NAME: string := "invalid HTTP header name"
  const INVALID_HEADER_VALUE: string := "failed to parse header value"

  function UnsupportedMethod(m: string): string
  {
    "Unsupported HTTP Method: " + m
  }

  /** The request targets the `Uri` parser accepts, reduced to a character
      check: a non-empty run of visible ASCII. */
  predicate UriParses(u: string)
  {
    |u| > 0 && forall i :: 0 <= i < |u| ==> '!' <= u[i] <= '~'
  }

  /** `Request::builder().method(m).uri(u)`: a builder remembers whether the
      URI parsed; `headers_mut()` gives nothing when it did not. */
  datatype Builder = Builder(httpMethod: Method, uri: string, ok: bool)

  function NewBuilder(m: Method, uri: string): (b: Builder)
    ensures b.httpMethod == m && b.uri == uri && (b.ok <==> UriParses(uri))
  {
    Builder(m, uri, UriParses(uri))
  }

  /** How one header line fares: `splitn(2, ":")`, then the name, then the
      value. A valid name with no colon after it makes `header[1]` panic. */
  datatype HeaderParse = Field(name: string, value: string) | Bad(error: string) | NoColon

  function ParseHeaderLine(line: string): (p: HeaderParse)
    ensures p.Field? ==> IsHeaderName(p.name) && IsHeaderValue(p.value)
    ensures p.Bad? ==> p.error == INVALID_HEADER_NAME || p.error == INVALID_HEADER_VALUE
  {
    var (name, rest) := SplitOnce(line, ':');
    if !IsHeaderName(name) then Bad(INVALID_HEADER_NAME)
    else if rest.None? then NoColon
    else if !IsHeaderValue(rest.value) then Bad(INVALID_HEADER_VALUE)
    else Field(name, rest.value)
  }

  /** No header line panics: the first line that is not a field is rejected
      with an error rather than left colon-less. */
  predicate HeadersDefined(hs: seq<string>)
  {
    hs == [] ||
    match ParseHeaderLine(hs[0])
    case NoColon => false
    case Bad(_) => true
    case Field(_, _) => HeadersDefined(hs[1..])
  }

  /** Index of the first empty line: where the body starts. */
  function BodyStart(lines: seq<string>): (k: nat)
    ensures k <= |lines|
    ensures forall j :: 0 <= j < k ==> lines[j] != ""
    ensures k < |lines| ==> lines[k] == ""
  {
    if lines == [] || lines[0] == "" then 0 else 1 + BodyStart(lines[1..])
  }

  /** The header map the header lines build inside `headers_mut()`: insertion
      replaces, the first bad line ends everything with its error. */
  function HeaderMap(acc: map<string, string>, hs: seq<string>): (r: Result<map<string, string>>)
    requires HeadersDefined(hs)
    ensures r.Err? ==> r.error == INVALID_HEADER_NAME || r.error == INVALID_HEADER_VALUE
    decreases |hs|
  {
    if hs == [] then Ok(acc)
    else
      match ParseHeaderLine(hs[0])
      case Bad(e) => Err(e)
      case Field(name, value) => HeaderMap(acc[LowerAscii(name) := value], hs[1..])
  }

  predicate PartsDefined(b: Builder, lines: seq<string>)
  {
    b.ok ==> HeadersDefined(lines[..BodyStart(lines)])
  }

  /** What `parse_parts` builds from the lines after the request line. */
  function Parts(b: Builder, lines: seq<string>): (r: Result<Request>)
    requires PartsDefined(b, lines)
    ensures r.Err? ==> r.error in {MISSING_HEADERS, INVALID_HEADER_NAME, INVALID_HEADER_VALUE}
    ensures (r.Err? && r.error == MISSING_HEADERS) <==> !b.ok
    ensures r.Ok? ==> r.value.httpMethod == b.httpMethod && r.value.uri == b.uri
  {
    var k := BodyStart(lines);
    if !b.ok then Err(MISSING_HEADERS)
    else
      match HeaderMap(map[], lines[..k])
      case Err(e) => Err(e)
      case Ok(h) => Ok(Request(b.httpMethod, b.uri, h, Concat(lines[k..])))
  }

  /** The state of the `parse_parts` loop: the header map so far, the
      `is_body` flag and the body so far; or the error that ended it; or the
      panic of a colon-less header line. */
  datatype Scan = Scanning(headers: map<string, string>, isBody: bool, body: string) | Failed(error: string) | Panicked

  /** One iteration of the loop. */
  function Step(s: Scan, line: string): Scan
  {
    match s
    case Failed(_) => s
    case Panicked => s
    case Scanning(h, isBody, body) =>
      if isBody || line == "" then Scanning(h, true, body + line)
      else
        match ParseHeaderLine(line)
        case Bad(e) => Failed(e)
        case NoColon => Panicked
        case Field(name, value) => Scanning(h[LowerAscii(name) := value], false, body)
  }

  /** The loop run over `lines` from state `s`. */
  function Run(s: Scan, lines: seq<string>): Scan
    decreases |lines|
  {
    if lines == [] then s else Run(Step(s, lines[0]), lines[1..])
  }

  const START: Scan := Scanning(map[], false, "")

  /** `Parts` once the header map is known. */
  lemma PartsOk(b: Builder, lines: seq<string>, h: map<string, string>)
    requires b.ok && PartsDefined(b, lines)
    requires HeaderMap(map[], lines[..BodyStart(lines)]) == Ok(h)
    ensures Parts(b, lines) == Ok(Request(b.httpMethod, b.uri, h, Concat(lines[BodyStart(lines)..])))
  {
  }

  /** `parse_parts`: the loop over the remaining lines with its `is_body` flag,
      proved to build what `Parts` describes. */
  method ParseParts(lines: seq<string>, b: Builder) returns (r: Result<Request>)
    requires PartsDefined(b, lines)
    ensures r == Parts(b, lines)
  {
    if !b.ok {
      return Err(MISSING_HEADERS);
    }
    ghost var whole := Run(START, lines);
    RunParts(b, lines);
    var headers: map<string, string> := map[];
    var body := "";
    var isBody := false;
    for i := 0 to |lines|
      invariant whole == Run(Scanning(headers, isBody, body), lines[i..])
    {
      assert lines[i..][1..] == lines[i + 1..];
      var line := lines[i];
      if line == "" {
        isBody := true;
      }
      if isBody {
        body := body + line;
      } else {
        var (name, rest) := SplitOnce(line, ':');
        if !IsHeaderName(name) {
          RunFailed(INVALID_HEADER_NAME, lines[i + 1..]);
          return Err(INVALID_HEADER_NAME);
        }
        if rest.None? {
          RunPanicked(lines[i + 1..]);
          assert false;
        }
        var value := rest.value;
        if !IsHeaderValue(value) {
          RunFailed(INVALID_HEADER_VALUE, lines[i + 1..]);
          return Err(INVALID_HEADER_VALUE);
        }
        headers := headers[LowerAscii(name) := value];
      }
    }
    return Ok(Request(b.httpMethod, b.uri, headers, body));
  }

  lemma {:induction false} RunFailed(e: string, lines: seq<string>)
    ensures Run(Failed(e), lines) == Failed(e)
    decreases |lines|
  {
    if lines != [] {
      RunFailed(e, lines[1..]);
    }
  }

  lemma {:induction false} RunPanicked(lines: seq<string>)
    ensures Run(Panicked, lines) == Panicked
    decreases |lines|
  {
    if lines != [] {
      RunPanicked(lines[1..]);
    }
  }

  /** Once in the body, every further line is appended to it. */
  lemma {:induction false} RunBody(h: map<string, string>, body: string, lines: seq<string>)
    ensures Run(Scanning(h, true, body), lines) == Scanning(h, true, body + Concat(lines))
    decreases |lines|
  {
    if lines != [] {
      RunBody(h, body + lines[0], lines[1..]);
      assert body + lines[0] + Concat(lines[1..]) == body + Concat(lines);
    }
  }

  /** Before the body, the loop builds the header map of the lines up to the
      first empty one, and then the body of the rest. */
  lemma {:induction false} RunHeaders(h: map<string, string>, lines: seq<string>)
    requires HeadersDefined(lines[..BodyStart(lines)])
    ensures HeaderMap(h, lines[..BodyStart(lines)]).Err? ==>
      Run(Scanning(h, false, ""), lines) == Failed(HeaderMap(h, lines[..BodyStart(lines)]).error)
    ensures HeaderMap(h, lines[..BodyStart(lines)]).Ok? ==>
      && Run(Scanning(h, false, ""), lines).Scanning?
      && Run(Scanning(h, false, ""), lines).headers == HeaderMap(h, lines[..BodyStart(lines)]).value
      && Run(Scanning(h, false, ""), lines).body == Concat(lines[BodyStart(lines)..])
    decreases |lines|
  {
    var k := BodyStart(lines);
    if lines == [] {
    } else if lines[0] == "" {
      assert Step(Scanning(h, false, ""), lines[0]) == Scanning(h, true, "");
      RunBody(h, "", lines[1..]);
      assert lines[..k] == [] && lines[k..] == lines;
      assert Concat(lines) == "" + Concat(lines[1..]);
    } else {
      var hs := lines[..k];
      assert hs[0] == lines[0];
      assert hs[1..] == lines[1..][..BodyStart(lines[1..])];
      assert lines[k..] == lines[1..][BodyStart(lines[1..])..];
      match ParseHeaderLine(lines[0])
      case Bad(e) =>
        RunFailed(e, lines[1..]);
      case Field(name, value) =>
        RunHeaders(h[LowerAscii(name) := value], lines[1..]);
    }
  }

  /** The loop over all lines gives what `Parts` describes, and never panics. */
  lemma RunParts(b: Builder, lines: seq<string>)
    requires b.ok && PartsDefined(b, lines)
    ensures Run(START, lines).Failed? ==> Parts(b, lines) == Err(Run(START, lines).error)
    ensures Run(START, lines).Scanning? ==>
      Parts(b, lines) == Ok(Request(b.httpMethod, b.uri, Run(START, lines).headers, Run(START, lines).body))
    ensures !Run(START, lines).Panicked?
  {
    RunHeaders(map[], lines);
  }

  function BuildGet(uri: string, lines: seq<string>): Result<Request>
    requires PartsDefined(NewBuilder(Get, uri), lines)
  {
    Parts(NewBuilder(Get, uri), lines)
  }

  function BuildPost(uri: string, lines: seq<string>): Result<Request>
    requires PartsDefined(NewBuilder(Post, uri), lines)
  {
    Parts(NewBuilder(Post, uri), lines)
  }

  /** Requests whose decoding does not panic. */
  predicate DecodeDefined(text: string)
  {
    var lines := Lines(text);
    var head := if lines == [] then [] else Words(lines[0]);
    (|head| >= 2 && (head[0] == "GET" || head[0] == "POST"))
      ==> PartsDefined(NewBuilder(Get, head[1]), lines[1..])
  }

  /** `deserialize_request`. */
  function DeserializeRequest(text: string): Result<Request>
    requires DecodeDefined(text)
  {
    var lines := Lines(text);
    if lines == [] then Err(INVALID_REQUEST)
    else
      var head := Words(lines[0]);
      if |head| == 0 then Err(INVALID_METHOD)
      else if |head| == 1 then Err(INVALID_URI)
      else if head[0] == "GET" then BuildGet(head[1], lines[1..])
      else if head[0] == "POST" then BuildPost(head[1], lines[1..])
      else Err(UnsupportedMethod(head[0]))
  }
}
