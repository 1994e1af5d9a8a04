/** The request pipeline of `ThreadedServer` that does not touch server
    state: the request-line parser, the router that classifies a method and
    path into a status, the JSON bodies, and the fixed overload response. */
module Http {
  import opened Text

  /** Why handling a request failed. `IndexError` is what the parser raises
      when the request line has fewer than two space-separated tokens. */
  datatype Error = IndexError

  datatype Result<T> = Ok(value: T) | Failure(error: Error)

  /** The handlers a path can be bound to. */
  datatype Handler = SomeLogic | Health

  /** The endpoint registry, fixed when the server is built. */
  const ENDPOINTS: map<string, Handler> := map["/v1/api" := SomeLogic, "/health" := Health]

  // ---------------------------------------------------------------------
  // Request-line parser

  /** Splits the request on the single space character and returns tokens
      0 and 1 as method and path; fails when there are fewer than two. */
  function GetRequestHeaders(request: string): (r: Result<(string, string)>)
    ensures r.Failure? <==> ' ' !in request
  {
    CountZero(request, ' ');
    var tokens := Split(request, ' ');
    if |tokens| < 2 then Failure(IndexError) else Ok((tokens[0], tokens[1]))
  }

  /** Neither the method nor the path contains a space. */
  lemma ParsedTokensFree(request: string)
    requires GetRequestHeaders(request).Ok?
    ensures ' ' !in GetRequestHeaders(request).value.0
    ensures ' ' !in GetRequestHeaders(request).value.1
  {
    SplitTokensFree(request, ' ');
  }

  /** A method and a path joined by one space parse back to themselves. */
  lemma ParseMethodPath(m: string, p: string)
    requires ' ' !in m && ' ' !in p
    ensures GetRequestHeaders(m + " " + p) == Ok((m, p))
  {
    SplitAfterToken(m, p, ' ');
    SplitSingle(p, ' ');
  }

  /** Whatever follows the second space is ignored. */
  lemma ParseMethodPathRest(m: string, p: string, rest: string)
    requires ' ' !in m && ' ' !in p
    ensures GetRequestHeaders(m + " " + p + " " + rest) == Ok((m, p))
  {
    assert m + " " + p + " " + rest == m + [' '] + (p + [' '] + rest);
    SplitAfterToken(m, p + [' '] + rest, ' ');
    SplitAfterToken(p, rest, ' ');
  }

  /** Request lines without a single space fail, whatever other blank
      they use. */
  lemma ParseFailures()
    ensures GetRequestHeaders("").Failure?
    ensures GetRequestHeaders("GET").Failure?
    ensures GetRequestHeaders("GET\t/health").Failure?
  {
    var blank := "GET\t/health";
    assert forall i :: 0 <= i < |blank| ==> blank[i] != ' ';
  }

  /** Two spaces in a row give an empty path. */
  lemma ParseEmptyPath()
    ensures GetRequestHeaders("GET  /x") == Ok(("GET", ""))
  {
    assert "GET  /x" == "GET" + " " + "" + " " + "/x";
    ParseMethodPathRest("GET", "", "/x");
  }

  /** Conversely, a parsed request is the method, one space, the path and
      then either nothing or a space followed by anything. */
  lemma ParseShape(request: string)
    requires GetRequestHeaders(request).Ok?
    ensures var (m, p) := GetRequestHeaders(request).value;
      var n := |m| + 1 + |p|;
      n <= |request| && request[..n] == m + " " + p &&
      (n == |request| || request[n] == ' ')
  {
    var tokens := Split(request, ' ');
    var (m, p) := (tokens[0], tokens[1]);
    JoinSplit(request, ' ');
    assert tokens == [m] + tokens[1..];
    var tail := Join(tokens[1..], ' ');
    assert request == m + [' '] + tail;
    if |tokens| == 2 {
      assert tail == p;
      assert request == m + " " + p;
    } else {
      assert tokens[1..][1..] == tokens[2..];
      assert tail == p + [' '] + Join(tokens[2..], ' ');
      assert request == (m + " " + p) + [' '] + Join(tokens[2..], ' ');
    }
  }

  // ---------------------------------------------------------------------
  // Router

  /** `line` is an HTTP/1.1-style status line for `code`: the version, the
      three digits of the code, a space, a reason phrase on one line, and
      the blank-line terminator `\n\n` (no headers follow). */
  predicate CarriesCode(line: string, code: nat)
  {
    |line| > 15 &&
    line[..9] == "HTTP/1.1 " && line[9..12] == Decimal(code) && line[12] == ' ' &&
    '\n' !in line[..|line| - 2] && line[|line| - 2..] == "\n\n"
  }

  /** The three digits of a status code. */
  function CodeDigits(code: nat): string
    requires 100 <= code < 1000
  {
    [DigitChar(code / 100), DigitChar(code / 10 % 10), DigitChar(code % 10)]
  }

  /** The status line the server writes: version, code, reason phrase and
      the blank-line terminator. */
  function StatusLine(code: nat, reason: string): string
    requires 100 <= code < 1000
  {
    "HTTP/1.1 " + CodeDigits(code) + " " + reason + "\n\n"
  }

  /** A status line for a code and a one-line reason phrase carries that
      code. */
  lemma StatusLineCarriesCode(code: nat, reason: string)
    requires 100 <= code < 1000 && 0 < |reason| && '\n' !in reason
    ensures CarriesCode(StatusLine(code, reason), code)
  {
    var line := StatusLine(code, reason);
    DecimalThreeDigits(code);
    assert line[..|line| - 2] == "HTTP/1.1 " + Decimal(code) + " " + reason;
  }

  /** The refusal status lines, spelled out. */
  lemma StatusLine405Text()
    ensures StatusLine(405, "Method not allowed") == "HTTP/1.1 405 " + "Method not allowed" + "\n\n"
  {
    assert CodeDigits(405) == "405";
    assert "HTTP/1.1 " + "405" + " " == "HTTP/1.1 405 ";
  }

  lemma StatusLine404Text()
    ensures StatusLine(404, "Not found") == "HTTP/1.1 404 " + "Not found" + "\n\n"
  {
    assert CodeDigits(404) == "404";
    assert "HTTP/1.1 " + "404" + " " == "HTTP/1.1 404 ";
  }

  /** The overload status line, spelled out. */
  lemma StatusLine503Text()
    ensures StatusLine(503, "Service temporarily unavailable")
         == "HTTP/1.1 503 " + "Service temporarily unavailable" + "\n\n"
  {
    assert CodeDigits(503) == "503";
    assert "HTTP/1.1 " + "503" + " " == "HTTP/1.1 503 ";
  }

  /** The success status line, spelled out. */
  lemma StatusLine200Text()
    ensures StatusLine(200, "OK") == "HTTP/1.1 200 OK\n\n"
  {
    assert CodeDigits(200) == "200";
  }

  /** Classifies a request method (`verb`) and path: any method but exactly "GET" is 405,
      then a path outside the registry is 404, otherwise 200. Returns the
      status line and the code. */
  function GetHeaders(verb: string, endpoint: string): (r: (string, nat))
    ensures r.1 == 405 <==> verb != "GET"
    ensures r.1 == 404 <==> verb == "GET" && endpoint !in ENDPOINTS
    ensures r.1 == 200 <==> verb == "GET" && endpoint in ENDPOINTS
  {
    if verb != "GET" then (StatusLine(405, "Method not allowed"), 405)
    else if endpoint !in ENDPOINTS then (StatusLine(404, "Not found"), 404)
    else (StatusLine(200, "OK"), 200)
  }

  /** The line the router returns is a status line for the code it returns. */
  lemma GetHeadersCarriesCode(verb: string, endpoint: string)
    ensures var (line, code) := GetHeaders(verb, endpoint);
      CarriesCode(line, code)
  {
    var code := GetHeaders(verb, endpoint).1;
    var reason := if code == 405 then "Method not allowed" else if code == 404 then "Not found" else "OK";
    StatusLineCarriesCode(code, reason);
  }

  // ---------------------------------------------------------------------
  // Bodies

  /** The JSON objects the server sends. */
  datatype Body =
    | Message(msg: string, statusCode: nat)       // {"msg": ..., "status_code": ...}
    | Logic(currentDate: string, tookSeconds: nat) // {"current_date": ..., "response_took_seconds": ...}
    | Totals(queries: nat, seconds: nat)           // {"total": {"queries": ..., "seconds": ...}}

  const PAGE_NOT_FOUND := Message("Page not found", 404)
  const METHOD_NOT_ALLOWED := Message("Method not allowed", 405)
  const SERVICE_UNAVAILABLE := Message("Service temporarily unavailable", 503)

  function Quote(s: string): string { "\"" + s + "\"" }

  /** The text the JSON encoder produces with its default separators
      (", " between members, ": " after keys) and keys in insertion order. */
  function Json(b: Body): (r: string)
    ensures |r| >= 2 && r[0] == '{' && r[|r| - 1] == '}'
  {
    match b
    case Message(msg, code) =>
      "{\"msg\": " + Quote(msg) + ", \"status_code\": " + Decimal(code) + "}"
    case Logic(date, took) =>
      "{\"current_date\": " + Quote(date) + ", \"response_took_seconds\": " + Decimal(took) + "}"
    case Totals(queries, seconds) =>
      "{\"total\": {\"queries\": " + Decimal(queries) + ", \"seconds\": " + Decimal(seconds) + "}}"
  }

  /** The health body determines the totals it reports. */
  lemma TotalsJsonInjective(q1: nat, s1: nat, q2: nat, s2: nat)
    requires Json(Totals(q1, s1)) == Json(Totals(q2, s2))
    ensures q1 == q2 && s1 == s2
  {
    var sep := ", \"seconds\": ";
    assert sep[0] == ',';
    DigitFieldsUnique("{\"total\": {\"queries\": ", sep, "}}",
                      Decimal(q1), Decimal(s1), Decimal(q2), Decimal(s2));
    DecimalInjective(q1, q2);
    DecimalInjective(s1, s2);
  }

  /** The health body of a fresh server, spelled out. */
  lemma ZeroTotalsText()
    ensures Json(Totals(0, 0)) == "{\"total\": {\"queries\": " + "0" + ", \"seconds\": " + "0" + "}}"
  {
    assert Decimal(0) == "0";
  }

  // ---------------------------------------------------------------------
  // Overload response

  /** The response sent to a connection that is refused for lack of
      capacity: a 503 status line followed by the fixed error body. */
  function Get503Response(): (r: string)
    ensures |r| > 46 && CarriesCode(r[..46], 503)
    ensures r[46..] == Json(SERVICE_UNAVAILABLE)
  {
    StatusLineCarriesCode(503, "Service temporarily unavailable");
    StatusLine(503, "Service temporarily unavailable") + Json(SERVICE_UNAVAILABLE)
  }

  /** The overload response starts with the 503 status line, word for word. */
  lemma Overload503Text()
    ensures Get503Response()[..46] == "HTTP/1.1 503 " + "Service temporarily unavailable" + "\n\n"
  {
    StatusLine503Text();
  }
}
