# ThreadedServer, modelled in Dafny

`ThreadedServer` (core/server.py) is a small multithreaded HTTP-like server.
The accepting thread refuses a connection with a fixed 503 response when too
many threads are alive, and otherwise hands it to a worker thread. Each
worker reads request lines in a loop and parses the method and path by
splitting on the space character. It routes them through a two-entry
endpoint registry (`/v1/api` and `/health`) and writes back a status line
followed by a JSON body. The worker stops at the first failure. The server
keeps two statistics counters, `queries_count` and `elapsed_time`. The
compute handler (`/v1/api`) raises them; the health handler (`/health`)
reports them.

This project models that core sequentially and proves its properties:

- `text.dfy` (module `Text`) models Python's `str.split` with a one-character
  separator and its inverse `Join`. It also models the decimal rendering of
  numbers used in status lines and JSON, with a reader that inverts it.
- `http.dfy` (module `Http`) models the parts of the pipeline that do not
  touch server state:
  - the request-line parser `GetRequestHeaders`;
  - the router `GetHeaders`, over the fixed registry `ENDPOINTS`;
  - the status lines and the JSON bodies;
  - the overload response `Get503Response`.
- `server.dfy` (module `Server`) models the counters and how each request
  changes them:
  - specification functions on values (`SomeLogicStep`, `ContentStep`,
    `ResponseStep`);
  - the serve loop on a sequence of reads (`ServeWith`, `Serve`);
  - the class `ThreadedServer`, which keeps the counters in fields and whose
    methods are proved to follow those functions. Its `ServeClient` is the
    `while True` loop of `serve_client`.
- `server_props.dfy` (module `ServerProperties`) holds the properties:
  - the route table;
  - first-failure, ordering and consistency properties of the serve loop;
  - the counter invariant `queries <= seconds <= 5 * queries` over any
    history;
  - what repeated compute and health requests do.
- `admission.dfy` (module `Admission`) models the admission branch of
  `listen`:
  - the pure decision `Decide`;
  - a class `Listener` that counts workers. Its `Listen` is the accept loop
    over a burst of connections.

Two details of the code the model keeps:

- **Parsing.** The request line is split on the single space character,
  not on any whitespace. A tab does not separate tokens, and two spaces in a
  row produce an empty path.
- **Admission.** The test counts every live thread (`threading.active_count()`),
  including the accepting thread, not only the workers. With the live count
  modelled as one plus the number of workers, a connection is refused once
  `THREADS_COUNT` workers are running, so at most `THREADS_COUNT` workers
  ever run.

Modelling choices:

- **Draws per request.** Each request the worker receives carries the draw
  the compute handler would make while serving it: a `Tick` with a sleep
  duration in [1, 5] and an opaque ISO-8601 timestamp.
- **Read failures.** A read that fails (timeout, reset, undecodable bytes)
  is `ReadFailed`. A peer that closes the connection is a read of the empty
  text, which the parser rejects like any line without a space.
- **Serve loop.** The loop is defined for any `Responder` (a function from
  counters, request and tick to a response and new counters, or a failure).
  The server's own loop is `Serve`, that is, `ServeWith(ResponseStep, ...)`.
  The loop lemmas assume only that the responder fails exactly on lines
  without a space (`FailsWithoutSpace`) or that it keeps the counters
  consistent (`KeepsConsistent`). `ResponseStepResponder` proves both of
  `ResponseStep`.

## Model

| member | source | states |
|---|---|---|
| Text.Split | core/server.py:70 | splitting gives one more token than there are separators |
| Text.SplitTokensFree | core/server.py:70 | no token contains the separator |
| Text.JoinSplit | core/server.py:70 | joining the tokens with the separator gives back the original text |
| Text.SplitJoin | core/server.py:70 | splitting the join of separator-free tokens gives back the tokens |
| Text.Decimal | core/server.py:90-127 | the decimal text of a number is non-empty, all digits and has no leading zero |
| Text.ParseDecimalRoundTrip | core/server.py:90-127 | reading back the decimal text of a number gives the number |
| Text.DecimalInjective | core/server.py:127 | distinct numbers have distinct decimal texts |
| Http.GetRequestHeaders | core/server.py:68-75 | parsing fails with `IndexError` exactly when the request has no space |
| Http.ParsedTokensFree | core/server.py:70-75 | neither the parsed method nor the parsed path contains a space |
| Http.ParseMethodPath | core/server.py:68-75 | `m + " " + p` parses to `(m, p)` for space-free `m` and `p` |
| Http.ParseMethodPathRest | core/server.py:68-75 | `m + " " + p + " " + rest` parses to `(m, p)`, whatever `rest` is |
| Http.ParseShape | core/server.py:68-75 | a parsed request starts with method, one space and path, followed by its end or a space |
| Http.ParseFailures | core/server.py:70-73 | the empty read, `"GET"` and `"GET\t/health"` fail to parse |
| Http.ParseEmptyPath | core/server.py:70-75 | `"GET  /x"` parses to method `GET` and the empty path |
| Http.GetHeaders | core/server.py:77-85 | 405 exactly for methods other than `GET`; otherwise 404 exactly for unregistered paths and 200 exactly for registered ones |
| Http.GetHeadersCarriesCode | core/server.py:77-85 | the status line returned is an HTTP/1.1 status line whose digits are the returned code |
| Http.StatusLineCarriesCode | core/server.py:80-85 | a status line built for a three-digit code and a one-line reason carries that code |
| Http.StatusLine405Text | core/server.py:80 | the 405 line is `HTTP/1.1 405 Method not allowed` followed by `\n\n` |
| Http.StatusLine404Text | core/server.py:83 | the 404 line is `HTTP/1.1 404 Not found` followed by `\n\n` |
| Http.StatusLine200Text | core/server.py:85 | the 200 line is `HTTP/1.1 200 OK` followed by `\n\n` |
| Http.StatusLine503Text | core/server.py:107 | the 503 line is `HTTP/1.1 503 Service temporarily unavailable` followed by `\n\n` |
| Http.TotalsJsonInjective | core/server.py:125-127 | the health body determines both totals it reports |
| Http.ZeroTotalsText | core/server.py:21-22 | with both counters at zero, the health body is `{"total": {"queries": 0, "seconds": 0}}` |
| Http.Json | core/server.py:90-127 | every body `json.dumps` writes here is a JSON object, from `{` to `}`; the health body determines its totals (`TotalsJsonInjective`) and reads `{"total": {"queries": 0, "seconds": 0}}` at zero (`ZeroTotalsText`) |
| Http.Get503Response | core/server.py:104-110 | the overload response is a 503 status line immediately followed by the 503 error body |
| Http.Overload503Text | core/server.py:107-110 | the overload response starts with `HTTP/1.1 503 Service temporarily unavailable\n\n` |
| Server.SomeLogicStep | core/server.py:112-123 | the compute handler's body reports the duration drawn; it adds exactly one query and between one and five seconds (see also `SomeLogicStepKeepsConsistent`) |
| Server.ContentStep | core/server.py:87-94 | the 404 and 405 bodies carry the same status code as the header and leave the counters alone; otherwise only the compute handler changes them, by one query (routes in `RouteRefused`, `RouteUnknown`, `RouteHealth`, `RouteCompute`) |
| Server.ResponseStep | core/server.py:96-102 | handling a request fails, with `IndexError`, exactly when the request has no space |
| Server.Next | core/server.py:56-65 | one more read never takes back a response already written |
| Server.ServeWith | core/server.py:56-65 | the serve loop writes at most one response per read, and exactly one per read while the connection stays open |
| Server.Serve | core/server.py:54-65 | the same for the server's own loop; its full behaviour is in `ServerSession` |
| Server.ServeStaysClosed | core/server.py:62-65 | once the connection is closed, later reads change nothing |
| Server.SomeLogicStepKeepsConsistent | core/server.py:116-121 | the compute handler adds exactly one query and between one and five seconds, keeping the totals consistent |
| Server.ResponseStepKeepsConsistent | core/server.py:96-121 | handling any request keeps the totals consistent and never decreases them |
| Server.ResponseStepResponder | core/server.py:96-102 | the server's responder fails exactly on lines without a space and keeps the totals consistent |
| Server.ThreadedServer.constructor | core/server.py:21-22 | a new server has both counters at zero |
| Server.ThreadedServer.GetSomeLogic | core/server.py:112-123 | the compute handler reports the date and duration drawn and adds one query and that duration |
| Server.ThreadedServer.GetHealth | core/server.py:125-127 | the health handler reports exactly the two counters and changes nothing |
| Server.ThreadedServer.GetContent | core/server.py:87-94 | 404 and 405 get their fixed bodies without touching the counters; 200 runs the registered handler |
| Server.ThreadedServer.GetResponse | core/server.py:96-102 | the method follows `ResponseStep`; a failed request leaves the counters unchanged |
| Server.ThreadedServer.ServeClient | core/server.py:54-65 | the loop writes exactly the responses of `Serve`, leaves the counters where `Serve` leaves them and closes exactly when `Serve` does |
| ServerProperties.RouteRefused | core/server.py:79-80 | any method but `GET` gets 405 and the 405 body, and the counters stay unchanged |
| ServerProperties.NonGetRefused | core/server.py:68-80 | `verb + " " + path + " " + rest` with a method other than `GET` gets 405 whatever the path |
| ServerProperties.RouteUnknown | core/server.py:82-90 | `GET` on an unregistered path gets 404 and the 404 body, and the counters stay unchanged |
| ServerProperties.RouteHealth | core/server.py:85-127 | `GET /health` gets 200 and the current totals, and the counters stay unchanged |
| ServerProperties.RouteCompute | core/server.py:85-123 | `GET /v1/api` gets 200 and the date and duration, and adds one query and that duration |
| ServerProperties.ResponseCarriesCode | core/server.py:96-102 | every response is the status line carrying the code the router returned (200, 404 or 405), immediately followed by the body for that code: the fixed 404 or 405 error body, or for 200 a handler's body |
| ServerProperties.FirstFailure | core/server.py:56-65 | the index of the first read that ends the session: every read before it is answered and the one at it ends the session |
| ServerProperties.ServePrefixShape | core/server.py:56-65 | after `j` reads, the session is open with `j` responses if none of them ended it, and otherwise closed with one response per read before the first failure |
| ServerProperties.ServeStopsAtFirstFailure | core/server.py:56-65 | a session writes one response per read before the first failing one, and is closed exactly when a failing read exists |
| ServerProperties.ServeIgnoresAfterFailure | core/server.py:62-65 | reads after the first failure are never looked at; the failing read gets no response |
| ServerProperties.ServeExtends | core/server.py:56-65 | what the first `j` reads wrote is the start of what the whole session writes |
| ServerProperties.ServeInOrder | core/server.py:56-65 | response `i` answers read `i`, from the counters the earlier reads left |
| ServerProperties.ServeKeepsConsistent | core/server.py:56-65 | a session keeps the totals consistent and never decreases them |
| ServerProperties.ServerSession | core/server.py:54-65 | the server's session answers exactly the reads before the first failure, in order, and keeps the totals consistent and monotone |
| ServerProperties.ReplayKeepsConsistent | core/server.py:116-121 | any history of requests keeps the totals consistent and never decreases them |
| ServerProperties.Reachable | core/server.py:21-22 | every state reached from 0/0 satisfies `queries <= seconds <= 5 * queries` |
| ServerProperties.ComputeRequestLine | core/server.py:68-75 | `"GET /v1/api"` is a compute request |
| ServerProperties.HealthRequestLines | core/server.py:68-75 | `"GET /health"` and `"GET /health HTTP/1.1"` are health requests |
| ServerProperties.ComputeRequestCounts | core/server.py:112-123 | the server answers a compute request from any counters, adding one query and the duration drawn |
| ServerProperties.HealthRequestAnswers | core/server.py:125-127 | the server answers a health request with the current totals and changes nothing |
| ServerProperties.ComputeTotals | core/server.py:116-121 | after K compute requests the session is still open, has K responses, and the totals have grown by K queries and the sum of the K durations |
| ServerProperties.ServerComputeTotals | core/server.py:116-121 | the same, for the server's own session |
| ServerProperties.ResponseStepOnlyComputeCounts | core/server.py:87-127 | every request that is not a compute request (refused, unknown or health) leaves the counters unchanged |
| ServerProperties.NonComputeKeepsCounters | core/server.py:56-65 | a session with no compute request leaves the counters where they were, however it ends |
| ServerProperties.HealthIdempotent | core/server.py:125-127 | in a session with no compute request, whatever other requests come between, every answered health request gets the same totals response and the counters stay unchanged |
| ServerProperties.ServerHealthIdempotent | core/server.py:125-127 | the same for the server's own loop, for every health request line (`GET /health`, alone or followed by a space and anything) |
| ServerProperties.HealthRevealsTotals | core/server.py:125-127 | two servers that answer a health request alike have the same totals |
| ServerProperties.FreshHealth | core/server.py:21-22 | a fresh server answers a health request with `HTTP/1.1 200 OK\n\n` and zero totals |
| Admission.Decide | core/server.py:44-52 | a connection is refused exactly when more threads are alive than `THREADS_COUNT`, and then with the overload response |
| Admission.Listener.constructor | core/server.py:36-42 | the accepting thread starts with no workers |
| Admission.Listener.Accept | core/server.py:44-52 | either a refusal with the overload response and no new worker, or exactly one new worker; the workers never exceed `THREADS_COUNT` |
| Admission.Listener.Finish | core/server.py:52-65 | a worker whose `serve_client` returns leaves the count |
| Admission.Listener.Listen | core/server.py:41-52 | in a burst of connections, the first ones fill the free places and all later ones are refused; the workers never exceed `THREADS_COUNT` |

## Left out

- Sockets: creating, binding, listening, accepting, `settimeout`, `recv` and `sendall`. Requests are strings and responses are strings. A read is either its decoded text or `ReadFailed`.
- Receive framing: one `recv` of up to `BUFFER_SIZE` bytes is taken to be one request line.
- A `sendall` that fails is not modelled. It would end the session after the response was computed, so it would still change the counters.
- UTF-8 decoding and encoding of the bytes. Text is `seq<char>`, and a failed decode is a `ReadFailed` read.
- Threads: real concurrency, the race between the admission check and the start of a worker, and unsynchronised increments of the counters from several workers. Admission and counters are modelled sequentially. The live thread count is one plus the number of workers.
- `time.sleep`, `random.randint` and `datetime.now()`. Their values arrive as the `Tick` of each request, a duration in [1, 5] and an opaque timestamp string.
- JSON string escaping. The bodies are rendered as `json.dumps` writes them with its default separators and key order. The strings inside them need no escaping, and the timestamp is assumed to need none either.
- `host`, `port`, the socket options, the logger (libs/logger.py), the environment-based configuration (data/config.py) and the entry point (main.py). `THREADS_COUNT` is a parameter of `Listener`.
- Server.ServeClient: on a failure it returns instead of closing a socket. Closing is the `closed` result.
- Admission.Listener.Listen: models only bursts during which no worker finishes. Interleaved finishes are the separate `Finish` steps.
