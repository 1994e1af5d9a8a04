/** The stateful part of `ThreadedServer`: the two statistics counters, the
    handlers that use them, `get_content`, `get_response` and the
    per-connection serve loop. The pure functions here say what each step
    does to a value of the counters; the class `ThreadedServer` keeps the
    counters in fields and its methods are proved to follow those functions. */
module Server {
  import opened Text
  import opened Http

  /** The values of `queries_count` and `elapsed_time`. */
  datatype Stats = Stats(queries: nat, seconds: nat)

  /** Both counters start at zero. */
  const INITIAL := Stats(0, 0)

  /** Every request to the compute handler adds one query and between one
      and five seconds, so the totals always satisfy these bounds. */
  predicate Consistent(s: Stats)
  {
    s.queries <= s.seconds <= 5 * s.queries
  }

  /** The number of seconds the compute handler sleeps, drawn from [1, 5]. */
  type Duration = d: int | 1 <= d <= 5 witness 1

  /** What the compute handler draws while serving one request: the sleep
      duration and the ISO-8601 timestamp it reports (opaque text here). */
  datatype Tick = Tick(duration: Duration, date: string)

  /** One read on a connection: the decoded text of a request, with the
      draw the compute handler would make while serving it, or a read that
      failed (timeout, reset, undecodable bytes). A peer that closes the
      connection is a read of the empty text. */
  datatype Incoming = Received(text: string, tick: Tick) | ReadFailed

  // ---------------------------------------------------------------------
  // Specification of one step, on values

  /** The compute handler: its body and the counters after it. */
  function SomeLogicStep(s: Stats, tick: Tick): (r: (Body, Stats))
    ensures r.0.Logic? && r.0.tookSeconds == tick.duration
    ensures r.1.queries == s.queries + 1 && s.seconds + 1 <= r.1.seconds <= s.seconds + 5
  {
    (Logic(tick.date, tick.duration), Stats(s.queries + 1, s.seconds + tick.duration))
  }

  /** The health handler's body; it does not change the counters. */
  function HealthReport(s: Stats): Body
  {
    Totals(s.queries, s.seconds)
  }

  /** `get_content`: the fixed error bodies for 404 and 405, otherwise the
      handler registered for the path. The registry lookup is defined only
      for registered paths, hence the precondition. */
  function ContentStep(s: Stats, code: nat, endpoint: string, tick: Tick): (r: (Body, Stats))
    requires code == 404 || code == 405 || endpoint in ENDPOINTS
    ensures code == 404 || code == 405 ==> r.0.Message? && r.0.statusCode == code && r.1 == s
    ensures r.1 == s || (r.1.queries == s.queries + 1 && r.0.Logic?)
  {
    if code == 404 then (PAGE_NOT_FOUND, s)
    else if code == 405 then (METHOD_NOT_ALLOWED, s)
    else match ENDPOINTS[endpoint]
      case SomeLogic => SomeLogicStep(s, tick)
      case Health => (HealthReport(s), s)
  }

  /** `get_response`: parse, classify, dispatch, and the text sent back
      with the counters after it. The call to `ContentStep` is well defined
      because the classifier returns 200 only for registered paths. */
  function ResponseStep(s: Stats, request: string, tick: Tick): (r: Result<(string, Stats)>)
    ensures r.Failure? <==> ' ' !in request
    ensures r.Failure? ==> r.error == IndexError
  {
    match GetRequestHeaders(request)
    case Failure(e) => Failure(e)
    case Ok((verb, endpoint)) =>
      var (line, code) := GetHeaders(verb, endpoint);
      var (body, s') := ContentStep(s, code, endpoint, tick);
      Ok((line + Json(body), s'))
  }

  /** `ResponseStep` for a request whose method and path are known. */
  lemma ResponseStepOf(s: Stats, request: string, tick: Tick, verb: string, endpoint: string)
    requires GetRequestHeaders(request) == Ok((verb, endpoint))
    ensures var (line, code) := GetHeaders(verb, endpoint);
      var (body, s') := ContentStep(s, code, endpoint, tick);
      ResponseStep(s, request, tick) == Ok((line + Json(body), s'))
  {
  }

  /** Whether a read ends the session: the read failed or the request has
      fewer than two space-separated tokens. */
  predicate EndsSession(x: Incoming)
  {
    x.ReadFailed? || ' ' !in x.text
  }

  /** What one session has produced: the responses written, in order, the
      counters afterwards, and whether the connection was closed. */
  datatype Session = Session(responses: seq<string>, stats: Stats, closed: bool)

  /** What the serve loop calls for each request it reads: the response
      text and the counters after it, or the error that ends the session.
      The server's own is `ResponseStep`. */
  type Responder = (Stats, string, Tick) -> Result<(string, Stats)>

  /** The responder fails exactly on request lines without a space. */
  ghost predicate FailsWithoutSpace(respond: Responder)
  {
    forall s: Stats, request: string, tick: Tick ::
      respond(s, request, tick).Failure? <==> ' ' !in request
  }

  /** The responder keeps the counters consistent and never decreases them. */
  ghost predicate KeepsConsistent(respond: Responder)
  {
    forall s: Stats, request: string, tick: Tick ::
      Consistent(s) && respond(s, request, tick).Ok? ==>
        var s' := respond(s, request, tick).value.1;
        Consistent(s') && s.queries <= s'.queries && s.seconds <= s'.seconds
  }

  /** One more read on a session: nothing happens once the connection is
      closed; a failed read or a request the responder rejects closes it;
      otherwise the response is written and the counters move on. */
  function Next(respond: Responder, p: Session, x: Incoming): (r: Session)
    ensures p.responses <= r.responses
  {
    if p.closed then p
    else if x.ReadFailed? then Session(p.responses, p.stats, true)
    else match respond(p.stats, x.text, x.tick)
      case Failure(_) => Session(p.responses, p.stats, true)
      case Ok((text, s')) => Session(p.responses + [text], s', false)
  }

  /** The serve loop over the reads a connection delivers, read by read from
      a fresh session; when the reads run out before one ends the session,
      the session is still open. */
  function ServeWith(respond: Responder, s: Stats, incoming: seq<Incoming>): (r: Session)
    ensures |r.responses| <= |incoming|
    ensures !r.closed ==> |r.responses| == |incoming|
    decreases |incoming|
  {
    if incoming == [] then Session([], s, false)
    else Next(respond, ServeWith(respond, s, incoming[..|incoming| - 1]), incoming[|incoming| - 1])
  }

  /** `serve_client`: the serve loop answering with `get_response`. */
  function Serve(s: Stats, incoming: seq<Incoming>): (r: Session)
    ensures |r.responses| <= |incoming|
    ensures !r.closed ==> |r.responses| == |incoming|
  {
    ServeWith(ResponseStep, s, incoming)
  }

  /** The session after the first `j + 1` reads is the one after the first
      `j`, followed by read `j`. */
  lemma ServeSnoc(respond: Responder, s: Stats, incoming: seq<Incoming>, j: nat)
    requires j < |incoming|
    ensures ServeWith(respond, s, incoming[..j + 1])
         == Next(respond, ServeWith(respond, s, incoming[..j]), incoming[j])
  {
    assert incoming[..j + 1][..j] == incoming[..j];
  }

  /** Once a session is closed, later reads change nothing. */
  lemma {:induction false} ServeStaysClosed(respond: Responder, s: Stats, incoming: seq<Incoming>, j: nat)
    requires j <= |incoming| && ServeWith(respond, s, incoming[..j]).closed
    ensures ServeWith(respond, s, incoming) == ServeWith(respond, s, incoming[..j])
    decreases |incoming|
  {
    if j == |incoming| {
      assert incoming[..j] == incoming;
    } else {
      var init := incoming[..|incoming| - 1];
      assert init[..j] == incoming[..j];
      ServeStaysClosed(respond, s, init, j);
    }
  }

  /** The compute handler keeps the counters consistent and increases both. */
  lemma SomeLogicStepKeepsConsistent(s: Stats, tick: Tick)
    requires Consistent(s)
    ensures var s' := SomeLogicStep(s, tick).1;
      Consistent(s') && s'.queries == s.queries + 1 && s.seconds + 1 <= s'.seconds <= s.seconds + 5
  {
  }

  /** Handling a request keeps the counters consistent and never decreases
      them. */
  lemma ResponseStepKeepsConsistent(s: Stats, request: string, tick: Tick)
    requires Consistent(s) && ResponseStep(s, request, tick).Ok?
    ensures var s' := ResponseStep(s, request, tick).value.1;
      Consistent(s') && s.queries <= s'.queries && s.seconds <= s'.seconds
  {
    var (verb, endpoint) := GetRequestHeaders(request).value;
    var (_, code) := GetHeaders(verb, endpoint);
    if code == 200 && ENDPOINTS[endpoint] == SomeLogic {
      SomeLogicStepKeepsConsistent(s, tick);
    }
  }

  /** `ResponseStep` is a responder of both kinds above. */
  lemma ResponseStepResponder()
    ensures FailsWithoutSpace(ResponseStep) && KeepsConsistent(ResponseStep)
  {
    forall s: Stats, request: string, tick: Tick
      | Consistent(s) && ResponseStep(s, request, tick).Ok?
      ensures var s' := ResponseStep(s, request, tick).value.1;
        Consistent(s') && s.queries <= s'.queries && s.seconds <= s'.seconds
    {
      ResponseStepKeepsConsistent(s, request, tick);
    }
  }

  // ---------------------------------------------------------------------
  // The server object

  class ThreadedServer {
    var queriesCount: nat
    var elapsedTime: nat

    ghost function Counters(): Stats
      reads this
    {
      Stats(queriesCount, elapsedTime)
    }

    ghost predicate Valid()
      reads this
    {
      Consistent(Counters())
    }

    /** A new server has both counters at zero (socket setup is not part of
        this model). */
    constructor ()
      ensures Valid() && Counters() == INITIAL
    {
      queriesCount := 0;
      elapsedTime := 0;
    }

    /** The compute handler: one more query, `tick.duration` more seconds. */
    method GetSomeLogic(tick: Tick) returns (body: Body)
      requires Valid()
      modifies this
      ensures Valid()
      ensures (body, Counters()) == SomeLogicStep(old(Counters()), tick)
    {
      SomeLogicStepKeepsConsistent(Counters(), tick);
      queriesCount := queriesCount + 1;
      elapsedTime := elapsedTime + tick.duration;
      body := Logic(tick.date, tick.duration);
    }

    /** The health handler reports the totals and changes nothing. */
    method GetHealth() returns (body: Body)
      ensures body == HealthReport(Counters())
      ensures body.Totals? && body.queries == queriesCount && body.seconds == elapsedTime
    {
      body := Totals(queriesCount, elapsedTime);
    }

    method GetContent(code: nat, endpoint: string, tick: Tick) returns (body: Body)
      requires Valid()
      requires code == 404 || code == 405 || endpoint in ENDPOINTS
      modifies this
      ensures Valid()
      ensures (body, Counters()) == ContentStep(old(Counters()), code, endpoint, tick)
    {
      if code == 404 {
        body := PAGE_NOT_FOUND;
      } else if code == 405 {
        body := METHOD_NOT_ALLOWED;
      } else {
        match ENDPOINTS[endpoint]
        case SomeLogic =>
          body := GetSomeLogic(tick);
        case Health =>
          body := GetHealth();
      }
    }

    method GetResponse(request: string, tick: Tick) returns (r: Result<string>)
      requires Valid()
      modifies this
      ensures Valid()
      ensures ResponseStep(old(Counters()), request, tick)
           == if r.Ok? then Ok((r.value, Counters())) else Failure(r.error)
      ensures r.Failure? ==> Counters() == old(Counters())
    {
      var headers := GetRequestHeaders(request);
      if headers.Failure? {
        return Failure(headers.error);
      }
      var (verb, endpoint) := headers.value;
      var (line, code) := GetHeaders(verb, endpoint);
      var body := GetContent(code, endpoint, tick);
      r := Ok(line + Json(body));
    }

    /** The serve loop: answer each read in turn; on the first failure close
        the connection and stop. */
    method ServeClient(incoming: seq<Incoming>) returns (responses: seq<string>, closed: bool)
      requires Valid()
      modifies this
      ensures Valid()
      ensures Serve(old(Counters()), incoming) == Session(responses, Counters(), closed)
    {
      responses, closed := [], false;
      var i := 0;
      while i < |incoming|
        invariant 0 <= i <= |incoming|
        invariant Valid()
        invariant Serve(old(Counters()), incoming[..i]) == Session(responses, Counters(), false)
      {
        ServeSnoc(ResponseStep, old(Counters()), incoming, i);
        if incoming[i].ReadFailed? {
          closed := true;
          ServeStaysClosed(ResponseStep, old(Counters()), incoming, i + 1);
          return;
        }
        var r := GetResponse(incoming[i].text, incoming[i].tick);
        if r.Failure? {
          closed := true;
          ServeStaysClosed(ResponseStep, old(Counters()), incoming, i + 1);
          return;
        }
        responses := responses + [r.value];
        i := i + 1;
      }
      assert incoming[..i] == incoming;
    }
  }
}
