/** Properties of the request pipeline and of the serve loop, stated on the
    specification functions of module Server. */
module ServerProperties {
  import opened Text
  import opened Http
  import opened Server

  // ---------------------------------------------------------------------
  // Routing

  /** Any method but exactly GET is refused with 405 and the counters are
      left alone. */
  lemma RouteRefused(s: Stats, request: string, tick: Tick, verb: string, path: string)
    requires GetRequestHeaders(request) == Ok((verb, path)) && verb != "GET"
    ensures ResponseStep(s, request, tick)
         == Ok((StatusLine(405, "Method not allowed") + Json(METHOD_NOT_ALLOWED), s))
  {
    ResponseStepOf(s, request, tick, verb, path);
  }

  /** GET on a path outside the registry is answered with 404 and the
      counters are left alone. */
  lemma RouteUnknown(s: Stats, request: string, tick: Tick, path: string)
    requires GetRequestHeaders(request) == Ok(("GET", path)) && path !in ENDPOINTS
    ensures ResponseStep(s, request, tick)
         == Ok((StatusLine(404, "Not found") + Json(PAGE_NOT_FOUND), s))
  {
    ResponseStepOf(s, request, tick, "GET", path);
  }

  /** GET on `/health` reports the totals and leaves them as they are. */
  lemma RouteHealth(s: Stats, request: string, tick: Tick)
    requires GetRequestHeaders(request) == Ok(("GET", "/health"))
    ensures ResponseStep(s, request, tick)
         == Ok((StatusLine(200, "OK") + Json(Totals(s.queries, s.seconds)), s))
  {
    ResponseStepOf(s, request, tick, "GET", "/health");
    assert GetHeaders("GET", "/health").1 == 200;
  }

  /** GET on `/v1/api` reports the date and the duration drawn, and adds
      one query and that many seconds to the totals. */
  lemma RouteCompute(s: Stats, request: string, tick: Tick)
    requires GetRequestHeaders(request) == Ok(("GET", "/v1/api"))
    ensures ResponseStep(s, request, tick)
         == Ok((StatusLine(200, "OK") + Json(Logic(tick.date, tick.duration)),
                Stats(s.queries + 1, s.seconds + tick.duration)))
  {
    ResponseStepOf(s, request, tick, "GET", "/v1/api");
    assert GetHeaders("GET", "/v1/api").1 == 200;
    assert ContentStep(s, 200, "/v1/api", tick)
        == (Logic(tick.date, tick.duration), Stats(s.queries + 1, s.seconds + tick.duration));
  }

  /** Every response is the status line for the code the router returns,
      followed immediately by the JSON body that code calls for: the fixed
      error bodies for 404 and 405, a handler's body for 200. */
  lemma ResponseCarriesCode(s: Stats, request: string, tick: Tick)
    requires ResponseStep(s, request, tick).Ok?
    ensures GetRequestHeaders(request).Ok?
    ensures var (verb, path) := GetRequestHeaders(request).value;
      var code := GetHeaders(verb, path).1;
      (code == 200 || code == 404 || code == 405) &&
      exists line: string, body: Body ::
        CarriesCode(line, code) &&
        (code == 404 ==> body == PAGE_NOT_FOUND) &&
        (code == 405 ==> body == METHOD_NOT_ALLOWED) &&
        (code == 200 ==> body.Logic? || body.Totals?) &&
        ResponseStep(s, request, tick).value.0 == line + Json(body)
  {
    var (verb, path) := GetRequestHeaders(request).value;
    var (line, code) := GetHeaders(verb, path);
    GetHeadersCarriesCode(verb, path);
    ResponseStepOf(s, request, tick, verb, path);
    var body := ContentStep(s, code, path, tick).0;
    assert ResponseStep(s, request, tick).value.0 == line + Json(body);
  }

  // ---------------------------------------------------------------------
  // The serve loop

  /** Index of the first read that ends the session, or the number of reads
      when none does. */
  function FirstFailure(incoming: seq<Incoming>): (k: nat)
    ensures k <= |incoming|
    ensures forall i :: 0 <= i < k ==> !EndsSession(incoming[i])
    ensures k < |incoming| ==> EndsSession(incoming[k])
    decreases |incoming|
  {
    if incoming == [] || EndsSession(incoming[0]) then 0
    else 1 + FirstFailure(incoming[1..])
  }

  // The lemmas below hold for any responder that fails exactly on request
  // lines without a space (`FailsWithoutSpace`), which `ResponseStep` does
  // (`ResponseStepResponder`); for it, `ServeWith(ResponseStep, ...)` is
  // `Serve`.

  /** After the first `j` reads, a session is still open and has written
      one response per read as long as none of them ended it; otherwise it
      is closed and has written one response per read before the first one
      that did. */
  lemma {:induction false} ServePrefixShape(respond: Responder, s: Stats, incoming: seq<Incoming>, j: nat)
    requires FailsWithoutSpace(respond) && j <= |incoming|
    ensures var p := ServeWith(respond, s, incoming[..j]);
      var k := FirstFailure(incoming);
      (j <= k ==> !p.closed && |p.responses| == j) &&
      (j > k ==> p.closed && |p.responses| == k)
  {
    if j > 0 {
      var x := incoming[j - 1];
      ServePrefixShape(respond, s, incoming, j - 1);
      ServeSnoc(respond, s, incoming, j - 1);
      if x.Received? {
        var p := ServeWith(respond, s, incoming[..j - 1]);
        assert respond(p.stats, x.text, x.tick).Failure? <==> ' ' !in x.text;
      }
    }
  }

  /** The session writes one response for each read before the first one
      that ends it, and is closed exactly when such a read exists. */
  lemma ServeStopsAtFirstFailure(respond: Responder, s: Stats, incoming: seq<Incoming>)
    requires FailsWithoutSpace(respond)
    ensures |ServeWith(respond, s, incoming).responses| == FirstFailure(incoming)
    ensures ServeWith(respond, s, incoming).closed <==> FirstFailure(incoming) < |incoming|
  {
    ServePrefixShape(respond, s, incoming, |incoming|);
    assert incoming[..|incoming|] == incoming;
  }

  /** Reads after the one that ends the session are never looked at: the
      session is the one of the reads before it, then closed. */
  lemma ServeIgnoresAfterFailure(respond: Responder, s: Stats, incoming: seq<Incoming>)
    requires FailsWithoutSpace(respond) && FirstFailure(incoming) < |incoming|
    ensures var k := FirstFailure(incoming);
      var before := ServeWith(respond, s, incoming[..k]);
      ServeWith(respond, s, incoming) == Session(before.responses, before.stats, true)
  {
    var k := FirstFailure(incoming);
    var x := incoming[k];
    ServePrefixShape(respond, s, incoming, k);
    ServeSnoc(respond, s, incoming, k);
    if x.Received? {
      var p := ServeWith(respond, s, incoming[..k]);
      assert respond(p.stats, x.text, x.tick).Failure?;
    }
    ServeStaysClosed(respond, s, incoming, k + 1);
  }

  /** What the first `j` reads wrote is the start of what the whole session
      writes. */
  lemma {:induction false} ServeExtends(respond: Responder, s: Stats, incoming: seq<Incoming>, j: nat)
    requires j <= |incoming|
    ensures ServeWith(respond, s, incoming[..j]).responses <= ServeWith(respond, s, incoming).responses
    decreases |incoming|
  {
    if j == |incoming| {
      assert incoming[..j] == incoming;
    } else {
      var init := incoming[..|incoming| - 1];
      assert init[..j] == incoming[..j];
      ServeExtends(respond, s, init, j);
    }
  }

  /** Responses come in arrival order: response `i` is the answer to read
      `i`, computed from the counters the reads before it left behind. */
  lemma ServeInOrder(respond: Responder, s: Stats, incoming: seq<Incoming>, i: nat)
    requires FailsWithoutSpace(respond) && i < FirstFailure(incoming)
    ensures i < |ServeWith(respond, s, incoming).responses|
    ensures respond(ServeWith(respond, s, incoming[..i]).stats, incoming[i].text, incoming[i].tick)
         == Ok((ServeWith(respond, s, incoming).responses[i], ServeWith(respond, s, incoming[..i + 1]).stats))
  {
    var x := incoming[i];
    var p := ServeWith(respond, s, incoming[..i]);
    ServePrefixShape(respond, s, incoming, i);
    ServeSnoc(respond, s, incoming, i);
    assert respond(p.stats, x.text, x.tick).Ok?;
    ServeExtends(respond, s, incoming, i + 1);
  }

  /** A session keeps the counters consistent and never decreases them. */
  lemma {:induction false} ServeKeepsConsistent(respond: Responder, s: Stats, incoming: seq<Incoming>)
    requires KeepsConsistent(respond) && Consistent(s)
    ensures var s' := ServeWith(respond, s, incoming).stats;
      Consistent(s') && s.queries <= s'.queries && s.seconds <= s'.seconds
    decreases |incoming|
  {
    if incoming != [] {
      var p := ServeWith(respond, s, incoming[..|incoming| - 1]);
      var x := incoming[|incoming| - 1];
      ServeKeepsConsistent(respond, s, incoming[..|incoming| - 1]);
      if !p.closed && x.Received? && respond(p.stats, x.text, x.tick).Ok? {
        assert Consistent(p.stats);
      }
    }
  }

  /** The server's own session: one response per read before the first
      one that ends it, closed exactly when such a read exists, in arrival
      order, and with the counters kept consistent and never decreased. */
  lemma ServerSession(s: Stats, incoming: seq<Incoming>)
    requires Consistent(s)
    ensures var r := Serve(s, incoming);
      |r.responses| == FirstFailure(incoming) &&
      (r.closed <==> FirstFailure(incoming) < |incoming|) &&
      Consistent(r.stats) && s.queries <= r.stats.queries && s.seconds <= r.stats.seconds
    ensures forall i :: 0 <= i < FirstFailure(incoming) ==>
      ResponseStep(Serve(s, incoming[..i]).stats, incoming[i].text, incoming[i].tick)
        == Ok((Serve(s, incoming).responses[i], Serve(s, incoming[..i + 1]).stats))
  {
    ResponseStepResponder();
    ServeStopsAtFirstFailure(ResponseStep, s, incoming);
    ServeKeepsConsistent(ResponseStep, s, incoming);
    forall i | 0 <= i < FirstFailure(incoming)
      ensures ResponseStep(Serve(s, incoming[..i]).stats, incoming[i].text, incoming[i].tick)
        == Ok((Serve(s, incoming).responses[i], Serve(s, incoming[..i + 1]).stats))
    {
      ServeInOrder(ResponseStep, s, incoming, i);
    }
  }

  // ---------------------------------------------------------------------
  // Reachable counters

  /** The counters after a history of requests handled one at a time, from
      any mix of connections; a request that fails changes nothing. */
  function Replay(s: Stats, history: seq<(string, Tick)>): Stats
    decreases |history|
  {
    if history == [] then s
    else
      var (request, tick) := history[0];
      match ResponseStep(s, request, tick)
      case Failure(_) => Replay(s, history[1..])
      case Ok((_, s')) => Replay(s', history[1..])
  }

  /** Replaying a history keeps the counters consistent and never decreases
      them. */
  lemma {:induction false} ReplayKeepsConsistent(s: Stats, history: seq<(string, Tick)>)
    requires Consistent(s)
    ensures var s' := Replay(s, history);
      Consistent(s') && s.queries <= s'.queries && s.seconds <= s'.seconds
    decreases |history|
  {
    if history != [] {
      var (request, tick) := history[0];
      var r := ResponseStep(s, request, tick);
      if r.Ok? {
        ResponseStepKeepsConsistent(s, request, tick);
        ReplayKeepsConsistent(r.value.1, history[1..]);
      } else {
        ReplayKeepsConsistent(s, history[1..]);
      }
    }
  }

  /** Every state reachable from a fresh server satisfies
      queries <= seconds <= 5 * queries. */
  lemma Reachable(history: seq<(string, Tick)>)
    ensures Consistent(Replay(INITIAL, history))
  {
    ReplayKeepsConsistent(INITIAL, history);
  }

  // ---------------------------------------------------------------------
  // The two handlers over many requests

  /** The same request line sent once per tick. */
  function Repeated(request: string, ticks: seq<Tick>): (r: seq<Incoming>)
    ensures |r| == |ticks|
  {
    seq(|ticks|, i requires 0 <= i < |ticks| => Received(request, ticks[i]))
  }

  /** The sum of the sampled durations. */
  function TotalDuration(ticks: seq<Tick>): (n: nat)
    ensures |ticks| <= n <= 5 * |ticks|
  {
    if ticks == [] then 0
    else TotalDuration(ticks[..|ticks| - 1]) + ticks[|ticks| - 1].duration
  }

  /** A compute request: GET on `/v1/api`, whatever follows the path. */
  predicate IsComputeRequest(request: string)
  {
    GetRequestHeaders(request) == Ok(("GET", "/v1/api"))
  }

  /** A health request: GET on `/health`, whatever follows the path. */
  predicate IsHealthRequest(request: string)
  {
    GetRequestHeaders(request) == Ok(("GET", "/health"))
  }

  /** The plain request lines for the two endpoints are recognised. */
  lemma ComputeRequestLine()
    ensures IsComputeRequest("GET /v1/api")
  {
    assert "GET /v1/api" == "GET" + " " + "/v1/api";
    ParseMethodPath("GET", "/v1/api");
  }

  lemma HealthRequestLines()
    ensures IsHealthRequest("GET /health") && IsHealthRequest("GET /health HTTP/1.1")
  {
    assert "GET /health" == "GET" + " " + "/health";
    ParseMethodPath("GET", "/health");
    assert "GET /health HTTP/1.1" == "GET" + " " + "/health" + " " + "HTTP/1.1";
    ParseMethodPathRest("GET", "/health", "HTTP/1.1");
  }

  /** The responder answers `request` from any counters, adding one query
      and the duration drawn, as the compute handler does. */
  ghost predicate CountsAsCompute(respond: Responder, request: string)
  {
    forall st: Stats, t: Tick :: respond(st, request, t).Ok? &&
      respond(st, request, t).value.1 == Stats(st.queries + 1, st.seconds + t.duration)
  }

  /** The responder answers `request` with the totals, unchanged, as the
      health handler does. */
  ghost predicate AnswersHealth(respond: Responder, request: string)
  {
    forall st: Stats, t: Tick ::
      respond(st, request, t) == Ok((StatusLine(200, "OK") + Json(Totals(st.queries, st.seconds)), st))
  }

  lemma ComputeRequestCounts(request: string)
    requires IsComputeRequest(request)
    ensures CountsAsCompute(ResponseStep, request)
  {
    forall st: Stats, t: Tick
      ensures ResponseStep(st, request, t).Ok? &&
        ResponseStep(st, request, t).value.1 == Stats(st.queries + 1, st.seconds + t.duration)
    {
      RouteCompute(st, request, t);
    }
  }

  lemma HealthRequestAnswers(request: string)
    requires IsHealthRequest(request)
    ensures AnswersHealth(ResponseStep, request)
  {
    forall st: Stats, t: Tick
      ensures ResponseStep(st, request, t)
           == Ok((StatusLine(200, "OK") + Json(Totals(st.queries, st.seconds)), st))
    {
      RouteHealth(st, request, t);
    }
  }

  /** After K compute requests the query count has grown by K and the
      seconds by the sum of the K sampled durations. */
  lemma {:induction false} ComputeTotals(respond: Responder, s: Stats, request: string, ticks: seq<Tick>)
    requires CountsAsCompute(respond, request)
    ensures var r := ServeWith(respond, s, Repeated(request, ticks));
      !r.closed && |r.responses| == |ticks| &&
      r.stats == Stats(s.queries + |ticks|, s.seconds + TotalDuration(ticks))
    decreases |ticks|
  {
    if ticks != [] {
      var n := |ticks| - 1;
      var xs := Repeated(request, ticks);
      assert xs[..n] == Repeated(request, ticks[..n]);
      ComputeTotals(respond, s, request, ticks[..n]);
      var p := ServeWith(respond, s, xs[..n]);
      assert respond(p.stats, request, ticks[n]).Ok?;
      assert xs[n] == Received(request, ticks[n]);
      assert xs[..n + 1] == xs;
      ServeSnoc(respond, s, xs, n);
    }
  }

  /** The responder leaves the counters alone on every request that is not
      a compute request. */
  ghost predicate OnlyComputeCounts(respond: Responder)
  {
    forall st: Stats, request: string, t: Tick ::
      !IsComputeRequest(request) && respond(st, request, t).Ok? ==>
        respond(st, request, t).value.1 == st
  }

  /** Only the compute handler changes the counters: refused, unknown and
      health requests leave them as they were. */
  lemma ResponseStepOnlyComputeCounts()
    ensures OnlyComputeCounts(ResponseStep)
  {
    forall st: Stats, request: string, t: Tick
      | !IsComputeRequest(request) && ResponseStep(st, request, t).Ok?
      ensures ResponseStep(st, request, t).value.1 == st
    {
      var (verb, path) := GetRequestHeaders(request).value;
      ResponseStepOf(st, request, t, verb, path);
    }
  }

  /** Reads none of which is a compute request leave the counters as they
      were, however the session ends. */
  lemma {:induction false} NonComputeKeepsCounters(respond: Responder, s: Stats, incoming: seq<Incoming>)
    requires OnlyComputeCounts(respond)
    requires forall i :: 0 <= i < |incoming| && incoming[i].Received? ==> !IsComputeRequest(incoming[i].text)
    ensures ServeWith(respond, s, incoming).stats == s
    decreases |incoming|
  {
    if incoming != [] {
      var n := |incoming| - 1;
      var init := incoming[..n];
      assert forall i :: 0 <= i < n ==> init[i] == incoming[i];
      NonComputeKeepsCounters(respond, s, init);
      var x := incoming[n];
      if x.Received? {
        assert !IsComputeRequest(x.text);
      }
    }
  }

  /** Health requests with no compute request between them, whatever other
      requests come between, all get the same response and leave the
      counters as they were. */
  lemma HealthIdempotent(respond: Responder, s: Stats, incoming: seq<Incoming>)
    requires FailsWithoutSpace(respond) && OnlyComputeCounts(respond)
    requires forall i :: 0 <= i < |incoming| && incoming[i].Received? ==> !IsComputeRequest(incoming[i].text)
    ensures ServeWith(respond, s, incoming).stats == s
    ensures forall i ::
      (0 <= i < FirstFailure(incoming) && incoming[i].Received? &&
       AnswersHealth(respond, incoming[i].text)) ==>
        i < |ServeWith(respond, s, incoming).responses| &&
        ServeWith(respond, s, incoming).responses[i] == StatusLine(200, "OK") + Json(Totals(s.queries, s.seconds))
  {
    NonComputeKeepsCounters(respond, s, incoming);
    forall i | 0 <= i < FirstFailure(incoming) && incoming[i].Received? && AnswersHealth(respond, incoming[i].text)
      ensures i < |ServeWith(respond, s, incoming).responses| &&
        ServeWith(respond, s, incoming).responses[i] == StatusLine(200, "OK") + Json(Totals(s.queries, s.seconds))
    {
      ServeInOrder(respond, s, incoming, i);
      var prefix := incoming[..i];
      assert forall j :: 0 <= j < i ==> prefix[j] == incoming[j];
      NonComputeKeepsCounters(respond, s, prefix);
      assert respond(s, incoming[i].text, incoming[i].tick)
          == Ok((StatusLine(200, "OK") + Json(Totals(s.queries, s.seconds)), s));
    }
  }

  /** The server itself: between compute requests, every health request is
      answered with the same totals and the counters stay where they were. */
  lemma ServerHealthIdempotent(s: Stats, incoming: seq<Incoming>)
    requires forall i :: 0 <= i < |incoming| && incoming[i].Received? ==> !IsComputeRequest(incoming[i].text)
    ensures Serve(s, incoming).stats == s
    ensures forall i ::
      (0 <= i < FirstFailure(incoming) && incoming[i].Received? &&
       IsHealthRequest(incoming[i].text)) ==>
        i < |Serve(s, incoming).responses| &&
        Serve(s, incoming).responses[i] == StatusLine(200, "OK") + Json(Totals(s.queries, s.seconds))
  {
    ResponseStepResponder();
    ResponseStepOnlyComputeCounts();
    HealthIdempotent(ResponseStep, s, incoming);
    forall i | 0 <= i < FirstFailure(incoming) && incoming[i].Received? && IsHealthRequest(incoming[i].text)
      ensures AnswersHealth(ResponseStep, incoming[i].text)
    {
      HealthRequestAnswers(incoming[i].text);
    }
  }

  /** The server itself: compute requests add up as above. */
  lemma ServerComputeTotals(s: Stats, request: string, ticks: seq<Tick>)
    requires IsComputeRequest(request)
    ensures var r := Serve(s, Repeated(request, ticks));
      !r.closed && |r.responses| == |ticks| &&
      r.stats == Stats(s.queries + |ticks|, s.seconds + TotalDuration(ticks))
  {
    ComputeRequestCounts(request);
    ComputeTotals(ResponseStep, s, request, ticks);
  }

  /** The health response tells the totals apart: two servers that answer a
      health request alike have the same counters. */
  lemma HealthRevealsTotals(s1: Stats, s2: Stats, request: string, t1: Tick, t2: Tick)
    requires IsHealthRequest(request)
    requires ResponseStep(s1, request, t1) == ResponseStep(s2, request, t2)
    ensures s1 == s2
  {
    RouteHealth(s1, request, t1);
    RouteHealth(s2, request, t2);
    var line := StatusLine(200, "OK");
    assert Json(Totals(s1.queries, s1.seconds)) == (line + Json(Totals(s1.queries, s1.seconds)))[|line|..];
    assert Json(Totals(s2.queries, s2.seconds)) == (line + Json(Totals(s2.queries, s2.seconds)))[|line|..];
    TotalsJsonInjective(s1.queries, s1.seconds, s2.queries, s2.seconds);
  }

  /** Any method but GET is refused with 405 whatever the path, and the
      counters are left alone. */
  lemma NonGetRefused(s: Stats, verb: string, path: string, rest: string, tick: Tick)
    requires ' ' !in verb && ' ' !in path && verb != "GET"
    ensures ResponseStep(s, verb + " " + path + " " + rest, tick)
         == Ok((StatusLine(405, "Method not allowed") + Json(METHOD_NOT_ALLOWED), s))
  {
    ParseMethodPathRest(verb, path, rest);
  }

  /** A fresh server answers a health request with zero totals, for
      instance "GET /health HTTP/1.1" (see `HealthRequestLines`). */
  lemma FreshHealth(request: string, tick: Tick)
    requires IsHealthRequest(request)
    ensures ResponseStep(INITIAL, request, tick)
         == Ok(("HTTP/1.1 200 OK\n\n" + ("{\"total\": {\"queries\": " + "0" + ", \"seconds\": " + "0" + "}}"), INITIAL))
  {
    RouteHealth(INITIAL, request, tick);
    StatusLine200Text();
    ZeroTotalsText();
  }
}
