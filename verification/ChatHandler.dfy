/** One chat request, from its claims to its response, over every outcome of what it
    depends on: the limiter, the body, the route table and the provider. */
module ChatHandler {
  import opened Wrappers
  import opened TokenCount
  import opened ChatRedaction
  import R = Redaction
  import L = RateLimiter
  import C = CoreClient
  import S = StreamForward
  import E = EventStream
  import Relaying = StreamRelay
  import Digits

  // ---------- Outcomes of what the handler depends on ----------

  datatype Claims = Claims(subject: string, tier: string, bucket: string)

  datatype ChatRequest = ChatRequest(model: string, messages: seq<Message>, stream: bool)

  /** A provider's whole answer: its own token counts, and the text of its choices. */
  datatype Completion = Completion(promptTokens: int, completionTokens: int, choices: seq<string>)

  datatype Buffered = Answered(completion: Completion) | Failed(message: string)

  datatype Streaming = NoResponse(message: string) | Responded(status: nat, body: string)

  /** The libraries: JSON in both directions and the wording of errors. */
  datatype Library = Library(marshal: Marshal, decode: S.Decoder, codec: S.Codec, render: Response -> string)

  datatype Env = Env(
    claims: Option<Claims>,
    limit: L.Outcome,
    body: Option<ChatRequest>,
    route: string -> C.RouteAnswer,
    buffered: Buffered,
    streaming: Streaming,
    flusher: bool,
    traceId: string,
    stamps: nat -> nat)

  // ---------- What a request does ----------

  /** What an error says beside its code and message. */
  datatype Details =
    | NoDetails
    | RetryAfterSeconds(seconds: nat)
    | RequiredFields
    | ModelDetails(model: string)
    | TierDetails(model: string, tier: string, tierMin: string)
    | ProviderDetails(providerType: string)

  /** The content of an error's body, or the provider's answer. */
  datatype Response = Problem(code: string, message: string, details: Details) | Answer(completion: Completion)

  const UNAUTHORIZED := Problem("unauthorized", "Valid Bearer token required.", NoDetails)
  const RATE_LIMIT_UNAVAILABLE := Problem("rate_limit_unavailable", "Rate limiting service is temporarily unavailable.", NoDetails)
  const BAD_JSON := Problem("invalid_request", "Request body must be valid JSON.", NoDetails)
  const MISSING_FIELDS := Problem("invalid_request", "Fields 'model' and 'messages' are required.", RequiredFields)
  const ROUTING_UNAVAILABLE := Problem("routing_unavailable",
    "AI routing configuration is unavailable. Admin must configure providers in Core.", NoDetails)
  const PROVIDER_UNAVAILABLE := Problem("provider_unavailable", "Upstream AI provider is unavailable.", NoDetails)
  const PROVIDER_TIMEOUT := Problem("provider_timeout", "Upstream AI provider timed out.", NoDetails)

  function RateLimitExceeded(seconds: nat): Response {
    Problem("rate_limit_exceeded", "Rate limit exceeded for your subscription tier.", RetryAfterSeconds(seconds))
  }

  function ModelNotAvailable(model: string): Response {
    Problem("model_not_available", "Requested model is not configured or not enabled for Proxy Mode.", ModelDetails(model))
  }

  function ModelTierDenied(model: string, tier: string, tierMin: string): Response {
    Problem("model_tier_denied", "Your subscription tier does not include this model.", TierDetails(model, tier, tierMin))
  }

  function StreamingNotSupported(providerType: string): Response {
    Problem("streaming_not_supported", "Streaming is not supported for this provider.", ProviderDetails(providerType))
  }

  datatype Usage = Usage(inputTokens: int, outputTokens: int, status: string, errorCode: string, redacted: nat, categories: seq<string>)

  datatype Action =
    | CheckedLimit
    | ReadBody
    | Resolved(model: string)
    | CalledProvider(entry: C.RouteEntry, messages: seq<Message>, stream: bool)
    | Committed(status: nat)
    | LaunchedIngest(usage: Usage)

  /** The response writer together with a log of everything that left the handler.
      Writing before a status was committed commits 200. */
  class Exchange {
    const sink: S.Sink
    const sized: bool
    var headers: map<string, string>
    var log: seq<Action>

    constructor (sink: S.Sink, sized: bool)
      ensures this.sink == sink && this.sized == sized && headers == map[] && log == []
    {
      this.sink, this.sized, headers, log := sink, sized, map[], [];
    }

    predicate Valid()
      reads this, sink
    {
      sink.Valid()
    }

    method Note(a: Action)
      modifies this`log
      ensures log == old(log) + [a]
    {
      log := log + [a];
    }

    method SetHeader(name: string, value: string)
      modifies this`headers
      ensures headers == old(headers)[name := value]
    {
      headers := headers[name := value];
    }

    method WriteHeader(status: nat)
      modifies this`log
      ensures log == old(log) + [Committed(status)]
    {
      log := log + [Committed(status)];
    }

    method Write(body: string)
      requires Valid()
      modifies this`log, sink
      ensures Valid() && sink.body == S.Clip(sink.capacity, old(sink.body) + body)
      ensures log == old(log) + if exists i :: 0 <= i < |old(log)| && old(log)[i].Committed? then [] else [Committed(200)]
    {
      if forall i :: 0 <= i < |log| ==> !log[i].Committed? {
        log := log + [Committed(200)];
      }
      var _ := sink.Write(body);
    }
  }

  // ---------- Errors ----------

  predicate At(s: string, part: string, i: nat) {
    i + |part| <= |s| && s[i..i + |part|] == part
  }

  predicate Contains(s: string, part: string) {
    exists i | 0 <= i <= |s| :: At(s, part, i)
  }

  predicate TimedOut(message: string) {
    Contains(message, "504") || Contains(message, "timeout")
  }

  function MapProviderError(message: string): string {
    if TimedOut(message) then "provider_timeout" else "provider_unavailable"
  }

  const UNSUPPORTED := "not supported for gemini"
  const GEMINI := "streaming " + UNSUPPORTED

  /** The response to a call of the provider that failed. */
  function ProviderProblem(message: string): (nat, Response) {
    if TimedOut(message) then (504, PROVIDER_TIMEOUT) else (502, PROVIDER_UNAVAILABLE)
  }

  /** The response to a stream that failed. */
  function StreamProblem(message: string, providerType: string): (nat, Response) {
    if Contains(message, UNSUPPORTED) then (501, StreamingNotSupported(providerType)) else ProviderProblem(message)
  }

  function ProviderHttpError(status: nat): string {
    (if status == 429 || status == 503 then "provider retryable " else "provider error ") + Digits.Decimal(status)
  }

  // ---------- Tiers ----------

  function TierRank(tier: string): nat {
    if tier == "trial" then 1 else if tier == "pro" then 2 else if tier == "power" then 3 else 0
  }

  predicate TierAllows(user: string, min: string) {
    TierRank(user) >= TierRank(min)
  }

  // ---------- The gates ----------

  const SECOND: nat := 1_000_000_000

  /** Where a request stops before the provider: the status and the body. */
  function Refusal(env: Env): Option<(nat, Response)> {
    if env.claims.None? then Some((401, UNAUTHORIZED))
    else
      match env.limit
      case Rejected(LimitExceeded(retryAfter)) => Some((429, RateLimitExceeded(retryAfter / SECOND)))
      case Rejected(_) => Some((503, RATE_LIMIT_UNAVAILABLE))
      case Admitted(_) =>
        match env.body
        case None => Some((400, BAD_JSON))
        case Some(req) =>
          if req.model == "" || req.messages == [] then Some((400, MISSING_FIELDS))
          else
            match env.route(req.model)
            case RoutingEmpty => Some((503, ROUTING_UNAVAILABLE))
            case RoutingUnavailable => Some((503, ROUTING_UNAVAILABLE))
            case ModelNotFound => Some((404, ModelNotAvailable(req.model)))
            case Route(entry) =>
              if TierAllows(env.claims.value.tier, entry.tierMin) then None
              else Some((403, ModelTierDenied(req.model, env.claims.value.tier, entry.tierMin)))
  }

  /** Claims, limiter and body are in order: the request is redacted. */
  predicate WellFormed(env: Env) {
    && env.claims.Some?
    && env.limit.Admitted?
    && env.body.Some? && env.body.value.model != "" && env.body.value.messages != []
  }

  /** What was asked of the limiter, the body and the route table on the way. */
  function Steps(env: Env): seq<Action> {
    if env.claims.None? then []
    else if env.limit.Rejected? then [CheckedLimit]
    else if env.body.None? || env.body.value.model == "" || env.body.value.messages == [] then [CheckedLimit, ReadBody]
    else [CheckedLimit, ReadBody, Resolved(env.body.value.model)]
  }

  function Entry(env: Env): C.RouteEntry
    requires Refusal(env).None?
  {
    env.route(env.body.value.model).entry
  }

  // ---------- The provider ----------

  /** Why a stream fails; no stream fails once it has begun. */
  function StreamError(env: Env, entry: C.RouteEntry): Option<string> {
    if entry.providerType == "gemini" then Some(GEMINI)
    else
      match env.streaming
      case NoResponse(message) => Some(message)
      case Responded(status, _) =>
        if status >= 300 then Some(ProviderHttpError(status))
        else if !env.flusher then Some("streaming unsupported")
        else None
  }

  /** What the client is sent of a stream that began. */
  function StreamBody(env: Env, lib: Library, entry: C.RouteEntry): string
    requires env.streaming.Responded?
  {
    if entry.providerType == "anthropic" then
      S.Translation(lib.codec, S.Chunks(env.traceId, entry.externalId, env.stamps,
        S.DeltaTexts(lib.codec, E.ScanLines(env.streaming.body))))
    else Relaying.Relay(env.streaming.body)
  }

  /** The tokens counted for a stream that began: those of what the client took. */
  ghost predicate StreamTokens(env: Env, lib: Library, entry: C.RouteEntry, capacity: Option<nat>, outTok: nat)
    requires env.streaming.Responded?
  {
    var lines := E.ScanLines(env.streaming.body);
    if entry.providerType == "anthropic" then
      var texts := S.DeltaTexts(lib.codec, lines);
      exists n: nat ::
        S.Attempted(capacity, lib.codec, env.traceId, entry.externalId, env.stamps, texts, n) && outTok == S.AtLeastOne(Quarters(texts[..n]))
    else outTok == S.AtLeastOne(Quarters(S.StreamTexts(lib.decode, lines[..S.LinesSent(capacity, lines)])))
  }

  function Estimate(msgs: seq<Message>): nat {
    if Quarters(Texts(msgs)) < 1 then 1 else Quarters(Texts(msgs))
  }

  datatype StreamResult = StreamResult(inputTokens: nat, outputTokens: nat, error: Option<string>)

  class Router {
    constructor () { }

    /** Either the stream fails with nothing committed and nothing written, or 200 is
        committed and the stream's body is sent, as far as the client takes it. */
    method ForwardStream(env: Env, lib: Library, entry: C.RouteEntry, messages: seq<Message>, w: Exchange) returns (r: StreamResult)
      requires w.Valid() && w.sink.body == ""
      modifies w, w.sink
      ensures w.Valid() && r.error == StreamError(env, entry)
      ensures r.error.Some? ==>
        w.log == old(w.log) && w.headers == old(w.headers) && w.sink.body == "" && r.inputTokens == 0 && r.outputTokens == 0
      ensures r.error.None? ==>
        && w.log == old(w.log) + [Committed(200)]
        && w.headers == old(w.headers)["Content-Type" := "text/event-stream"]["Cache-Control" := "no-cache"]["Connection" := "keep-alive"]
        && w.sink.body == S.Clip(w.sink.capacity, StreamBody(env, lib, entry))
        && r.inputTokens == Estimate(messages) && StreamTokens(env, lib, entry, w.sink.capacity, r.outputTokens)
    {
      if entry.providerType == "gemini" {
        return StreamResult(0, 0, Some(GEMINI));
      }
      match env.streaming
      case NoResponse(message) =>
        return StreamResult(0, 0, Some(message));
      case Responded(status, body) =>
        if status >= 300 {
          return StreamResult(0, 0, Some(ProviderHttpError(status)));
        }
        if !env.flusher {
          return StreamResult(0, 0, Some("streaming unsupported"));
        }
        w.SetHeader("Content-Type", "text/event-stream");
        w.SetHeader("Cache-Control", "no-cache");
        w.SetHeader("Connection", "keep-alive");
        w.WriteHeader(200);
        var outTok;
        if entry.providerType == "anthropic" {
          outTok := S.ForwardAnthropicStream(body, lib.codec, env.traceId, entry.externalId, env.stamps, w.sink);
        } else {
          outTok := S.ForwardOpenAIStream(body, lib.decode, w.sink);
        }
        var inTok := EstimateTokens(messages);
        return StreamResult(inTok, outTok, None);
    }

    /** The provider's counts, or estimates where it gives none. */
    method Forward(env: Env, messages: seq<Message>) returns (inTok: int, outTok: int, error: Option<string>)
      ensures error == if env.buffered.Failed? then Some(env.buffered.message) else None
      ensures (inTok, outTok) == BufferedTokens(env, messages)
    {
      match env.buffered
      case Failed(message) => return 0, 0, Some(message);
      case Answered(c) =>
        inTok, outTok, error := c.promptTokens, c.completionTokens, None;
        if inTok == 0 {
          inTok := EstimateTokens(messages);
        }
        if outTok == 0 && |c.choices| > 0 {
          outTok := |c.choices[0]| / 4;
        }
    }
  }

  function BufferedTokens(env: Env, messages: seq<Message>): (int, int) {
    match env.buffered
    case Failed(_) => (0, 0)
    case Answered(c) =>
      (if c.promptTokens == 0 then Estimate(messages) else c.promptTokens,
       if c.completionTokens == 0 && c.choices != [] then |c.choices[0]| / 4 else c.completionTokens)
  }

  // ---------- The whole request ----------

  /** The actions after the gates, for the messages as redacted and the usage reported. */
  function ProviderSteps(env: Env, entry: C.RouteEntry, messages: seq<Message>, usage: Usage): seq<Action>
    requires env.body.Some?
  {
    var call := CalledProvider(entry, messages, env.body.value.stream);
    if env.body.value.stream then
      var error := StreamError(env, entry);
      [call, Committed(if error.Some? then StreamProblem(error.value, entry.providerType).0 else 200), LaunchedIngest(usage)]
    else if env.buffered.Failed? then
      [call, Committed(ProviderProblem(env.buffered.message).0), LaunchedIngest(usage)]
    else
      [call, LaunchedIngest(usage), Committed(200)]
  }

  function Story(env: Env, messages: seq<Message>, usage: Usage): seq<Action> {
    if Refusal(env).Some? then Steps(env) + [Committed(Refusal(env).value.0)]
    else Steps(env) + ProviderSteps(env, Entry(env), messages, usage)
  }

  /** The body of the response. */
  function Sent(env: Env, lib: Library): string {
    if Refusal(env).Some? then lib.render(Refusal(env).value.1)
    else if env.body.value.stream then
      var error := StreamError(env, Entry(env));
      if error.Some? then lib.render(StreamProblem(error.value, Entry(env).providerType).1) else StreamBody(env, lib, Entry(env))
    else
      match env.buffered
      case Failed(message) => lib.render(ProviderProblem(message).1)
      case Answered(completion) => lib.render(Answer(completion))
  }

  /** Why the call of the provider failed, if it did. */
  function ProviderError(env: Env): Option<string>
    requires Refusal(env).None?
  {
    if env.body.value.stream then StreamError(env, Entry(env))
    else if env.buffered.Failed? then Some(env.buffered.message) else None
  }

  /** What is reported to the Hub agrees with what happened. */
  ghost predicate UsageOk(env: Env, lib: Library, capacity: Option<nat>, messages: seq<Message>, usage: Usage)
    requires Refusal(env).None?
  {
    var error := ProviderError(env);
    && usage.status == (if error.Some? then "error" else "ok")
    && usage.errorCode == (if error.Some? then MapProviderError(error.value) else "")
    && if !env.body.value.stream then (usage.inputTokens, usage.outputTokens) == BufferedTokens(env, messages)
       else if error.Some? then usage.inputTokens == 0 && usage.outputTokens == 0
       else usage.inputTokens == Estimate(messages) && usage.outputTokens >= 0
            && StreamTokens(env, lib, Entry(env), capacity, usage.outputTokens)
  }

  /** What a finished stream reports about itself. */
  ghost predicate StreamOk(env: Env, lib: Library, entry: C.RouteEntry, capacity: Option<nat>, messages: seq<Message>, r: StreamResult) {
    && r.error == StreamError(env, entry)
    && (r.error.Some? ==> r.inputTokens == 0 && r.outputTokens == 0)
    && (r.error.None? ==> r.inputTokens == Estimate(messages) && env.streaming.Responded? && StreamTokens(env, lib, entry, capacity, r.outputTokens))
  }

  lemma StreamUsageOk(env: Env, lib: Library, entry: C.RouteEntry, capacity: Option<nat>, messages: seq<Message>, r: StreamResult, usage: Usage)
    requires Refusal(env).None? && entry == Entry(env) && env.body.value.stream && StreamOk(env, lib, entry, capacity, messages, r)
    requires usage.inputTokens == r.inputTokens && usage.outputTokens == r.outputTokens
    requires usage.status == (if r.error.Some? then "error" else "ok")
    requires usage.errorCode == (if r.error.Some? then MapProviderError(r.error.value) else "")
    ensures UsageOk(env, lib, capacity, messages, usage)
  {
  }

  /** The log of a request, and what was redacted and reported on the way. */
  ghost predicate Told(env: Env, lib: Library, capacity: Option<nat>, redactor: R.Engine?, log: seq<Action>, messages: seq<Message>, usage: Usage)
    requires redactor != null ==> R.RulesOk(redactor.rules)
  {
    && log == Story(env, messages, usage)
    && (WellFormed(env) ==> RedactedTo(redactor, lib.marshal, env.body.value.messages, messages, usage.redacted, usage.categories))
    && (Refusal(env).None? ==> UsageOk(env, lib, capacity, messages, usage))
  }

  predicate NothingCommitted(log: seq<Action>) {
    forall i | 0 <= i < |log| :: !log[i].Committed?
  }

  /** A Go duration is a 64-bit integer. */
  predicate DurationOk(limit: L.Outcome) {
    limit.Rejected? && limit.error.LimitExceeded? ==> limit.error.retryAfter < Digits.TWO_63
  }

  /** Seconds from Go's zero time to 1970. */
  const UNIX_EPOCH: nat := 62_135_596_800

  /** Retry-After holds whole seconds, and is left out when there is not even one. */
  predicate LimitHeadersOk(env: Env, headers: map<string, string>) {
    && ("Retry-After" in headers <==>
          env.claims.Some? && env.limit.Rejected? && env.limit.error.LimitExceeded? && env.limit.error.retryAfter >= SECOND)
    && ("Retry-After" in headers ==> headers["Retry-After"] == Digits.Decimal(env.limit.error.retryAfter / SECOND))
    && ("X-RateLimit-Limit" in headers <==> env.claims.Some? && env.limit.Admitted?)
    && (env.claims.Some? && env.limit.Admitted? ==>
          && headers["X-RateLimit-Limit"] == Digits.Decimal(env.limit.result.limit)
          && "X-RateLimit-Remaining" in headers && headers["X-RateLimit-Remaining"] == Digits.Decimal(env.limit.result.remaining)
          && "X-RateLimit-Reset" in headers && headers["X-RateLimit-Reset"] == Digits.Signed(env.limit.result.reset / SECOND - UNIX_EPOCH))
  }

  /** Headers that the rest of the request adds leave the limiter's alone. */
  predicate SameLimitHeaders(a: map<string, string>, b: map<string, string>) {
    forall name | name in {"Retry-After", "X-RateLimit-Limit", "X-RateLimit-Remaining", "X-RateLimit-Reset"} ::
      (name in a <==> name in b) && (name in a ==> a[name] == b[name])
  }

  /** The same for all headers set so far. */
  predicate HeadersKept(a: map<string, string>, b: map<string, string>) {
    && SameLimitHeaders(a, b)
    && ("X-Redaction-Count" in a <==> "X-Redaction-Count" in b)
    && ("X-Redaction-Count" in a ==> a["X-Redaction-Count"] == b["X-Redaction-Count"])
  }

  predicate CountHeaderOk(headers: map<string, string>, count: nat) {
    && ("X-Redaction-Count" in headers <==> count > 0)
    && (count > 0 ==> headers["X-Redaction-Count"] == Digits.Decimal(count))
  }

  class Chat {
    const router: Router
    const redactor: R.Engine?

    constructor (router: Router, redactor: R.Engine?)
      ensures this.router == router && this.redactor == redactor
    {
      this.router, this.redactor := router, redactor;
    }

    method WriteProblem(lib: Library, w: Exchange, status: nat, problem: Response)
      requires w.Valid() && w.sink.body == ""
      modifies w, w.sink
      ensures w.Valid() && w.log == old(w.log) + [Committed(status)]
      ensures w.headers == old(w.headers)["Content-Type" := "application/json"]
      ensures w.sink.body == S.Clip(w.sink.capacity, lib.render(problem))
    {
      w.SetHeader("Content-Type", "application/json");
      w.WriteHeader(status);
      assert w.log[|w.log| - 1].Committed?;
      assert "" + lib.render(problem) == lib.render(problem);
      w.Write(lib.render(problem));
    }

    method WriteProviderError(lib: Library, w: Exchange, message: string)
      requires w.Valid() && w.sink.body == ""
      modifies w, w.sink
      ensures w.Valid() && w.log == old(w.log) + [Committed(ProviderProblem(message).0)]
      ensures w.headers == old(w.headers)["Content-Type" := "application/json"]
      ensures w.sink.body == S.Clip(w.sink.capacity, lib.render(ProviderProblem(message).1))
    {
      if TimedOut(message) {
        WriteProblem(lib, w, 504, PROVIDER_TIMEOUT);
        return;
      }
      WriteProblem(lib, w, 502, PROVIDER_UNAVAILABLE);
    }

    /** The writer's own account of whether anything was written. */
    method HeadersSent(w: Exchange) returns (sent: bool)
      ensures sent <==> w.sized && w.sink.body != ""
    {
      return w.sized && |w.sink.body| > 0;
    }

    method HandleBuffered(env: Env, lib: Library, entry: C.RouteEntry, messages: seq<Message>, count: nat, categories: seq<string>, w: Exchange)
        returns (ghost usage: Usage)
      requires Refusal(env).None? && entry == Entry(env) && !env.body.value.stream
      requires w.Valid() && w.sink.body == "" && NothingCommitted(w.log)
      modifies w, w.sink
      ensures w.Valid() && w.log == old(w.log) + ProviderSteps(env, entry, messages, usage)
      ensures w.sink.body == S.Clip(w.sink.capacity, Sent(env, lib))
      ensures w.headers == old(w.headers)["Content-Type" := "application/json"]
      ensures UsageOk(env, lib, w.sink.capacity, messages, usage) && usage.redacted == count && usage.categories == categories
    {
      w.Note(CalledProvider(entry, messages, false));
      var inTok, outTok, error := router.Forward(env, messages);
      match error
      case Some(message) =>
        var u := Usage(inTok, outTok, "error", MapProviderError(message), count, categories);
        usage := u;
        WriteProviderError(lib, w, message);
        w.Note(LaunchedIngest(u));
      case None =>
        var u := Usage(inTok, outTok, "ok", "", count, categories);
        usage := u;
        w.Note(LaunchedIngest(u));
        w.SetHeader("Content-Type", "application/json");
        assert "" + lib.render(Answer(env.buffered.completion)) == lib.render(Answer(env.buffered.completion));
        w.Write(lib.render(Answer(env.buffered.completion)));
    }

    method WriteStreamError(lib: Library, w: Exchange, message: string, providerType: string)
      requires w.Valid() && w.sink.body == ""
      modifies w, w.sink
      ensures w.Valid() && w.log == old(w.log) + [Committed(StreamProblem(message, providerType).0)]
      ensures w.headers == old(w.headers)["Content-Type" := "application/json"]
      ensures w.sink.body == S.Clip(w.sink.capacity, lib.render(StreamProblem(message, providerType).1))
    {
      if Contains(message, UNSUPPORTED) {
        WriteProblem(lib, w, 501, StreamingNotSupported(providerType));
      } else {
        WriteProviderError(lib, w, message);
      }
    }

    /** The stream, or the response to its failure: nothing had been written yet, so the
        failure is always answered. */
    method SendStream(env: Env, lib: Library, entry: C.RouteEntry, messages: seq<Message>, w: Exchange) returns (r: StreamResult)
      requires Refusal(env).None? && entry == Entry(env) && env.body.value.stream
      requires w.Valid() && w.sink.body == ""
      modifies w, w.sink
      ensures w.Valid() && StreamOk(env, lib, entry, w.sink.capacity, messages, r)
      ensures w.log == old(w.log) + [Committed(if r.error.Some? then StreamProblem(r.error.value, entry.providerType).0 else 200)]
      ensures w.sink.body == S.Clip(w.sink.capacity, Sent(env, lib))
      ensures HeadersKept(old(w.headers), w.headers)
    {
      r := router.ForwardStream(env, lib, entry, messages, w);
      if r.error.Some? {
        var sent := HeadersSent(w);
        if !sent {
          WriteStreamError(lib, w, r.error.value, entry.providerType);
        }
      }
    }

    method HandleStream(env: Env, lib: Library, entry: C.RouteEntry, messages: seq<Message>, count: nat, categories: seq<string>, w: Exchange)
        returns (ghost usage: Usage)
      requires Refusal(env).None? && entry == Entry(env) && env.body.value.stream
      requires w.Valid() && w.sink.body == "" && NothingCommitted(w.log)
      modifies w, w.sink
      ensures w.Valid() && w.log == old(w.log) + ProviderSteps(env, entry, messages, usage)
      ensures w.sink.body == S.Clip(w.sink.capacity, Sent(env, lib))
      ensures HeadersKept(old(w.headers), w.headers)
      ensures UsageOk(env, lib, w.sink.capacity, messages, usage) && usage.redacted == count && usage.categories == categories
    {
      w.Note(CalledProvider(entry, messages, true));
      var r := SendStream(env, lib, entry, messages, w);
      var status, errorCode := "ok", "";
      if r.error.Some? {
        status, errorCode := "error", MapProviderError(r.error.value);
      }
      var u := Usage(r.inputTokens, r.outputTokens, status, errorCode, count, categories);
      usage := u;
      StreamUsageOk(env, lib, entry, w.sink.capacity, messages, r, u);
      w.Note(LaunchedIngest(u));
    }

    /** The limiter's gate: its headers, or the refusal. */
    method Admit(env: Env, lib: Library, w: Exchange) returns (ok: bool)
      requires env.claims.Some? && DurationOk(env.limit)
      requires w.Valid() && w.sink.body == "" && w.log == [] && w.headers == map[]
      modifies w, w.sink
      ensures w.Valid() && LimitHeadersOk(env, w.headers) && "X-Redaction-Count" !in w.headers
      ensures ok <==> env.limit.Admitted?
      ensures ok ==> w.log == [CheckedLimit] && w.sink.body == ""
      ensures !ok ==> Refusal(env).Some? && w.log == [CheckedLimit, Committed(Refusal(env).value.0)]
      ensures !ok ==> w.sink.body == S.Clip(w.sink.capacity, lib.render(Refusal(env).value.1))
    {
      w.Note(CheckedLimit);
      match env.limit
      case Rejected(LimitExceeded(retryAfter)) =>
        var seconds := retryAfter / SECOND;
        if seconds > 0 {
          var text := Digits.Itoa(seconds);
          Digits.CanonicalIsDecimal(text);
          w.SetHeader("Retry-After", text);
        }
        WriteProblem(lib, w, 429, RateLimitExceeded(seconds));
        return false;
      case Rejected(_) =>
        WriteProblem(lib, w, 503, RATE_LIMIT_UNAVAILABLE);
        return false;
      case Admitted(result) =>
        w.SetHeader("X-RateLimit-Limit", Digits.Decimal(result.limit));
        w.SetHeader("X-RateLimit-Remaining", Digits.Decimal(result.remaining));
        w.SetHeader("X-RateLimit-Reset", Digits.Signed(result.reset / SECOND - UNIX_EPOCH));
        return true;
    }

    /** The route's gates. */
    method FindRoute(env: Env, lib: Library, w: Exchange) returns (entry: Option<C.RouteEntry>)
      requires env.claims.Some? && env.limit.Admitted? && env.body.Some? && env.body.value.model != "" && env.body.value.messages != []
      requires w.Valid() && w.sink.body == ""
      modifies w, w.sink
      ensures w.Valid() && (entry.Some? <==> Refusal(env).None?)
      ensures entry.Some? ==> entry.value == Entry(env) && w.sink.body == "" && w.headers == old(w.headers)
      ensures entry.None? ==> w.headers == old(w.headers)["Content-Type" := "application/json"]
      ensures entry.None? ==> w.sink.body == S.Clip(w.sink.capacity, lib.render(Refusal(env).value.1))
      ensures w.log == old(w.log) + [Resolved(env.body.value.model)] + if entry.Some? then [] else [Committed(Refusal(env).value.0)]
    {
      w.Note(Resolved(env.body.value.model));
      match env.route(env.body.value.model)
      case RoutingEmpty =>
        WriteProblem(lib, w, 503, ROUTING_UNAVAILABLE);
        return None;
      case RoutingUnavailable =>
        WriteProblem(lib, w, 503, ROUTING_UNAVAILABLE);
        return None;
      case ModelNotFound =>
        WriteProblem(lib, w, 404, ModelNotAvailable(env.body.value.model));
        return None;
      case Route(e) =>
        if !TierAllows(env.claims.value.tier, e.tierMin) {
          WriteProblem(lib, w, 403, ModelTierDenied(env.body.value.model, env.claims.value.tier, e.tierMin));
          return None;
        }
        return Some(e);
    }

    /** The call to the provider, in either mode. */
    method Forward(env: Env, lib: Library, entry: C.RouteEntry, messages: seq<Message>, count: nat, categories: seq<string>, w: Exchange)
        returns (ghost usage: Usage)
      requires Refusal(env).None? && entry == Entry(env)
      requires w.Valid() && w.sink.body == "" && w.log == Steps(env)
      modifies w, w.sink
      ensures w.log == Story(env, messages, usage)
      ensures w.sink.body == S.Clip(w.sink.capacity, Sent(env, lib))
      ensures SameLimitHeaders(old(w.headers), w.headers)
      ensures CountHeaderOk(old(w.headers), count) ==> CountHeaderOk(w.headers, count)
      ensures UsageOk(env, lib, w.sink.capacity, messages, usage) && usage.redacted == count && usage.categories == categories
    {
      if env.body.value.stream {
        usage := HandleStream(env, lib, entry, messages, count, categories, w);
      } else {
        usage := HandleBuffered(env, lib, entry, messages, count, categories, w);
      }
    }

    /** The body's gate. */
    method ReadRequest(env: Env, lib: Library, w: Exchange) returns (req: Option<ChatRequest>)
      requires env.claims.Some? && env.limit.Admitted?
      requires w.Valid() && w.sink.body == "" && w.log == [CheckedLimit]
      modifies w, w.sink
      ensures w.Valid() && (req.Some? <==> WellFormed(env))
      ensures req.Some? ==>
        && req == env.body && req.value.model != "" && req.value.messages != []
        && w.log == [CheckedLimit, ReadBody] && w.headers == old(w.headers) && w.sink.body == ""
      ensures req.None? ==>
        && Refusal(env).Some? && w.log == Steps(env) + [Committed(Refusal(env).value.0)]
        && w.headers == old(w.headers)["Content-Type" := "application/json"]
        && w.sink.body == S.Clip(w.sink.capacity, lib.render(Refusal(env).value.1))
    {
      w.Note(ReadBody);
      if env.body.None? {
        WriteProblem(lib, w, 400, BAD_JSON);
        return None;
      }
      var r := env.body.value;
      if r.model == "" || |r.messages| == 0 {
        WriteProblem(lib, w, 400, MISSING_FIELDS);
        return None;
      }
      return Some(r);
    }

    /** The decoded messages are redacted in place, and the count announced. */
    method RedactRequest(lib: Library, decoded: seq<Message>, w: Exchange) returns (after: seq<Message>, count: nat, categories: seq<string>)
      requires redactor != null ==> R.RulesOk(redactor.rules)
      requires "X-Redaction-Count" !in w.headers
      modifies w`headers
      ensures RedactedTo(redactor, lib.marshal, decoded, after, count, categories)
      ensures SameLimitHeaders(old(w.headers), w.headers) && CountHeaderOk(w.headers, count)
    {
      var messages := new Message[|decoded|](i requires 0 <= i < |decoded| => decoded[i]);
      assert messages[..] == decoded;
      count, categories := ApplyRedaction(redactor, lib.marshal, messages);
      after := messages[..];
      if count > 0 {
        w.SetHeader("X-Redaction-Count", Digits.Decimal(count));
      }
    }

    /** The route's gates, then the provider. */
    method Dispatch(env: Env, lib: Library, messages: seq<Message>, count: nat, categories: seq<string>, w: Exchange)
        returns (ghost usage: Usage)
      requires WellFormed(env)
      requires w.Valid() && w.sink.body == "" && w.log == [CheckedLimit, ReadBody] && CountHeaderOk(w.headers, count)
      modifies w, w.sink
      ensures w.log == Story(env, messages, usage)
      ensures w.sink.body == S.Clip(w.sink.capacity, Sent(env, lib))
      ensures SameLimitHeaders(old(w.headers), w.headers) && CountHeaderOk(w.headers, count)
      ensures Refusal(env).None? ==> UsageOk(env, lib, w.sink.capacity, messages, usage)
      ensures usage.redacted == count && usage.categories == categories
    {
      usage := Usage(0, 0, "", "", count, categories);
      var entry := FindRoute(env, lib, w);
      if entry.Some? {
        usage := Forward(env, lib, entry.value, messages, count, categories, w);
      }
    }

    /** Everything after the limiter let the request pass. */
    method Proceed(env: Env, lib: Library, w: Exchange) returns (ghost messages: seq<Message>, ghost usage: Usage)
      requires redactor != null ==> R.RulesOk(redactor.rules)
      requires env.claims.Some? && env.limit.Admitted?
      requires w.Valid() && w.sink.body == "" && w.log == [CheckedLimit] && "X-Redaction-Count" !in w.headers
      modifies w, w.sink
      ensures Told(env, lib, w.sink.capacity, redactor, w.log, messages, usage)
      ensures w.sink.body == S.Clip(w.sink.capacity, Sent(env, lib))
      ensures SameLimitHeaders(old(w.headers), w.headers)
      ensures if WellFormed(env) then CountHeaderOk(w.headers, usage.redacted) else "X-Redaction-Count" !in w.headers
    {
      messages, usage := [], Usage(0, 0, "", "", 0, []);
      var read := ReadRequest(env, lib, w);
      if read.Some? {
        var rewritten, count, categories := RedactRequest(lib, read.value.messages, w);
        messages := rewritten;
        usage := Dispatch(env, lib, rewritten, count, categories, w);
      }
    }

    method Handle(env: Env, lib: Library, w: Exchange) returns (ghost messages: seq<Message>, ghost usage: Usage)
      requires redactor != null ==> R.RulesOk(redactor.rules)
      requires DurationOk(env.limit)
      requires w.Valid() && w.sink.body == "" && w.log == [] && w.headers == map[]
      modifies w, w.sink
      ensures Told(env, lib, w.sink.capacity, redactor, w.log, messages, usage)
      ensures w.sink.body == S.Clip(w.sink.capacity, Sent(env, lib))
      ensures LimitHeadersOk(env, w.headers)
      ensures if WellFormed(env) then CountHeaderOk(w.headers, usage.redacted) else "X-Redaction-Count" !in w.headers
    {
      messages, usage := [], Usage(0, 0, "", "", 0, []);
      if env.claims.None? {
        WriteProblem(lib, w, 401, UNAUTHORIZED);
        return;
      }
      var ok := Admit(env, lib, w);
      if ok {
        messages, usage := Proceed(env, lib, w);
      }
    }
  }
}
