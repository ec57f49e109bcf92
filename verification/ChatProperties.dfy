/** What every request to the chat handler keeps, whatever its surroundings do. */
module ChatProperties {
  import opened Wrappers
  import opened TokenCount
  import opened ChatRedaction
  import opened ChatHandler
  import R = Redaction
  import RedactionRules
  import NationalId
  import L = RateLimiter
  import C = CoreClient
  import T = TtlCache
  import S = StreamForward
  import E = EventStream
  import Relaying = StreamRelay
  import Digits

  /** The gates, each on its own. */
  predicate GatesPass(env: Env) {
    && WellFormed(env)
    && env.route(env.body.value.model).Route?
    && TierAllows(env.claims.value.tier, env.route(env.body.value.model).entry.tierMin)
  }

  /** The one status of the response. */
  function Status(env: Env): nat {
    if Refusal(env).Some? then Refusal(env).value.0
    else
      match ProviderError(env)
      case None => 200
      case Some(message) =>
        if env.body.value.stream then StreamProblem(message, Entry(env).providerType).0 else ProviderProblem(message).0
  }

  /** Exactly one response is committed. */
  lemma OneResponse(env: Env, messages: seq<Message>, usage: Usage)
    ensures
      var log := Story(env, messages, usage);
      exists i :: 0 <= i < |log| && log[i] == Committed(Status(env)) && forall j | 0 <= j < |log| && j != i :: !log[j].Committed?
  {
    var log, n := Story(env, messages, usage), |Steps(env)|;
    var i := if Refusal(env).Some? then n else if !env.body.value.stream && env.buffered.Answered? then n + 2 else n + 1;
    assert log[i] == Committed(Status(env));
    assert forall j | 0 <= j < n :: log[j] == Steps(env)[j];
  }

  /** The provider is called exactly when every gate passes, once, after the limiter,
      the body and the route table in this order. */
  lemma ProviderAfterGates(env: Env, messages: seq<Message>, usage: Usage)
    ensures
      var log := Story(env, messages, usage);
      && (GatesPass(env) <==> exists i :: 0 <= i < |log| && log[i].CalledProvider?)
      && (forall i | 0 <= i < |log| && log[i].CalledProvider? ::
            && log[..i] == [CheckedLimit, ReadBody, Resolved(env.body.value.model)]
            && log[i] == CalledProvider(env.route(env.body.value.model).entry, messages, env.body.value.stream))
  {
    var log, n := Story(env, messages, usage), |Steps(env)|;
    assert forall j | 0 <= j < n :: log[j] == Steps(env)[j];
    if GatesPass(env) {
      assert log[n].CalledProvider? && log[..n] == Steps(env);
    }
  }

  /** Usage is reported exactly once per call of the provider, after it. */
  lemma IngestOncePerCall(env: Env, messages: seq<Message>, usage: Usage)
    ensures
      var log := Story(env, messages, usage);
      && (Refusal(env).Some? ==> forall i | 0 <= i < |log| :: !log[i].LaunchedIngest?)
      && (Refusal(env).None? ==> exists i, k :: 0 <= i < k < |log| && log[i].CalledProvider? && log[k] == LaunchedIngest(usage)
                                     && forall j | 0 <= j < |log| && j != k :: !log[j].LaunchedIngest?)
  {
    var log, n := Story(env, messages, usage), |Steps(env)|;
    assert forall j | 0 <= j < n :: log[j] == Steps(env)[j];
    if Refusal(env).None? {
      var k := if !env.body.value.stream && env.buffered.Answered? then n + 1 else n + 2;
      assert log[n].CalledProvider? && log[k] == LaunchedIngest(usage);
    }
  }

  lemma StartsWith(s: string, part: string, i: nat)
    requires At(s, part, i) && |part| >= 2
    ensures i + 2 <= |s| && s[i] == part[0] && s[i + 1] == part[1]
  {
    assert s[i..i + |part|][0] == s[i] && s[i..i + |part|][1] == s[i + 1];
  }

  /** Nowhere a digit five, nor a "ti". */
  predicate Calm(s: string) {
    forall i | 0 <= i < |s| :: s[i] != '5' && (s[i] == 't' && i + 1 < |s| ==> s[i + 1] != 'i')
  }

  lemma CalmMessages(s: string)
    requires Calm(s)
    ensures !TimedOut(s)
  {
    forall i | 0 <= i <= |s| ensures !At(s, "504", i) && !At(s, "timeout", i) {
      if At(s, "504", i) { StartsWith(s, "504", i); }
      if At(s, "timeout", i) { StartsWith(s, "timeout", i); }
    }
  }

  lemma CalmJoin(a: string, b: string)
    requires Calm(a) && Calm(b) && a != "" && a[|a| - 1] != 't'
    ensures Calm(a + b)
  {
  }

  lemma CalmWords()
    ensures Calm("streaming ") && Calm("not ") && Calm("supported ") && Calm("for ") && Calm("gemini")
  {
  }

  lemma UnsupportedWords()
    ensures UNSUPPORTED == "not " + ("supported " + ("for " + "gemini"))
  {
  }

  lemma CalmUnsupported()
    ensures Calm(UNSUPPORTED)
  {
    CalmWords();
    CalmJoin("for ", "gemini");
    CalmJoin("supported ", "for " + "gemini");
    CalmJoin("not ", "supported " + ("for " + "gemini"));
    UnsupportedWords();
  }

  lemma EndsWith(a: string, b: string)
    ensures Contains(a + b, b)
  {
    assert At(a + b, b, |a|);
  }

  lemma GeminiMessage()
    ensures Contains(GEMINI, UNSUPPORTED) && !TimedOut(GEMINI)
  {
    EndsWith("streaming ", UNSUPPORTED);
    CalmWords();
    CalmUnsupported();
    CalmJoin("streaming ", UNSUPPORTED);
    CalmMessages(GEMINI);
  }

  /** The reported usage tells the same story as the response: an error is reported
      exactly when the status is not 200, and a timeout exactly when it is 504, except
      for a stream whose error text speaks of gemini's missing support. */
  lemma StatusAgreesWithUsage(env: Env, lib: Library, capacity: Option<nat>, messages: seq<Message>, usage: Usage)
    requires Refusal(env).None? && UsageOk(env, lib, capacity, messages, usage)
    ensures Status(env) == 200 <==> usage.status == "ok"
    ensures Status(env) == 200 <==> usage.errorCode == ""
    ensures Status(env) in {200, 501, 502, 504}
    ensures Status(env) == 501 <==>
      env.body.value.stream && ProviderError(env).Some? && Contains(ProviderError(env).value, UNSUPPORTED)
    ensures Status(env) == 504 <==> usage.errorCode == "provider_timeout" && Status(env) != 501
    ensures env.body.value.stream && Entry(env).providerType == "gemini" ==> Status(env) == 501 && usage.errorCode == "provider_unavailable"
  {
    GeminiMessage();
  }

  /** Every status has one family of causes. */
  lemma DecisionTable(env: Env)
    ensures Status(env) == 401 <==> env.claims.None?
    ensures Status(env) == 429 <==> env.claims.Some? && env.limit.Rejected? && env.limit.error.LimitExceeded?
    ensures Status(env) == 400 <==>
      && env.claims.Some? && env.limit.Admitted?
      && (env.body.None? || env.body.value.model == "" || env.body.value.messages == [])
    ensures Status(env) == 404 <==> WellFormed(env) && env.route(env.body.value.model).ModelNotFound?
    ensures Status(env) == 403 <==>
      && WellFormed(env) && env.route(env.body.value.model).Route?
      && !TierAllows(env.claims.value.tier, env.route(env.body.value.model).entry.tierMin)
    ensures Status(env) == 503 <==>
      || (env.claims.Some? && env.limit.Rejected? && !env.limit.error.LimitExceeded?)
      || (WellFormed(env) && env.route(env.body.value.model) in {C.RoutingEmpty, C.RoutingUnavailable})
    ensures Status(env) in {200, 501, 502, 504} <==> GatesPass(env)
  {
  }

  /** With the default rules on, every message given to the provider is what the engine
      makes of the decoded one; none holds a national ID in the string that was searched;
      and its text holds one exactly when it is that of structured content, held one
      before, and its encoding had no hit. */
  lemma ProviderSeesNoNationalId(env: Env, lib: Library, capacity: Option<nat>, redactor: R.Engine, log: seq<Action>, messages: seq<Message>,
                                 usage: Usage, categories: seq<string>, p: RedactionRules.Patterns, i: nat, k: nat)
    requires RedactionRules.PatternsOk(p) && (categories == [] || "national_id" in categories)
    requires redactor.enabled && redactor.rules == RedactionRules.EngineRules(categories, p) && R.RulesOk(redactor.rules)
    requires Told(env, lib, capacity, redactor, log, messages, usage)
    requires i < |log| && log[i].CalledProvider? && k < |log[i].messages|
    ensures |log[i].messages| == |env.body.value.messages|
    ensures
      var before, after := env.body.value.messages[k], log[i].messages[k];
      && after.role == before.role
      && AsString(lib.marshal, after.content) == R.Redacted(true, redactor.rules, AsString(lib.marshal, before.content)).content
      && (after.content != before.content ==> after.content.Plain?)
      && !HasId(AsString(lib.marshal, after.content))
      && (HasId(TextOf(after.content)) <==>
            before.content.Parts? && HasId(TextOf(before.content)) && Report(redactor.rules, lib.marshal, before).count == 0)
  {
    ProviderAfterGates(env, messages, usage);
    assert log[i].messages == messages;
    RedactionKeepsShape(redactor.rules, lib.marshal, env.body.value.messages);
    TextKeepsIdExactly(categories, p, lib.marshal, env.body.value.messages[k]);
    RewrittenExactly(redactor, lib.marshal, env.body.value.messages, messages, usage.redacted, usage.categories, k);
    forall j: nat ensures !NationalId.IdAt(AsString(lib.marshal, messages[k].content), j) {
      RedactedRequestIsClean(categories, p, lib.marshal, env.body.value.messages, k, j);
    }
  }

  /** When the routing cache has expired and its refresh fails, the answer is 404 for every
      model, the cached ones included, if a config was cached under two TTLs ago, where
      docs/API.md promises 503; it is 503 in every other case. */
  lemma GraceAnswersNotFound(env: Env, ttl: nat, c: T.Cache<C.RoutingConfig>, kind: T.Failure, t: T.Times)
    requires WellFormed(env) && (c.value.models == [] || c.expiresAt < t.now)
    requires env.route(env.body.value.model) ==
      C.ResolveSpec(T.GetSpec(C.RoutingPolicy(ttl), c, T.Fails(kind), t).1, env.body.value.model)
    ensures
      var forgotten := c.value.models != [] && t.checkAt < c.lastFetch + 2 * ttl && kind != T.BadRequest;
      Status(env) == if forgotten then 404 else 503
  {
    if c.value.models != [] && t.checkAt < c.lastFetch + 2 * ttl && kind != T.BadRequest {
      C.GraceForgetsModels(ttl, c, kind, t, env.body.value.model);
    }
  }

  /** The Retry-After header counts whole seconds: a client that waits exactly as told
      is in the next window only if the time left was a whole number of seconds, and
      one second more always suffices; the header is missing in the last second. */
  lemma RetryAfterHeader(w: L.Window, now: nat)
    ensures
      var seconds := (L.WindowEnd(w, now) - now) / SECOND;
      && (seconds == 0 <==> L.Index(w, now + SECOND - 1) > L.Index(w, now))
      && L.Index(w, now + seconds * SECOND) == L.Index(w, now) + (if (L.WindowEnd(w, now) - now) % SECOND == 0 then 1 else 0)
      && L.Index(w, now + (seconds + 1) * SECOND) == L.Index(w, now) + 1
  {
    L.WindowEndIsNextStart(w, now);
    var end, seconds := L.WindowEnd(w, now), (L.WindowEnd(w, now) - now) / SECOND;
    assert now + seconds * SECOND <= end < now + (seconds + 1) * SECOND <= end + SECOND;
    InWindow(w, now, now + seconds * SECOND);
    InWindow(w, now, now + (seconds + 1) * SECOND);
    InWindow(w, now, now + SECOND - 1);
  }

  lemma InWindow(w: L.Window, now: nat, t: nat)
    requires now <= t < L.WindowEnd(w, now) + L.Length(w)
    ensures L.Index(w, t) == L.Index(w, now) + (if t < L.WindowEnd(w, now) then 0 else 1)
  {
    L.WindowEndIsNextStart(w, now);
    var q := L.Index(w, now);
    if w.Minute? {
      assert q * L.MINUTE_NS <= now;
    } else {
      assert q * L.DAY_NS <= now;
    }
  }

  // ---------- What the answers say ----------

  /** The bodies of refusals: each names its cause, and what the cause was about. */
  lemma RefusalsExactly(env: Env, lib: Library)
    requires Refusal(env).Some?
    ensures
      var (status, body) := Refusal(env).value;
      && status == Status(env) && body.Problem? && Sent(env, lib) == lib.render(body)
      && (status == 401 ==> body.code == "unauthorized")
      && (status == 429 ==> body.code == "rate_limit_exceeded" && body.details == RetryAfterSeconds(env.limit.error.retryAfter / 1_000_000_000))
      && (status == 400 ==> body.code == "invalid_request" && (body.details == RequiredFields <==> env.body.Some?))
      && (status == 404 ==> body.code == "model_not_available" && body.details == ModelDetails(env.body.value.model))
      && (status == 403 ==>
            && body.code == "model_tier_denied"
            && body.details == TierDetails(env.body.value.model, env.claims.value.tier, env.route(env.body.value.model).entry.tierMin))
      && (status == 503 ==> body.code == if env.limit.Rejected? then "rate_limit_unavailable" else "routing_unavailable")
  {
  }

  /** The bodies after a call of the provider: its completion, or a problem with the code
      of the status. */
  lemma AnswersExactly(env: Env, lib: Library)
    requires Refusal(env).None?
    ensures !env.body.value.stream && env.buffered.Answered? ==> Sent(env, lib) == lib.render(Answer(env.buffered.completion))
    ensures Status(env) != 200 ==>
      exists body: Response :: body.Problem? && Sent(env, lib) == lib.render(body)
        && (body.code == "streaming_not_supported" <==> Status(env) == 501)
        && (body.code == "provider_timeout" <==> Status(env) == 504)
        && (body.code == "provider_unavailable" <==> Status(env) == 502)
  {
    if Status(env) != 200 {
      var message := ProviderError(env).value;
      var body := if env.body.value.stream then StreamProblem(message, Entry(env).providerType).1 else ProviderProblem(message).1;
      assert body.Problem? && Sent(env, lib) == lib.render(body);
    }
  }

  /** A stream begins exactly when the provider can stream, answers with success, and the
      client can be streamed to. */
  lemma StreamBegins(env: Env)
    requires Refusal(env).None? && env.body.value.stream
    ensures Status(env) == 200 <==>
      && Entry(env).providerType != "gemini"
      && env.streaming.Responded? && env.streaming.status < 300 && env.flusher
  {
  }

  lemma SentIsStream(env: Env, lib: Library)
    requires Refusal(env).None? && env.body.value.stream && Status(env) == 200
    ensures env.streaming.Responded? && Sent(env, lib) == StreamBody(env, lib, Entry(env))
  {
    StreamBegins(env);
  }

  /** And then the client of an OpenAI stream sees the provider's events. */
  lemma RelayedExactly(env: Env, lib: Library)
    requires Refusal(env).None? && env.body.value.stream && Status(env) == 200 && Entry(env).providerType != "anthropic"
    ensures env.streaming.Responded?
    ensures
      var body := env.streaming.body;
      E.FitsScanner(body) && Relaying.NoCrPair(body) ==> E.Events(Sent(env, lib)) == E.Events(body)
  {
    SentIsStream(env, lib);
    var body := env.streaming.body;
    if E.FitsScanner(body) && Relaying.NoCrPair(body) {
      Relaying.RelayPreservesEvents(body);
    }
  }

  /** The events of a translation: one chunk per text, under the given id and model, then
      the end marker. */
  ghost predicate ChunksOf(codec: S.Codec, id: string, model: string, texts: seq<string>, events: seq<E.StreamEvent>) {
    && S.Reassembled(codec, events) == texts && |events| == |texts| + 1 && events[|texts|].data == "[DONE]"
    && forall i | 0 <= i < |texts| ::
         exists c :: codec.decode(events[i].data) == Some(c) && c.id == id && c.model == model && c.content == texts[i]
  }

  lemma TranslationIsChunks(codec: S.Codec, body: string, id: string, model: string, stamps: nat -> nat)
    requires S.CodecOk(codec)
    ensures
      var texts := S.DeltaTexts(codec, E.ScanLines(body));
      ChunksOf(codec, id, model, texts, E.Events(S.Translation(codec, S.Chunks(id, model, stamps, texts))))
  {
    S.TranslationPreservesText(codec, body, id, model, stamps);
  }

  /** That of an Anthropic stream sees its texts, translated, under the model's public name
      and the id of the request's trace. */
  lemma TranslatedExactly(env: Env, lib: Library)
    requires Refusal(env).None? && env.body.value.stream && Status(env) == 200 && Entry(env).providerType == "anthropic"
    requires S.CodecOk(lib.codec)
    ensures env.streaming.Responded?
    ensures ChunksOf(lib.codec, env.traceId, Entry(env).externalId, S.DeltaTexts(lib.codec, E.ScanLines(env.streaming.body)),
                     E.Events(Sent(env, lib)))
  {
    SentIsStream(env, lib);
    TranslationIsChunks(lib.codec, env.streaming.body, env.traceId, Entry(env).externalId, env.stamps);
  }

  /** The tokens reported: the provider's own counts where it gives any, else a quarter of
      the answer's first choice, and for the prompt a quarter of each message, at least
      one in all. */
  lemma TokensExactly(env: Env, lib: Library, capacity: Option<nat>, messages: seq<Message>, usage: Usage)
    requires Refusal(env).None? && UsageOk(env, lib, capacity, messages, usage) && ProviderError(env).None?
    ensures
      var estimated := env.body.value.stream || env.buffered.completion.promptTokens == 0;
      var total := |Concat(Texts(messages))|;
      && (!estimated ==> usage.inputTokens == env.buffered.completion.promptTokens)
      && (estimated ==>
            && usage.inputTokens == (if Quarters(Texts(messages)) > 1 then Quarters(Texts(messages)) else 1)
            && total <= 4 * usage.inputTokens + 3 * |messages|
            && (1 < usage.inputTokens ==> 4 * usage.inputTokens <= total))
    ensures !env.body.value.stream ==>
      var c := env.buffered.completion;
      && (c.completionTokens != 0 ==> usage.outputTokens == c.completionTokens)
      && (c.completionTokens == 0 ==> usage.outputTokens == if c.choices == [] then 0 else |c.choices[0]| / 4)
  {
    QuartersRemainder(Texts(messages));
  }

  // ---------- What was asked on the way ----------

  /** What is asked is asked before anything is sent. */
  lemma AskedIsInSteps(env: Env, messages: seq<Message>, usage: Usage, a: Action)
    requires a.CheckedLimit? || a.ReadBody? || a.Resolved?
    ensures a in Story(env, messages, usage) <==> a in Steps(env)
    ensures Steps(env) <= Story(env, messages, usage)
  {
    var log, n := Story(env, messages, usage), |Steps(env)|;
    var tail := if Refusal(env).Some? then [Committed(Refusal(env).value.0)] else ProviderSteps(env, Entry(env), messages, usage);
    assert log == Steps(env) + tail;
    assert a !in tail;
  }

  /** The limiter is asked first, of every request with claims; the body is read exactly
      of the admitted ones, and the route table is asked exactly about well-formed ones. */
  lemma AskedInOrder(env: Env, messages: seq<Message>, usage: Usage, model: string)
    ensures
      var log := Story(env, messages, usage);
      && (CheckedLimit in log <==> env.claims.Some?) && (ReadBody in log <==> env.claims.Some? && env.limit.Admitted?)
      && (Resolved(model) in log <==> WellFormed(env) && model == env.body.value.model)
      && (env.claims.Some? ==> log[0] == CheckedLimit) && (ReadBody in log ==> log[1] == ReadBody)
      && (Resolved(model) in log ==> log[2] == Resolved(model))
  {
    AskedIsInSteps(env, messages, usage, CheckedLimit);
    AskedIsInSteps(env, messages, usage, ReadBody);
    AskedIsInSteps(env, messages, usage, Resolved(model));
  }

  const TIERS := ["free", "trial", "pro", "power"]

  /** A tier includes what needs it or a lower one; an unknown tier counts as the lowest. */
  lemma TiersExactly(user: string, min: string)
    ensures forall i, j | 0 <= i < 4 && 0 <= j < 4 && user == TIERS[i] && min == TIERS[j] :: TierAllows(user, min) <==> j <= i
    ensures user !in TIERS ==> (TierAllows(user, min) <==> TierAllows("free", min))
    ensures min !in TIERS ==> TierAllows(user, min)
  {
  }

  // ---------- Timeouts of the provider ----------

  lemma FiveZeroFour()
    ensures Digits.Decimal(504) == "504"
  {
    assert Digits.Decimal(5) == "5";
    assert Digits.Decimal(50) == "50";
  }

  lemma ThreeDigits(n: nat)
    requires 100 <= n < 1000
    ensures |Digits.Decimal(n)| == 3
    ensures forall c | c in Digits.Decimal(n) :: '0' <= c <= '9'
    ensures Digits.Decimal(n) == "504" <==> n == 504
  {
    var s := Digits.Decimal(n);
    assert s == Digits.Decimal(n / 10) + [Digits.DigitChar(n % 10)];
    assert Digits.Decimal(n / 10) == Digits.Decimal(n / 100) + [Digits.DigitChar(n / 10 % 10)];
    assert s == [Digits.DigitChar(n / 100)] + [Digits.DigitChar(n / 10 % 10)] + [Digits.DigitChar(n % 10)];
    FiveZeroFour();
    Digits.DecimalIsCanonical(n);
    Digits.DecimalIsCanonical(504);
  }

  /** "504" fits a calm text with three digits at its end only there. */
  lemma OnlyAtTheEnd(prefix: string, digits: string)
    requires Calm(prefix) && prefix != "" && prefix[|prefix| - 1] == ' '
    requires |digits| == 3 && forall c | c in digits :: '0' <= c <= '9'
    ensures TimedOut(prefix + digits) <==> digits == "504"
  {
    var s := prefix + digits;
    assert forall i | 0 <= i < |digits| :: digits[i] in digits && s[|prefix| + i] == digits[i];
    assert forall i | 0 <= i < |prefix| :: s[i] == prefix[i];
    assert s[|prefix|..|prefix| + 3] == digits;
    assert At(s, "504", |prefix|) <==> digits == "504";
    forall i | 0 <= i <= |s| ensures At(s, "504", i) ==> i == |prefix| {
      if At(s, "504", i) { StartsWith(s, "504", i); }
    }
    forall i | 0 <= i <= |s| ensures !At(s, "timeout", i) {
      if At(s, "timeout", i) { StartsWith(s, "timeout", i); }
    }
  }

  lemma CalmPrefixes()
    ensures Calm("provider retryable ") && Calm("provider error ")
  {
  }

  /** A status of the provider counts as a timeout exactly when it is 504. */
  lemma HttpTimeoutsExactly(status: nat)
    requires 100 <= status < 1000
    ensures TimedOut(ProviderHttpError(status)) <==> status == 504
  {
    ThreeDigits(status);
    CalmPrefixes();
    OnlyAtTheEnd("provider retryable ", Digits.Decimal(status));
    OnlyAtTheEnd("provider error ", Digits.Decimal(status));
  }
}
