/** The client of the Hub: routing and platform config, each behind a refreshing
    cache, and the lookup of a model's route. */
module CoreClient {
  import opened Wrappers
  import opened TtlCache

  datatype RouteEntry = RouteEntry(modelId: string, externalId: string, providerId: string, providerType: string,
                                   providerName: string, baseUrl: string, apiKey: string, tierMin: string,
                                   inputCost1M: real, outputCost1M: real)

  predicate ValidEntry(e: RouteEntry) {
    && e.externalId != "" && e.providerId != ""
    && e.providerType != "" && e.baseUrl != "" && e.apiKey != ""
    && e.tierMin != ""
  }

  /** The same, by the fields that must not be empty: the model's and the provider's id,
      the provider's type, address and key, and the lowest tier. */
  predicate Complete(e: RouteEntry) {
    "" !in {e.externalId, e.providerId, e.providerType, e.baseUrl, e.apiKey, e.tierMin}
  }

  /** A complete entry under either of its ids. */
  predicate Good(e: RouteEntry, model: string) {
    Complete(e) && model in {e.externalId, e.modelId}
  }

  datatype RoutingConfig = RoutingConfig(models: seq<RouteEntry>, updatedAt: string)

  datatype PlatformConfig = PlatformConfig(manifestUrl: string, updatedAt: string)

  const NO_ROUTING := RoutingConfig([], "")
  const NO_PLATFORM := PlatformConfig("", "")

  function ValidOnly(models: seq<RouteEntry>): seq<RouteEntry>
    decreases |models|
  {
    if models == [] then []
    else ValidOnly(models[..|models| - 1]) + if ValidEntry(models[|models| - 1]) then [models[|models| - 1]] else []
  }

  predicate AllValid(models: seq<RouteEntry>) {
    forall i | 0 <= i < |models| :: ValidEntry(models[i])
  }

  /** Invalid entries are dropped; a config without models is unusable but stored;
      and the value found in the grace period is thrown away. */
  function RoutingPolicy(ttl: nat): Policy<RoutingConfig> {
    Policy(ttl, NO_ROUTING, (raw: RoutingConfig) => raw.(models := ValidOnly(raw.models)),
           (c: RoutingConfig) => c.models != [], true, false)
  }

  /** A config without URL counts as a failed refresh; the grace period is served. */
  function PlatformPolicy(ttl: nat): Policy<PlatformConfig> {
    Policy(ttl, NO_PLATFORM, (raw: PlatformConfig) => raw, (c: PlatformConfig) => c.manifestUrl != "", false, true)
  }

  datatype RouteAnswer = Route(entry: RouteEntry) | RoutingEmpty | RoutingUnavailable | ModelNotFound

  predicate Matches(e: RouteEntry, model: string) {
    e.externalId == model || e.modelId == model
  }

  function FindRoute(models: seq<RouteEntry>, model: string): RouteAnswer
    decreases |models|
  {
    if models == [] then ModelNotFound
    else if Matches(models[0], model) then Route(models[0])
    else FindRoute(models[1..], model)
  }

  function ResolveSpec(a: Answer<RoutingConfig>, model: string): RouteAnswer {
    match a
    case Err(Unusable) => RoutingEmpty
    case Err(_) => RoutingUnavailable
    case Ok(cfg) => FindRoute(cfg.models, model)
  }

  class Client {
    const ttl: nat

    var routing: RoutingConfig
    var expiresAt: nat
    var updatedAt: string
    var lastFetch: nat
    var fetchErr: Option<Failure>

    var platformCfg: PlatformConfig
    var platformExpiresAt: nat
    var platformUpdatedAt: string
    var platformLastFetch: nat
    var platformFetchErr: Option<Failure>

    /** A TTL that is not positive means five seconds. */
    constructor (cacheTTL: int)
      ensures ttl == if cacheTTL <= 0 then 5_000_000_000 else cacheTTL
      ensures RoutingCache() == Empty(RoutingPolicy(ttl)) && PlatformCache() == Empty(PlatformPolicy(ttl))
      ensures RoutingOk()
    {
      ttl := if cacheTTL <= 0 then 5_000_000_000 else cacheTTL;
      routing, expiresAt, updatedAt, lastFetch, fetchErr := NO_ROUTING, 0, "", 0, None;
      platformCfg, platformExpiresAt, platformUpdatedAt, platformLastFetch, platformFetchErr := NO_PLATFORM, 0, "", 0, None;
    }

    function RoutingCache(): Cache<RoutingConfig>
      reads this
    {
      Cache(routing, expiresAt, lastFetch, fetchErr)
    }

    function PlatformCache(): Cache<PlatformConfig>
      reads this
    {
      Cache(platformCfg, platformExpiresAt, platformLastFetch, platformFetchErr)
    }

    /** The cached routing holds valid entries only. */
    predicate RoutingOk()
      reads this
    {
      AllValid(routing.models)
    }

    method SetFetchError(e: Failure)
      modifies this`fetchErr
      ensures RoutingCache() == WithError(old(RoutingCache()), e)
    {
      fetchErr := Some(e);
    }

    method GetCachedOrError(now: nat) returns (a: Answer<RoutingConfig>)
      ensures a == Fallback(RoutingPolicy(ttl).(servesGrace := true), RoutingCache(), now)
    {
      if |routing.models| > 0 && now < lastFetch + 2 * ttl {
        return Ok(routing);
      }
      if fetchErr.Some? {
        return Err(fetchErr.value);
      }
      return Err(Unavailable);
    }

    /** As GetCachedOrError, but keeping only the error: a cached value in its grace
        period is computed and then discarded. */
    method DiscardCached(now: nat) returns (a: Answer<RoutingConfig>)
      ensures a == Fallback(RoutingPolicy(ttl), RoutingCache(), now)
    {
      var cached := GetCachedOrError(now);
      match cached
      case Ok(_) => return Ok(NO_ROUTING);
      case Err(e) => return Err(e);
    }

    method RefreshRouting(reply: Reply<RoutingConfig>, t: Times) returns (a: Answer<RoutingConfig>)
      requires RoutingOk()
      modifies this
      ensures (RoutingCache(), a) == RefreshSpec(RoutingPolicy(ttl), old(RoutingCache()), reply, t)
      ensures RoutingOk() && PlatformCache() == old(PlatformCache())
      ensures a.Ok? ==> AllValid(a.value.models)
    {
      match reply
      case Fails(kind) =>
        SetFetchError(kind);
        if kind.BadRequest? {
          return Err(BadRequest);
        }
        a := DiscardCached(t.checkAt);
      case Delivers(raw) =>
        var valid: seq<RouteEntry> := [];
        for k := 0 to |raw.models|
          invariant valid == ValidOnly(raw.models[..k]) && AllValid(valid)
        {
          assert raw.models[..k + 1][..k] == raw.models[..k];
          if !ValidEntry(raw.models[k]) {
            continue;
          }
          valid := valid + [raw.models[k]];
        }
        assert raw.models[..|raw.models|] == raw.models;
        var cfg := raw.(models := valid);
        if |cfg.models| == 0 {
          SetFetchError(Unusable);
          routing := RoutingConfig([], cfg.updatedAt);
          updatedAt := cfg.updatedAt;
          expiresAt := t.t1 + ttl;
          lastFetch := t.t2;
          fetchErr := Some(Unusable);
          return Err(Unusable);
        }
        if cfg.updatedAt != "" && cfg.updatedAt != updatedAt {
          routing := cfg;
        } else if |routing.models| == 0 {
          routing := cfg;
        } else {
          routing := cfg;
        }
        updatedAt := cfg.updatedAt;
        expiresAt := t.t1 + ttl;
        lastFetch := t.t2;
        fetchErr := None;
        return Ok(cfg);
    }

    method GetRouting(reply: Reply<RoutingConfig>, t: Times) returns (a: Answer<RoutingConfig>)
      requires RoutingOk()
      modifies this
      ensures (RoutingCache(), a) == GetSpec(RoutingPolicy(ttl), old(RoutingCache()), reply, t)
      ensures RoutingOk() && PlatformCache() == old(PlatformCache())
      ensures a.Ok? ==> AllValid(a.value.models)
    {
      var stale := t.now > expiresAt;
      if !stale && |routing.models| > 0 {
        return Ok(routing);
      }
      a := RefreshRouting(reply, t);
    }

    /** The check that a found entry is valid never fails: it is written here as in
        the code, and does not appear in what the method is proved to return. */
    method ResolveRoute(model: string, reply: Reply<RoutingConfig>, t: Times) returns (r: RouteAnswer)
      requires RoutingOk()
      modifies this
      ensures (RoutingCache(), r) ==
        var (c, a) := GetSpec(RoutingPolicy(ttl), old(RoutingCache()), reply, t);
        (c, ResolveSpec(a, model))
      ensures RoutingOk() && PlatformCache() == old(PlatformCache())
    {
      var a := GetRouting(reply, t);
      if a.Err? {
        if a.error.Unusable? {
          return RoutingEmpty;
        }
        return RoutingUnavailable;
      }
      var models := a.value.models;
      for k := 0 to |models|
        invariant FindRoute(models, model) == FindRoute(models[k..], model)
      {
        var m := models[k];
        assert models[k..][0] == m && models[k..][1..] == models[k + 1..];
        if m.externalId == model || m.modelId == model {
          if !ValidEntry(m) {
            return ModelNotFound;
          }
          return Route(m);
        }
      }
      return ModelNotFound;
    }

    method SetPlatformFetchError(e: Failure)
      modifies this`platformFetchErr
      ensures PlatformCache() == WithError(old(PlatformCache()), e)
    {
      platformFetchErr := Some(e);
    }

    method GetCachedPlatformOrError(now: nat) returns (a: Answer<PlatformConfig>)
      ensures a == Fallback(PlatformPolicy(ttl), PlatformCache(), now)
    {
      if platformCfg.manifestUrl != "" && now < platformLastFetch + 2 * ttl {
        return Ok(platformCfg);
      }
      if platformFetchErr.Some? {
        return Err(platformFetchErr.value);
      }
      return Err(Unavailable);
    }

    method RefreshPlatformConfig(reply: Reply<PlatformConfig>, t: Times) returns (a: Answer<PlatformConfig>)
      modifies this
      ensures (PlatformCache(), a) == RefreshSpec(PlatformPolicy(ttl), old(PlatformCache()), reply, t)
      ensures RoutingCache() == old(RoutingCache())
    {
      match reply
      case Fails(kind) =>
        SetPlatformFetchError(kind);
        if kind.BadRequest? {
          return Err(BadRequest);
        }
        a := GetCachedPlatformOrError(t.checkAt);
      case Delivers(cfg) =>
        if cfg.manifestUrl == "" {
          SetPlatformFetchError(Unusable);
          a := GetCachedPlatformOrError(t.checkAt);
          return;
        }
        platformCfg := cfg;
        platformUpdatedAt := cfg.updatedAt;
        platformExpiresAt := t.t1 + ttl;
        platformLastFetch := t.t2;
        platformFetchErr := None;
        return Ok(cfg);
    }

    method GetPlatformConfig(reply: Reply<PlatformConfig>, t: Times) returns (a: Answer<PlatformConfig>)
      modifies this
      ensures (PlatformCache(), a) == GetSpec(PlatformPolicy(ttl), old(PlatformCache()), reply, t)
      ensures RoutingCache() == old(RoutingCache())
    {
      var stale := t.now > platformExpiresAt;
      if !stale && platformCfg.manifestUrl != "" {
        return Ok(platformCfg);
      }
      a := RefreshPlatformConfig(reply, t);
    }
  }

  // ---------- What the caches answer ----------

  /** Routing: for one TTL after a refresh the valid entries of what arrived, untouched by
      what the Hub does meanwhile; after that, when the Hub fails, the empty config until
      two TTLs after the fetch, and the failure from then on. */
  lemma RoutingServes(ttl: nat, c: Cache<RoutingConfig>, raw: RoutingConfig, t: Times, reply: Reply<RoutingConfig>, u: Times)
    requires exists e :: e in raw.models && Complete(e)
    ensures
      var p := RoutingPolicy(ttl);
      var c1 := RefreshSpec(p, c, Delivers(raw), t).0;
      var a := GetSpec(p, c1, reply, u).1;
      && (u.now <= t.t1 + ttl ==> a == Ok(RoutingConfig(ValidOnly(raw.models), raw.updatedAt)))
      && (t.t1 + ttl < u.now && reply.Fails? && reply.kind != BadRequest ==>
            a == if u.checkAt < t.t2 + 2 * ttl then Ok(RoutingConfig([], "")) else Err(reply.kind))
  {
    EmptyWhenNoneValid(raw.models);
    if u.now <= t.t1 + ttl {
      ServedForOneTtl(RoutingPolicy(ttl), c, raw, t, reply, u);
    } else {
      RefreshedAfterwards(RoutingPolicy(ttl), c, raw, t, reply, u);
    }
  }

  /** Platform config: the same, but in its grace period the config itself is served, and
      one without a URL counts as a failure. */
  lemma PlatformServes(ttl: nat, c: Cache<PlatformConfig>, raw: PlatformConfig, t: Times, reply: Reply<PlatformConfig>, u: Times)
    requires raw.manifestUrl != ""
    ensures
      var p := PlatformPolicy(ttl);
      var c1 := RefreshSpec(p, c, Delivers(raw), t).0;
      var a := GetSpec(p, c1, reply, u).1;
      && (u.now <= t.t1 + ttl ==> a == Ok(raw))
      && (t.t1 + ttl < u.now && reply.Fails? && reply.kind != BadRequest ==>
            a == if u.checkAt < t.t2 + 2 * ttl then Ok(raw) else Err(reply.kind))
      && (t.t1 + ttl < u.now && reply.Delivers? ==>
            a == if reply.value.manifestUrl != "" then Ok(reply.value)
                 else if u.checkAt < t.t2 + 2 * ttl then Ok(raw) else Err(Unusable))
  {
    if u.now <= t.t1 + ttl {
      ServedForOneTtl(PlatformPolicy(ttl), c, raw, t, reply, u);
    } else {
      RefreshedAfterwards(PlatformPolicy(ttl), c, raw, t, reply, u);
    }
  }

  // ---------- What routing answers ----------

  lemma {:induction false} ValidOnlyIsValid(models: seq<RouteEntry>)
    ensures AllValid(ValidOnly(models))
    decreases |models|
  {
    if models != [] {
      var before, last := models[..|models| - 1], models[|models| - 1];
      ValidOnlyIsValid(before);
      AllValidSnoc(ValidOnly(before), last);
    }
  }

  lemma AllValidSnoc(models: seq<RouteEntry>, e: RouteEntry)
    requires AllValid(models)
    ensures AllValid(models + if ValidEntry(e) then [e] else [])
  {
  }

  /** Nothing is left to route exactly when no entry of the Hub's list is valid. */
  lemma {:induction false} EmptyWhenNoneValid(models: seq<RouteEntry>)
    ensures ValidOnly(models) == [] <==> forall e | e in models :: !ValidEntry(e)
    decreases |models|
  {
    if models != [] {
      var before, last := models[..|models| - 1], models[|models| - 1];
      assert models == before + [last];
      EmptyWhenNoneValid(before);
    }
  }

  /** A config that arrives leaves routing empty exactly when none of its entries is
      valid. */
  lemma DeliveredEmptyExactly(ttl: nat, c: Cache<RoutingConfig>, raw: RoutingConfig, t: Times, model: string)
    ensures ResolveSpec(RefreshSpec(RoutingPolicy(ttl), c, Delivers(raw), t).1, model) == RoutingEmpty <==>
      forall e | e in raw.models :: !Complete(e)
  {
    EmptyWhenNoneValid(raw.models);
    FirstValidMatch(raw.models, model);
  }

  lemma PreparedIsValid(ttl: nat, cfg: RoutingConfig)
    requires Prepared(RoutingPolicy(ttl), cfg)
    ensures AllValid(cfg.models)
  {
    var raw :| cfg == RoutingPolicy(ttl).prepare(raw);
    ValidOnlyIsValid(raw.models);
  }

  /** Over all interleavings of gets and refreshes, an error-free routing answer is
      either a non-empty config of valid entries, just fetched or cached at most one
      TTL ago, or it is the empty config, handed out after a refresh that failed in
      transport, status or decoding while the cache was less than two TTLs old. */
  lemma RoutingOutcome(ttl: nat, es: seq<Event<RoutingConfig>>, id: nat)
    requires forall i | 0 <= i < |es| :: ReplyOk(es[i])
    requires id in Exec(RoutingPolicy(ttl), Initial(RoutingPolicy(ttl)), es).ops
    requires Exec(RoutingPolicy(ttl), Initial(RoutingPolicy(ttl)), es).ops[id].Done?
    ensures
      var op := Exec(RoutingPolicy(ttl), Initial(RoutingPolicy(ttl)), es).ops[id];
      op.answer.Ok? ==>
        var cfg := op.answer.value;
        || (cfg.models != [] && AllValid(cfg.models)
            && (op.how.Fetched? || (op.how.FastPath? && op.how.written <= op.at <= op.how.written + ttl)))
        || (cfg == NO_ROUTING && op.how.GracePath? && op.how.kind in {Transport, Status, Undecodable}
            && op.how.written <= op.at < op.how.written + 2 * ttl)
    ensures
      var op := Exec(RoutingPolicy(ttl), Initial(RoutingPolicy(ttl)), es).ops[id];
      op.answer == Ok(NO_ROUTING) <==> op.how.GracePath?
  {
    AnswersExplained(RoutingPolicy(ttl), es, id);
    var op := Exec(RoutingPolicy(ttl), Initial(RoutingPolicy(ttl)), es).ops[id];
    if op.how.FastPath? || op.how.Fetched? {
      PreparedIsValid(ttl, op.answer.value);
    }
  }

  /** ... and exactly then.  In every run, an operation that falls back on the cache
      does so after a failure in transport, status or decoding, and the empty config is
      its answer if and only if a non-empty config, of valid entries, is cached and
      under two TTLs old; otherwise it answers with an error. */
  lemma RoutingEmptyExactly(ttl: nat, es: seq<Event<RoutingConfig>>, id: nat)
    requires forall i | 0 <= i < |es| :: ReplyOk(es[i])
    requires id in Exec(RoutingPolicy(ttl), Initial(RoutingPolicy(ttl)), es).ops
    requires Exec(RoutingPolicy(ttl), Initial(RoutingPolicy(ttl)), es).ops[id].Checking?
    ensures
      var s := Exec(RoutingPolicy(ttl), Initial(RoutingPolicy(ttl)), es);
      var op := Apply(RoutingPolicy(ttl), s, Check(id)).ops[id];
      && s.ops[id].kind in {Transport, Status, Undecodable}
      && op.Done? && (op.answer.Ok? ==> op.answer == Ok(NO_ROUTING))
      && (op.answer.Ok? <==> s.cache.value.models != [] && s.clock < s.cache.lastFetch + 2 * ttl)
      && (s.cache.value.models != [] ==> AllValid(s.cache.value.models))
  {
    var p := RoutingPolicy(ttl);
    RunKeepsInv(p, Initial(p), es);
    var s := Exec(p, Initial(p), es);
    assert PhaseOk(p, s.ops[id]);
    if s.cache.value.models != [] {
      PreparedIsValid(ttl, s.cache.value);
    }
  }

  /** The consequence: within the grace period a failed refresh makes every model
      unknown, the cached ones included, where the platform cache serves its value. */
  lemma GraceForgetsModels(ttl: nat, c: Cache<RoutingConfig>, kind: Failure, t: Times, model: string)
    requires c.value.models != [] && c.expiresAt < t.now && t.checkAt < c.lastFetch + 2 * ttl && kind != BadRequest
    ensures ResolveSpec(GetSpec(RoutingPolicy(ttl), c, Fails(kind), t).1, model) == ModelNotFound
  {
  }

  /** The platform cache serves its grace period.  In every run, within two TTLs of a
      successful fetch every get is answered with a config that has a URL, whatever the
      Hub, the network and the other operations do; only a request that could not even
      be made is an error. */
  lemma GraceServesPlatform(ttl: nat, es: seq<Event<PlatformConfig>>, a: nat, b: nat)
    requires forall i | 0 <= i < |es| :: ReplyOk(es[i])
    requires a in Exec(PlatformPolicy(ttl), Initial(PlatformPolicy(ttl)), es).ops
    requires IsFetched(Exec(PlatformPolicy(ttl), Initial(PlatformPolicy(ttl)), es).ops[a])
    requires b in Exec(PlatformPolicy(ttl), Initial(PlatformPolicy(ttl)), es).ops
    requires Exec(PlatformPolicy(ttl), Initial(PlatformPolicy(ttl)), es).ops[b].Done?
    ensures
      var ops := Exec(PlatformPolicy(ttl), Initial(PlatformPolicy(ttl)), es).ops;
      ops[a].at < ops[b].at < ops[a].at + 2 * ttl ==>
        (ops[b].answer.Ok? && ops[b].answer.value.manifestUrl != "") || ops[b].answer == Err(BadRequest)
  {
    GraceServes(PlatformPolicy(ttl), es, a, b);
    PlatformOutcome(ttl, es, b);
  }

  /** When every refresh succeeds with a usable config and takes at most d, every
      answer is a non-empty config of valid entries that the Hub served at most one
      TTL and one refresh ago, whatever overlaps and overwrites what. */
  lemma RoutingFreshness(ttl: nat, d: nat, hub: nat -> RoutingConfig, es: seq<Event<RoutingConfig>>, id: nat)
    requires Honest(RoutingPolicy(ttl), Initial(RoutingPolicy(ttl)), es, hub, d) && AllSucceed(RoutingPolicy(ttl), es)
    requires id in Exec(RoutingPolicy(ttl), Initial(RoutingPolicy(ttl)), es).ops
    requires Exec(RoutingPolicy(ttl), Initial(RoutingPolicy(ttl)), es).ops[id].Done?
    ensures
      var op := Exec(RoutingPolicy(ttl), Initial(RoutingPolicy(ttl)), es).ops[id];
      && op.answer.Ok? && op.answer.value.models != [] && AllValid(op.answer.value.models)
      && exists served: nat ::
           && op.at - ttl - d <= served <= op.at
           && op.answer.value == hub(served).(models := ValidOnly(hub(served).models))
  {
    var p := RoutingPolicy(ttl);
    forall i | 0 <= i < |es| ensures ReplyOk(es[i]) {
      if es[i].Receive? { assert es[i].reply.Delivers?; }
    }
    AnswersExplained(p, es, id);
    AnswersFresh(p, es, id, hub, d);
    SuccessRun(p, Initial(p), es);
    var op := Exec(p, Initial(p), es).ops[id];
    assert op.how.FastPath? || op.how.Fetched?;
    PreparedIsValid(ttl, op.answer.value);
    var served := op.how.origin;
    assert op.at - ttl - d <= served <= op.at;
  }

  /** Platform config: every error-free answer has a URL and was cached less than two
      TTLs ago, or just fetched. */
  lemma PlatformOutcome(ttl: nat, es: seq<Event<PlatformConfig>>, id: nat)
    requires forall i | 0 <= i < |es| :: ReplyOk(es[i])
    requires id in Exec(PlatformPolicy(ttl), Initial(PlatformPolicy(ttl)), es).ops
    requires Exec(PlatformPolicy(ttl), Initial(PlatformPolicy(ttl)), es).ops[id].Done?
    ensures
      var op := Exec(PlatformPolicy(ttl), Initial(PlatformPolicy(ttl)), es).ops[id];
      op.answer.Ok? ==>
        && op.answer.value.manifestUrl != ""
        && match op.how
           case Fetched(_) => true
           case FastPath(written, _) => written <= op.at <= written + ttl
           case GracePath(kind, written, _) => written <= op.at < written + 2 * ttl
           case Failed => false
  {
    AnswersExplained(PlatformPolicy(ttl), es, id);
  }

  /** ... and the Hub served it at most two TTLs and one refresh ago. */
  lemma PlatformFreshness(ttl: nat, d: nat, hub: nat -> PlatformConfig, es: seq<Event<PlatformConfig>>, id: nat)
    requires Honest(PlatformPolicy(ttl), Initial(PlatformPolicy(ttl)), es, hub, d)
    requires forall i | 0 <= i < |es| :: ReplyOk(es[i])
    requires id in Exec(PlatformPolicy(ttl), Initial(PlatformPolicy(ttl)), es).ops
    requires Exec(PlatformPolicy(ttl), Initial(PlatformPolicy(ttl)), es).ops[id].Done?
    ensures
      var op := Exec(PlatformPolicy(ttl), Initial(PlatformPolicy(ttl)), es).ops[id];
      op.answer.Ok? ==> exists served: nat :: op.at - 2 * ttl - d <= served <= op.at && op.answer.value == hub(served)
  {
    AnswersExplained(PlatformPolicy(ttl), es, id);
    AnswersFresh(PlatformPolicy(ttl), es, id, hub, d);
    var op := Exec(PlatformPolicy(ttl), Initial(PlatformPolicy(ttl)), es).ops[id];
    if op.answer.Ok? {
      var served := op.how.origin;
      assert op.at - 2 * ttl - d <= served <= op.at && op.answer.value == hub(served);
    }
  }

  // ---------- Which route is found ----------

  lemma {:induction false} FindRouteConcat(a: seq<RouteEntry>, b: seq<RouteEntry>, model: string)
    ensures FindRoute(a + b, model) == if FindRoute(a, model).Route? then FindRoute(a, model) else FindRoute(b, model)
    decreases |a|
  {
    if a == [] {
      assert a + b == b;
    } else {
      assert (a + b)[1..] == a[1..] + b;
      FindRouteConcat(a[1..], b, model);
    }
  }

  /** The route found is the first entry of the Hub's own list that is both valid and
      matching; invalid entries never shadow valid ones. */
  lemma {:induction false} FirstValidMatch(raw: seq<RouteEntry>, model: string)
    ensures
      match FindRoute(ValidOnly(raw), model)
      case Route(e) => exists i :: 0 <= i < |raw| && raw[i] == e && Good(e, model) && forall j | 0 <= j < i :: !Good(raw[j], model)
      case ModelNotFound => forall i | 0 <= i < |raw| :: !Good(raw[i], model)
      case _ => false
    decreases |raw|
  {
    if raw != [] {
      var n := |raw| - 1;
      FirstValidMatch(raw[..n], model);
      var tail := if ValidEntry(raw[n]) then [raw[n]] else [];
      FindRouteConcat(ValidOnly(raw[..n]), tail, model);
      match FindRoute(ValidOnly(raw[..n]), model)
      case Route(e) =>
        var i :| 0 <= i < n && raw[..n][i] == e && Good(e, model) && forall j | 0 <= j < i :: !Good(raw[..n][j], model);
        assert raw[i] == e && forall j | 0 <= j < i :: raw[..n][j] == raw[j];
      case ModelNotFound =>
        assert forall i | 0 <= i < n :: raw[..n][i] == raw[i];
        assert Good(raw[n], model) ==> raw[n] == raw[|raw| - 1];
      case _ =>
    }
  }
}
