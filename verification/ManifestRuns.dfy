/** Every interleaving of manifest requests with each other and with the client's own
    operations: two caches, one behind the other. */
module ManifestRuns {
  import opened YadManifest
  import T = TtlCache
  import C = CoreClient

  /** A platform config as a request saw it: answered at `at`, served by the Hub at `hubAt`. */
  datatype Seen = Seen(cfg: C.PlatformConfig, at: nat, hubAt: nat)

  /** How a request came by its answer; `from` is the config whose URL the manifest was
      downloaded from, `written` when it was stored, `origin` when it was served. */
  datatype How =
    | Cached(current: Seen, from: Seen, written: nat, origin: nat)
    | Fetched(from: Seen, origin: nat)
    | Recalled(from: Seen, written: nat, origin: nat)
    | Failed

  datatype Phase =
    | Asking(pid: nat)
    | Looking(seen: Seen)
    | Downloading(seen: Seen, start: nat)
    | Committing(seen: Seen, manifest: Manifest, start: nat, origin: nat)
    | Recalling(problem: Problem)
    | Done(answer: Answer, at: nat, how: How)

  /** `from` and `origin` are history: where the stored manifest came from. */
  datatype State = State(client: T.State<C.PlatformConfig>, stored: Stored, from: Seen, origin: nat, ops: map<nat, Phase>)

  datatype Event =
    | Client(e: T.Event<C.PlatformConfig>)
    | Begin(id: nat, pid: nat)
    | BeginAlone(id: nat)
    | Configured(id: nat)
    | Look(id: nat)
    | Receive(id: nat, download: Download, origin: nat)
    | Recall(id: nat)
    | Store(id: nat, t1: nat, t2: nat)

  /** The TTLs of the client's cache and of the manifest cache. */
  datatype Ttls = Ttls(client: nat, manifest: nat)

  function Initial(ttl: Ttls): State {
    State(T.Initial(C.PlatformPolicy(ttl.client)), NOTHING, Seen(C.NO_PLATFORM, 0, 0), 0, map[])
  }

  function Configure(op: T.Phase<C.PlatformConfig>): Phase
    requires op.Done?
  {
    match op.answer
    case Ok(cfg) => Looking(Seen(cfg, op.at, if op.how.Failed? then 0 else op.how.origin))
    case Err(_) => Recalling(Unavailable)
  }

  function RecallAnswer(st: Stored, ttl: nat, now: nat, problem: Problem): Answer {
    var cached := CachedSpec(st, ttl, now);
    if cached.Ok? then cached else Err(problem)
  }

  /** One step; an event that does not apply does nothing. */
  function Apply(ttl: Ttls, s: State, e: Event): State {
    match e
    case Client(ce) => s.(client := T.Apply(C.PlatformPolicy(ttl.client), s.client, ce))
    case Begin(id, pid) => if id in s.ops || pid in s.client.ops then s else s.(ops := s.ops[id := Asking(pid)])
    case BeginAlone(id) => if id in s.ops then s else s.(ops := s.ops[id := Recalling(Unavailable)])
    case Configured(id) =>
      if id !in s.ops || !s.ops[id].Asking? || s.ops[id].pid !in s.client.ops || !s.client.ops[s.ops[id].pid].Done? then s
      else s.(ops := s.ops[id := Configure(s.client.ops[s.ops[id].pid])])
    case Look(id) =>
      if id !in s.ops || !s.ops[id].Looking? then s
      else
        var seen := s.ops[id].seen;
        s.(ops := s.ops[id :=
          if Hit(s.stored, ConfigKey(seen.cfg), s.client.clock) then
            Done(Ok(s.stored.manifest), s.client.clock, Cached(seen, s.from, s.stored.lastFetch, s.origin))
          else Downloading(seen, s.client.clock)])
    case Receive(id, download, origin) =>
      if id !in s.ops || !s.ops[id].Downloading? then s
      else
        s.(ops := s.ops[id :=
          match Judge(download)
          case Ok(m) => Committing(s.ops[id].seen, m, s.ops[id].start, origin)
          case Err(problem) => Recalling(problem)])
    case Recall(id) =>
      if id !in s.ops || !s.ops[id].Recalling? then s
      else
        var answer := RecallAnswer(s.stored, ttl.manifest, s.client.clock, s.ops[id].problem);
        s.(ops := s.ops[id :=
          Done(answer, s.client.clock, if answer.Ok? then Recalled(s.from, s.stored.lastFetch, s.origin) else Failed)])
    case Store(id, t1, t2) =>
      if id !in s.ops || !s.ops[id].Committing? || !(s.client.clock <= t1 <= t2) then s
      else
        var op := s.ops[id];
        State(s.client.(clock := t2), CommitSpec(op.seen.cfg, op.manifest, ttl.manifest, t1, t2), op.seen, op.origin,
              s.ops[id := Done(Ok(op.manifest), t2, Fetched(op.seen, op.origin))])
  }

  function Exec(ttl: Ttls, s: State, es: seq<Event>): State
    decreases |es|
  {
    if es == [] then s else Exec(ttl, Apply(ttl, s, es[0]), es[1..])
  }

  // ---------- What every run keeps ----------

  /** The stored manifest is empty or valid; URL and key are those of the one config it
      was downloaded for; it expires at most one TTL after it was stored. */
  predicate StoredOk(s: State, ttl: nat) {
    && (s.stored.manifest.models != [] ==> ValidManifest(s.stored.manifest))
    && (s.stored != NOTHING ==> s.stored.sourceUrl == s.from.cfg.manifestUrl && s.stored.configKey == ConfigKey(s.from.cfg))
    && s.stored.expiresAt <= s.stored.lastFetch + ttl && s.stored.lastFetch <= s.client.clock
  }

  /** Every error-free answer is valid and under one TTL old, or two when recalled. */
  predicate AnswerOk(answer: Answer, at: nat, how: How, ttl: nat) {
    match how
    case Cached(current, from, written, _) =>
      answer.Ok? && ValidManifest(answer.manifest) && ConfigKey(current.cfg) == ConfigKey(from.cfg) && written <= at < written + ttl
    case Fetched(_, _) => answer.Ok? && ValidManifest(answer.manifest)
    case Recalled(_, written, _) => answer.Ok? && ValidManifest(answer.manifest) && written <= at < written + 2 * ttl
    case Failed => answer.Err?
  }

  predicate PhaseOk(phase: Phase, ttl: nat) {
    match phase
    case Committing(_, m, _, _) => ValidManifest(m)
    case Done(answer, at, how) => AnswerOk(answer, at, how, ttl)
    case _ => true
  }

  predicate Inv(ttl: Ttls, s: State) {
    StoredOk(s, ttl.manifest) && forall id | id in s.ops :: PhaseOk(s.ops[id], ttl.manifest)
  }

  lemma ClientClock(p: T.Policy<C.PlatformConfig>, s: T.State<C.PlatformConfig>, e: T.Event<C.PlatformConfig>)
    ensures s.clock <= T.Apply(p, s, e).clock
  {
  }

  lemma StepKeepsInv(ttl: Ttls, s: State, e: Event)
    requires Inv(ttl, s)
    ensures Inv(ttl, Apply(ttl, s, e))
  {
    var s' := Apply(ttl, s, e);
    if e.Client? {
      ClientClock(C.PlatformPolicy(ttl.client), s.client, e.e);
    }
    forall id | id in s'.ops ensures PhaseOk(s'.ops[id], ttl.manifest) {
      if id in s.ops { assert PhaseOk(s.ops[id], ttl.manifest); }
    }
    if e.Store? && e.id in s.ops {
      assert PhaseOk(s.ops[e.id], ttl.manifest);
    }
  }

  lemma {:induction false} RunKeepsInv(ttl: Ttls, s: State, es: seq<Event>)
    requires Inv(ttl, s)
    ensures Inv(ttl, Exec(ttl, s, es))
    decreases |es|
  {
    if es != [] {
      StepKeepsInv(ttl, s, es[0]);
      RunKeepsInv(ttl, Apply(ttl, s, es[0]), es[1..]);
    }
  }

  /** Whatever the Hub, the network and the other requests do. */
  lemma StoredManifestIsValid(ttl: Ttls, es: seq<Event>)
    ensures
      var s := Exec(ttl, Initial(ttl), es);
      && (s.stored.manifest.models == [] || ValidManifest(s.stored.manifest))
      && (s.stored != NOTHING ==> s.stored.sourceUrl == s.from.cfg.manifestUrl && s.stored.configKey == ConfigKey(s.from.cfg))
  {
    RunKeepsInv(ttl, Initial(ttl), es);
  }

  lemma AnswersAreValid(ttl: Ttls, es: seq<Event>, id: nat)
    requires id in Exec(ttl, Initial(ttl), es).ops && Exec(ttl, Initial(ttl), es).ops[id].Done?
    ensures
      var op := Exec(ttl, Initial(ttl), es).ops[id];
      op.answer.Ok? ==>
        && ValidManifest(op.answer.manifest)
        && match op.how
           case Cached(_, _, written, _) => written <= op.at < written + ttl.manifest
           case Fetched(_, _) => true
           case Recalled(_, written, _) => written <= op.at < written + 2 * ttl.manifest
           case Failed => false
  {
    RunKeepsInv(ttl, Initial(ttl), es);
    assert PhaseOk(Exec(ttl, Initial(ttl), es).ops[id], ttl.manifest);
  }

  // ---------- Where answers come from, and how old they are ----------

  /** `hub(t)` is the Hub's platform config at t, `web(url, t, m)` says that m could be
      downloaded from url at t; `d1` and `d2` bound how long a refresh of either cache
      takes from its request to its commit. */
  datatype World = World(hub: nat -> C.PlatformConfig, web: (string, nat, Manifest) -> bool, d1: nat, d2: nat)

  ghost predicate HonestStep(w: World, s: State, e: Event) {
    match e
    case Client(ce) => T.HonestStep(s.client, ce, w.hub, w.d1) && T.ReplyOk(ce)
    case Receive(id, Body(m), origin) =>
      id in s.ops && s.ops[id].Downloading? ==>
        w.web(s.ops[id].seen.cfg.manifestUrl, origin, m) && s.ops[id].start <= origin <= s.client.clock
    case Store(id, _, t2) => id in s.ops && s.ops[id].Committing? ==> t2 <= s.ops[id].start + w.d2
    case _ => true
  }

  ghost predicate Honest(ttl: Ttls, w: World, s: State, es: seq<Event>)
    decreases |es|
  {
    es == [] || (HonestStep(w, s, es[0]) && Honest(ttl, w, Apply(ttl, s, es[0]), es[1..]))
  }

  /** The Hub served the config at most two client TTLs and one refresh before it was
      answered. */
  predicate SeenOk(ttl: nat, w: World, seen: Seen) {
    seen.cfg == w.hub(seen.hubAt) && seen.hubAt <= seen.at <= seen.hubAt + 2 * ttl + w.d1
  }

  predicate Downloaded(w: World, from: Seen, origin: nat, m: Manifest) {
    w.web(from.cfg.manifestUrl, origin, m)
  }

  predicate AnswerFresh(ttl: Ttls, w: World, answer: Answer, at: nat, how: How) {
    match how
    case Cached(current, from, _, origin) =>
      && SeenOk(ttl.client, w, current) && SeenOk(ttl.client, w, from) && answer.Ok?
      && Downloaded(w, from, origin, answer.manifest) && origin <= at < origin + ttl.manifest + w.d2
    case Fetched(from, origin) =>
      SeenOk(ttl.client, w, from) && answer.Ok? && Downloaded(w, from, origin, answer.manifest) && origin <= at <= origin + w.d2
    case Recalled(from, _, origin) =>
      && SeenOk(ttl.client, w, from) && answer.Ok?
      && Downloaded(w, from, origin, answer.manifest) && origin <= at < origin + 2 * ttl.manifest + w.d2
    case Failed => true
  }

  predicate PhaseFresh(ttl: Ttls, w: World, clock: nat, phase: Phase) {
    match phase
    case Looking(seen) => SeenOk(ttl.client, w, seen)
    case Downloading(seen, start) => SeenOk(ttl.client, w, seen) && start <= clock
    case Committing(seen, m, start, origin) => SeenOk(ttl.client, w, seen) && Downloaded(w, seen, origin, m) && start <= origin <= clock
    case Done(answer, at, how) => AnswerFresh(ttl, w, answer, at, how)
    case _ => true
  }

  predicate StoredFresh(ttl: Ttls, w: World, s: State) {
    s.stored.manifest.models != [] ==>
      && SeenOk(ttl.client, w, s.from) && Downloaded(w, s.from, s.origin, s.stored.manifest) && s.origin <= s.client.clock
      && s.stored.expiresAt <= s.origin + ttl.manifest + w.d2 && s.stored.lastFetch <= s.origin + w.d2
  }

  ghost predicate FreshInv(ttl: Ttls, w: World, s: State) {
    && T.Inv(C.PlatformPolicy(ttl.client), s.client) && T.FreshInv(C.PlatformPolicy(ttl.client), s.client, w.hub, w.d1)
    && StoredFresh(ttl, w, s) && forall id | id in s.ops :: PhaseFresh(ttl, w, s.client.clock, s.ops[id])
  }

  lemma ClientKeepsFresh(ttl: Ttls, w: World, s: State, e: T.Event<C.PlatformConfig>)
    requires FreshInv(ttl, w, s) && HonestStep(w, s, Client(e))
    ensures FreshInv(ttl, w, Apply(ttl, s, Client(e)))
  {
    var p := C.PlatformPolicy(ttl.client);
    ClientClock(p, s.client, e);
    T.StepKeepsInv(p, s.client, e);
    T.StepKeepsFresh(p, s.client, e, w.hub, w.d1);
    var s' := Apply(ttl, s, Client(e));
    forall id | id in s'.ops ensures PhaseFresh(ttl, w, s'.client.clock, s'.ops[id]) {
      assert PhaseFresh(ttl, w, s.client.clock, s.ops[id]);
    }
  }

  /** A config the client answered was served by the Hub not long before. */
  lemma ConfiguredIsFresh(ttl: Ttls, w: World, s: State, pid: nat)
    requires FreshInv(ttl, w, s) && pid in s.client.ops && s.client.ops[pid].Done?
    ensures PhaseFresh(ttl, w, s.client.clock, Configure(s.client.ops[pid]))
  {
    var p := C.PlatformPolicy(ttl.client);
    assert T.PhaseOk(p, s.client.ops[pid]) && T.PhaseFresh(p, s.client.clock, s.client.ops[pid], w.hub, w.d1);
  }

  /** Advancing the clock harms nothing. */
  lemma LaterClient(p: T.Policy<C.PlatformConfig>, s: T.State<C.PlatformConfig>, to: nat, hub: nat -> C.PlatformConfig, d: nat)
    requires T.Inv(p, s) && T.FreshInv(p, s, hub, d) && s.clock <= to
    ensures T.Inv(p, s.(clock := to)) && T.FreshInv(p, s.(clock := to), hub, d)
  {
    T.StepKeepsInv(p, s, T.Tick(to));
    T.StepKeepsFresh(p, s, T.Tick(to), hub, d);
  }

  lemma OpKeepsFresh(ttl: Ttls, w: World, s: State, e: Event, id: nat)
    requires FreshInv(ttl, w, s) && HonestStep(w, s, e) && !e.Client? && id in Apply(ttl, s, e).ops
    ensures PhaseFresh(ttl, w, Apply(ttl, s, e).client.clock, Apply(ttl, s, e).ops[id])
  {
    if id in s.ops {
      assert PhaseFresh(ttl, w, s.client.clock, s.ops[id]);
      if e == Configured(id) && s.ops[id].Asking? {
        var pid := s.ops[id].pid;
        if pid in s.client.ops && s.client.ops[pid].Done? {
          ConfiguredIsFresh(ttl, w, s, pid);
        }
      }
    }
  }

  lemma StoreKeepsFresh(ttl: Ttls, w: World, s: State, e: Event)
    requires FreshInv(ttl, w, s) && HonestStep(w, s, e) && !e.Client?
    ensures
      var s' := Apply(ttl, s, e);
      && T.Inv(C.PlatformPolicy(ttl.client), s'.client) && T.FreshInv(C.PlatformPolicy(ttl.client), s'.client, w.hub, w.d1)
      && StoredFresh(ttl, w, s')
  {
    if e.Store? && e.id in s.ops && s.ops[e.id].Committing? && s.client.clock <= e.t1 <= e.t2 {
      LaterClient(C.PlatformPolicy(ttl.client), s.client, e.t2, w.hub, w.d1);
      assert PhaseFresh(ttl, w, s.client.clock, s.ops[e.id]);
    }
  }

  lemma StepKeepsFresh(ttl: Ttls, w: World, s: State, e: Event)
    requires FreshInv(ttl, w, s) && HonestStep(w, s, e)
    ensures FreshInv(ttl, w, Apply(ttl, s, e))
  {
    if e.Client? {
      ClientKeepsFresh(ttl, w, s, e.e);
      return;
    }
    StoreKeepsFresh(ttl, w, s, e);
    forall id | id in Apply(ttl, s, e).ops ensures PhaseFresh(ttl, w, Apply(ttl, s, e).client.clock, Apply(ttl, s, e).ops[id]) {
      OpKeepsFresh(ttl, w, s, e, id);
    }
  }

  lemma {:induction false} RunKeepsFresh(ttl: Ttls, w: World, s: State, es: seq<Event>)
    requires FreshInv(ttl, w, s) && Honest(ttl, w, s, es)
    ensures FreshInv(ttl, w, Exec(ttl, s, es))
    decreases |es|
  {
    if es != [] {
      StepKeepsFresh(ttl, w, s, es[0]);
      RunKeepsFresh(ttl, w, Apply(ttl, s, es[0]), es[1..]);
    }
  }

  /** Every manifest answered could be downloaded at most two TTLs and one refresh ago
      from a URL the Hub had named; and if the Hub's dates hold no "|", the fast path
      answers with a manifest from the very URL in the current config. */
  lemma AnswersAreFresh(ttl: Ttls, w: World, es: seq<Event>, id: nat)
    requires Honest(ttl, w, Initial(ttl), es)
    requires id in Exec(ttl, Initial(ttl), es).ops && Exec(ttl, Initial(ttl), es).ops[id].Done?
    ensures
      var op := Exec(ttl, Initial(ttl), es).ops[id];
      op.answer.Ok? ==>
        && !op.how.Failed?
        && SeenOk(ttl.client, w, op.how.from)
        && w.web(op.how.from.cfg.manifestUrl, op.how.origin, op.answer.manifest)
        && op.how.origin <= op.at <= op.how.origin + 2 * ttl.manifest + w.d2
        && (op.how.Cached? ==>
              && SeenOk(ttl.client, w, op.how.current) && op.at < op.how.origin + ttl.manifest + w.d2
              && ((forall t: nat :: '|' !in w.hub(t).updatedAt) ==>
                    w.web(op.how.current.cfg.manifestUrl, op.how.origin, op.answer.manifest)))
  {
    var s := Exec(ttl, Initial(ttl), es);
    RunKeepsInv(ttl, Initial(ttl), es);
    RunKeepsFresh(ttl, w, Initial(ttl), es);
    assert PhaseOk(s.ops[id], ttl.manifest) && PhaseFresh(ttl, w, s.client.clock, s.ops[id]);
    var op := s.ops[id];
    if op.how.Cached? && forall t: nat :: '|' !in w.hub(t).updatedAt {
      KeyInjective(op.how.current.cfg, op.how.from.cfg);
    }
  }

  // ---------- The grace period serves ----------

  predicate IsFetched(phase: Phase) {
    phase.Done? && phase.how.Fetched?
  }

  predicate IsRefused(phase: Phase) {
    phase.Done? && phase.answer.Err?
  }

  predicate OpShielded(stored: Stored, clock: nat, phase: Phase) {
    && (phase.Committing? ==> phase.manifest.models != [])
    && (phase.Done? ==> phase.at <= clock)
    && (IsFetched(phase) ==> stored.manifest.models != [] && phase.at <= stored.lastFetch)
  }

  /** A refusal lies two TTLs after every earlier download. */
  predicate Spaced(ttl: nat, fetched: Phase, refused: Phase) {
    IsFetched(fetched) && IsRefused(refused) && fetched.at < refused.at ==> fetched.at + 2 * ttl <= refused.at
  }

  /** The last successful download shields everybody for two TTLs. */
  ghost predicate ShieldInv(ttl: nat, s: State) {
    && s.stored.lastFetch <= s.client.clock
    && (forall a | a in s.ops :: OpShielded(s.stored, s.client.clock, s.ops[a]))
    && (forall a, b | a in s.ops && b in s.ops :: Spaced(ttl, s.ops[a], s.ops[b]))
  }

  lemma StepKeepsOp(ttl: Ttls, s: State, e: Event, a: nat)
    requires ShieldInv(ttl.manifest, s) && a in Apply(ttl, s, e).ops
    ensures OpShielded(Apply(ttl, s, e).stored, Apply(ttl, s, e).client.clock, Apply(ttl, s, e).ops[a])
  {
    if e.Client? { ClientClock(C.PlatformPolicy(ttl.client), s.client, e.e); }
    assert a in s.ops ==> OpShielded(s.stored, s.client.clock, s.ops[a]);
    if e.Store? && e.id in s.ops { assert OpShielded(s.stored, s.client.clock, s.ops[e.id]); }
  }

  lemma StepKeepsSpacing(ttl: Ttls, s: State, e: Event, a: nat, b: nat)
    requires ShieldInv(ttl.manifest, s) && a in Apply(ttl, s, e).ops && b in Apply(ttl, s, e).ops
    ensures Spaced(ttl.manifest, Apply(ttl, s, e).ops[a], Apply(ttl, s, e).ops[b])
  {
    var ops, ops' := s.ops, Apply(ttl, s, e).ops;
    if IsFetched(ops'[a]) && IsRefused(ops'[b]) {
      if b in ops { assert OpShielded(s.stored, s.client.clock, ops[b]); }
      if a in ops && ops'[a] == ops[a] {
        if b in ops && ops'[b] == ops[b] {
          assert Spaced(ttl.manifest, ops[a], ops[b]);
        } else {
          assert OpShielded(s.stored, s.client.clock, ops[a]);
        }
      }
    }
  }

  lemma StepKeepsShield(ttl: Ttls, s: State, e: Event)
    requires ShieldInv(ttl.manifest, s)
    ensures ShieldInv(ttl.manifest, Apply(ttl, s, e))
  {
    var s' := Apply(ttl, s, e);
    if e.Client? { ClientClock(C.PlatformPolicy(ttl.client), s.client, e.e); }
    forall a | a in s'.ops ensures OpShielded(s'.stored, s'.client.clock, s'.ops[a]) { StepKeepsOp(ttl, s, e, a); }
    forall a, b | a in s'.ops && b in s'.ops ensures Spaced(ttl.manifest, s'.ops[a], s'.ops[b]) { StepKeepsSpacing(ttl, s, e, a, b); }
  }

  lemma {:induction false} RunKeepsShield(ttl: Ttls, s: State, es: seq<Event>)
    requires ShieldInv(ttl.manifest, s)
    ensures ShieldInv(ttl.manifest, Exec(ttl, s, es))
    decreases |es|
  {
    if es != [] {
      StepKeepsShield(ttl, s, es[0]);
      RunKeepsShield(ttl, Apply(ttl, s, es[0]), es[1..]);
    }
  }

  /** Within two TTLs of a successful download every get is answered with a valid
      manifest, whatever the Hub, the network and the other gets do. */
  lemma ManifestGrace(ttl: Ttls, es: seq<Event>, a: nat, b: nat)
    requires a in Exec(ttl, Initial(ttl), es).ops && IsFetched(Exec(ttl, Initial(ttl), es).ops[a])
    requires b in Exec(ttl, Initial(ttl), es).ops && Exec(ttl, Initial(ttl), es).ops[b].Done?
    ensures
      var ops := Exec(ttl, Initial(ttl), es).ops;
      ops[a].at < ops[b].at < ops[a].at + 2 * ttl.manifest ==> ops[b].answer.Ok? && ValidManifest(ops[b].answer.manifest)
  {
    RunKeepsShield(ttl, Initial(ttl), es);
    var ops := Exec(ttl, Initial(ttl), es).ops;
    assert Spaced(ttl.manifest, ops[a], ops[b]);
    AnswersAreValid(ttl, es, b);
  }

  // ---------- The sequential code is a run ----------

  function Lift(es: seq<T.Event<C.PlatformConfig>>): (r: seq<Event>)
    ensures |r| == |es|
  {
    seq(|es|, i requires 0 <= i < |es| => Client(es[i]))
  }

  lemma {:induction false} ExecLift(ttl: Ttls, s: State, es: seq<T.Event<C.PlatformConfig>>)
    ensures Exec(ttl, s, Lift(es)) == s.(client := T.Exec(C.PlatformPolicy(ttl.client), s.client, es))
    decreases |es|
  {
    if es != [] {
      assert Lift(es)[0] == Client(es[0]) && Lift(es)[1..] == Lift(es[1..]);
      ExecLift(ttl, Apply(ttl, s, Client(es[0])), es[1..]);
    }
  }

  lemma {:induction false} ExecConcat(ttl: Ttls, s: State, es: seq<Event>, fs: seq<Event>)
    ensures Exec(ttl, s, es + fs) == Exec(ttl, Exec(ttl, s, es), fs)
    decreases |es|
  {
    if es == [] {
      assert es + fs == fs;
    } else {
      assert (es + fs)[0] == es[0] && (es + fs)[1..] == es[1..] + fs;
      ExecConcat(ttl, Apply(ttl, s, es[0]), es[1..], fs);
    }
  }

  lemma ExecCons(ttl: Ttls, s: State, e: Event, rest: seq<Event>)
    ensures Exec(ttl, s, [e] + rest) == Exec(ttl, Apply(ttl, s, e), rest)
  {
    assert ([e] + rest)[1..] == rest;
  }

  /** What a get does once the client has answered; the events that do not apply on the
      way it takes do nothing. */
  function Rest(id: nat, d: Download, origin: nat, t: Times): seq<Event> {
    [Client(T.Tick(t.lookAt))] + ([Look(id)] + ([Receive(id, d, origin)]
    + ([Store(id, t.t1, t.t2)] + ([Client(T.Tick(t.failAt))] + ([Recall(id)] + [])))))
  }

  lemma RestIsSpec(ttl: Ttls, s: State, id: nat, d: Download, origin: nat, t: Times, config: T.Answer<C.PlatformConfig>)
    requires id in s.ops && s.client.clock <= t.lookAt <= t.failAt && t.lookAt <= t.t1 <= t.t2
    requires match config case Ok(cfg) => s.ops[id].Looking? && s.ops[id].seen.cfg == cfg case Err(_) => s.ops[id] == Recalling(Unavailable)
    ensures
      var s' := Exec(ttl, s, Rest(id, d, origin, t));
      var (stored, answer) := GetSpec(s.stored, ttl.manifest, config, d, t);
      s'.stored == stored && id in s'.ops && s'.ops[id].Done? && s'.ops[id].answer == answer && s'.client.cache == s.client.cache
  {
    var e1, e2, e3, e4, e5, e6 := Client(T.Tick(t.lookAt)), Look(id), Receive(id, d, origin), Store(id, t.t1, t.t2), Client(T.Tick(t.failAt)), Recall(id);
    var s1 := Apply(ttl, s, e1);
    var s2 := Apply(ttl, s1, e2);
    var s3 := Apply(ttl, s2, e3);
    var s4 := Apply(ttl, s3, e4);
    var s5 := Apply(ttl, s4, e5);
    ExecCons(ttl, s, e1, [e2] + ([e3] + ([e4] + ([e5] + ([e6] + [])))));
    ExecCons(ttl, s1, e2, [e3] + ([e4] + ([e5] + ([e6] + []))));
    ExecCons(ttl, s2, e3, [e4] + ([e5] + ([e6] + [])));
    ExecCons(ttl, s3, e4, [e5] + ([e6] + []));
    ExecCons(ttl, s4, e5, [e6] + []);
    ExecCons(ttl, s5, e6, []);
  }

  /** The method Get, uninterrupted, is one of the runs above: both caches and the
      answer end as its contract says. */
  lemma GetIsARun(ttl: Ttls, s: State, id: nat, pid: nat, reply: T.Reply<C.PlatformConfig>, hubAt: nat, ct: T.Times,
                  d: Download, origin: nat, t: Times)
    requires id !in s.ops && pid !in s.client.ops && s.client.clock <= ct.now <= ct.checkAt && ct.now <= ct.t1 <= ct.t2
    requires ct.checkAt <= t.lookAt && ct.t2 <= t.lookAt <= t.failAt && t.lookAt <= t.t1 <= t.t2
    ensures exists es: seq<Event> ::
      var s' := Exec(ttl, s, es);
      var (platform, config) := T.GetSpec(C.PlatformPolicy(ttl.client), s.client.cache, reply, ct);
      var (stored, answer) := GetSpec(s.stored, ttl.manifest, config, d, t);
      s'.client.cache == platform && s'.stored == stored && id in s'.ops && s'.ops[id].Done? && s'.ops[id].answer == answer
  {
    var p := C.PlatformPolicy(ttl.client);
    var (platform, config) := T.GetSpec(p, s.client.cache, reply, ct);
    var asked := T.GetEvents(p, pid, reply, hubAt, ct);
    var s1 := Apply(ttl, s, Begin(id, pid));
    T.GetIsARun(p, s1.client, pid, reply, hubAt, ct);
    ExecLift(ttl, s1, asked);
    var s2 := Exec(ttl, s1, Lift(asked));
    var s3 := Apply(ttl, s2, Configured(id));
    RestIsSpec(ttl, s3, id, d, origin, t, config);
    ExecCons(ttl, s2, Configured(id), Rest(id, d, origin, t));
    ExecConcat(ttl, s1, Lift(asked), [Configured(id)] + Rest(id, d, origin, t));
    ExecCons(ttl, s, Begin(id, pid), Lift(asked) + ([Configured(id)] + Rest(id, d, origin, t)));
    assert Exec(ttl, s, [Begin(id, pid)] + (Lift(asked) + ([Configured(id)] + Rest(id, d, origin, t)))) == Exec(ttl, s3, Rest(id, d, origin, t));
  }
}
