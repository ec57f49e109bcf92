/** The shape shared by the routing cache and the platform-config cache: a value with
    an expiry, refreshed over the network, with a grace period of twice the TTL in
    which a failed refresh may still be answered.  The two differ in a policy. */
module TtlCache {
  import opened Wrappers

  datatype Failure = BadRequest | Transport | Status | Undecodable | Unusable | Unavailable

  datatype Answer<+T> = Ok(value: T) | Err(error: Failure)

  /** What a request to the Hub came to. */
  datatype Reply<+T> = Fails(kind: Failure) | Delivers(value: T)

  datatype Cache<+T> = Cache(value: T, expiresAt: nat, lastFetch: nat, error: Option<Failure>)

  /** `prepare` is applied to what arrives; `usable` says whether it can be served;
      an unusable value is either stored or treated as a failed refresh; a cached
      value in its grace period is either served or replaced by the blank value. */
  datatype Policy<!T> = Policy(ttl: nat, blank: T, prepare: T -> T, usable: T -> bool, storesUnusable: bool, servesGrace: bool)

  function Empty<T>(p: Policy<T>): Cache<T> {
    Cache(p.blank, 0, 0, None)
  }

  /** The read-locked check at the start of a get. */
  predicate Fresh<T>(p: Policy<T>, c: Cache<T>, now: nat) {
    now <= c.expiresAt && p.usable(c.value)
  }

  predicate InGrace<T>(p: Policy<T>, c: Cache<T>, now: nat) {
    p.usable(c.value) && now < c.lastFetch + 2 * p.ttl
  }

  /** The answer to a failed refresh. */
  function Fallback<T>(p: Policy<T>, c: Cache<T>, now: nat): Answer<T> {
    if InGrace(p, c, now) then Ok(if p.servesGrace then c.value else p.blank)
    else Err(if c.error.Some? then c.error.value else Unavailable)
  }

  function WithError<T>(c: Cache<T>, e: Failure): Cache<T> {
    c.(error := Some(e))
  }

  /** The write-locked commit; the clock is read once for the expiry, once more for
      the fetch time. */
  function Commit<T>(p: Policy<T>, c: Cache<T>, v: T, t1: nat, t2: nat): Cache<T> {
    Cache(v, t1 + p.ttl, t2, if p.usable(v) then None else Some(Unusable))
  }

  /** When the locked sections of an uninterrupted refresh run. */
  datatype Times = Times(now: nat, checkAt: nat, t1: nat, t2: nat)

  function RefreshSpec<T>(p: Policy<T>, c: Cache<T>, reply: Reply<T>, t: Times): (Cache<T>, Answer<T>) {
    match reply
    case Fails(kind) =>
      var c' := WithError(c, kind);
      if kind.BadRequest? then (c', Err(BadRequest)) else (c', Fallback(p, c', t.checkAt))
    case Delivers(raw) =>
      var v := p.prepare(raw);
      if p.usable(v) then (Commit(p, c, v, t.t1, t.t2), Ok(v))
      else if p.storesUnusable then (Commit(p, c, v, t.t1, t.t2), Err(Unusable))
      else (WithError(c, Unusable), Fallback(p, WithError(c, Unusable), t.checkAt))
  }

  function GetSpec<T>(p: Policy<T>, c: Cache<T>, reply: Reply<T>, t: Times): (Cache<T>, Answer<T>) {
    if Fresh(p, c, t.now) then (c, Ok(c.value)) else RefreshSpec(p, c, reply, t)
  }

  // ---------- What a stored value is good for ----------

  /** After a refresh that delivers a usable value: for one TTL from its expiry reading
      every get is answered with the value and leaves the cache alone, whatever its own
      request would bring. */
  lemma ServedForOneTtl<T>(p: Policy<T>, c: Cache<T>, raw: T, t: Times, reply: Reply<T>, u: Times)
    requires p.usable(p.prepare(raw)) && u.now <= t.t1 + p.ttl
    ensures
      var (c1, a) := RefreshSpec(p, c, Delivers(raw), t);
      a == Ok(p.prepare(raw)) && GetSpec(p, c1, reply, u) == (c1, Ok(p.prepare(raw)))
  {
  }

  /** From then on a get is answered as its own request demands: with a new value, or,
      if that fails, from the old one until two TTLs after it was fetched, where the
      policy serves it, and with the failure after that. */
  lemma RefreshedAfterwards<T>(p: Policy<T>, c: Cache<T>, raw: T, t: Times, reply: Reply<T>, u: Times)
    requires p.usable(p.prepare(raw)) && t.t1 + p.ttl < u.now
    ensures
      var c1 := RefreshSpec(p, c, Delivers(raw), t).0;
      var (c2, a) := GetSpec(p, c1, reply, u);
      && c1.error == None && c1.lastFetch == t.t2
      && match reply
         case Delivers(next) =>
           var v := p.prepare(next);
           && (p.usable(v) ==> a == Ok(v) && c2.value == v)
           && (!p.usable(v) && p.storesUnusable ==> a == Err(Unusable) && c2.value == v && c2.error == Some(Unusable))
           && (!p.usable(v) && !p.storesUnusable ==> c2.value == p.prepare(raw) && Refused(p, p.prepare(raw), t.t2, Unusable, u.checkAt, a))
         case Fails(kind) =>
           && c2.value == p.prepare(raw) && c2.error == Some(kind)
           && if kind.BadRequest? then a == Err(BadRequest) else Refused(p, p.prepare(raw), t.t2, kind, u.checkAt, a)
  {
  }

  /** A failed refresh, answered from the value v fetched at `fetched`, or not. */
  predicate Refused<T(==)>(p: Policy<T>, v: T, fetched: nat, kind: Failure, now: nat, a: Answer<T>) {
    if now < fetched + 2 * p.ttl then a == Ok(if p.servesGrace then v else p.blank) else a == Err(kind)
  }

  // ---------- Concurrent gets and refreshes ----------

  /** How an operation came by its answer; `written` is when the value was cached,
      `origin` the moment the Hub served it. */
  datatype How = FastPath(written: nat, origin: nat) | Fetched(origin: nat) | GracePath(kind: Failure, written: nat, origin: nat) | Failed

  datatype Phase<+T> =
    | Entering
    | Fetching(start: nat)
    | Checking(kind: Failure)
    | Committing(start: nat, value: T, origin: nat)
    | Done(answer: Answer<T>, at: nat, how: How)

  /** `origin` is history: when the Hub served the cached value. */
  datatype State<+T> = State(clock: nat, cache: Cache<T>, origin: nat, ops: map<nat, Phase<T>>)

  datatype Event<+T> =
    | Tick(to: nat)
    | Get(id: nat)
    | Background(id: nat)
    | FastRead(id: nat)
    | Receive(id: nat, reply: Reply<T>, origin: nat)
    | Check(id: nat)
    | Store(id: nat, t1: nat, t2: nat)

  function Initial<T>(p: Policy<T>): State<T> {
    State(0, Empty(p), 0, map[])
  }

  function Received<T>(p: Policy<T>, s: State<T>, start: nat, reply: Reply<T>, origin: nat): (Cache<T>, Phase<T>) {
    match reply
    case Fails(kind) =>
      (WithError(s.cache, kind), if kind.BadRequest? then Done(Err(BadRequest), s.clock, Failed) else Checking(kind))
    case Delivers(raw) =>
      var v := p.prepare(raw);
      if p.usable(v) then (s.cache, Committing(start, v, origin))
      else if p.storesUnusable then (WithError(s.cache, Unusable), Committing(start, v, origin))
      else (WithError(s.cache, Unusable), Checking(Unusable))
  }

  /** One step; an event that does not apply does nothing. */
  function Apply<T>(p: Policy<T>, s: State<T>, e: Event<T>): State<T> {
    match e
    case Tick(to) => if to < s.clock then s else s.(clock := to)
    case Get(id) => if id in s.ops then s else s.(ops := s.ops[id := Entering])
    case Background(id) => if id in s.ops then s else s.(ops := s.ops[id := Fetching(s.clock)])
    case FastRead(id) =>
      if id !in s.ops || !s.ops[id].Entering? then s
      else if Fresh(p, s.cache, s.clock) then
        s.(ops := s.ops[id := Done(Ok(s.cache.value), s.clock, FastPath(s.cache.lastFetch, s.origin))])
      else s.(ops := s.ops[id := Fetching(s.clock)])
    case Receive(id, reply, origin) =>
      if id !in s.ops || !s.ops[id].Fetching? then s
      else
        var (cache, phase) := Received(p, s, s.ops[id].start, reply, origin);
        s.(cache := cache, ops := s.ops[id := phase])
    case Check(id) =>
      if id !in s.ops || !s.ops[id].Checking? then s
      else
        var answer := Fallback(p, s.cache, s.clock);
        s.(ops := s.ops[id := Done(answer, s.clock, if answer.Ok? then GracePath(s.ops[id].kind, s.cache.lastFetch, s.origin) else Failed)])
    case Store(id, t1, t2) =>
      if id !in s.ops || !s.ops[id].Committing? || !(s.clock <= t1 <= t2) then s
      else
        var v := s.ops[id].value;
        State(t2, Commit(p, s.cache, v, t1, t2), s.ops[id].origin,
              s.ops[id := if p.usable(v) then Done(Ok(v), t2, Fetched(s.ops[id].origin)) else Done(Err(Unusable), t2, Failed)])
  }

  function Exec<T>(p: Policy<T>, s: State<T>, es: seq<Event<T>>): State<T>
    decreases |es|
  {
    if es == [] then s else Exec(p, Apply(p, s, es[0]), es[1..])
  }

  /** A failure that the refresh answers from the cache. */
  predicate FallsBack<T>(p: Policy<T>, kind: Failure) {
    kind in {Transport, Status, Undecodable} || (kind == Unusable && !p.storesUnusable)
  }

  /** A value the cache may hold or hand out: something that was prepared. */
  ghost predicate Prepared<T(!new)>(p: Policy<T>, v: T) {
    exists raw :: v == p.prepare(raw)
  }

  // ---------- What every run keeps ----------

  /** Everything a finished operation's answer can be. */
  ghost predicate AnswerOk<T(!new)>(p: Policy<T>, answer: Answer<T>, at: nat, how: How) {
    match how
    case FastPath(written, _) => answer.Ok? && p.usable(answer.value) && Prepared(p, answer.value) && written <= at <= written + p.ttl
    case Fetched(_) => answer.Ok? && p.usable(answer.value) && Prepared(p, answer.value)
    case GracePath(kind, written, _) =>
      && FallsBack(p, kind) && written <= at < written + 2 * p.ttl && answer.Ok?
      && (if p.servesGrace then p.usable(answer.value) && Prepared(p, answer.value) else answer.value == p.blank)
    case Failed => answer.Err?
  }

  ghost predicate PhaseOk<T(!new)>(p: Policy<T>, phase: Phase<T>) {
    match phase
    case Entering => true
    case Fetching(_) => true
    case Checking(kind) => FallsBack(p, kind)
    case Committing(_, v, _) => Prepared(p, v) && (p.usable(v) || p.storesUnusable)
    case Done(answer, at, how) => AnswerOk(p, answer, at, how)
  }

  ghost predicate Inv<T(!new)>(p: Policy<T>, s: State<T>) {
    && s.cache.lastFetch <= s.clock
    && (p.usable(s.cache.value) ==> Prepared(p, s.cache.value) && s.cache.expiresAt <= s.cache.lastFetch + p.ttl)
    && (forall id | id in s.ops :: PhaseOk(p, s.ops[id]))
  }

  /** The Hub reports failures of four kinds. */
  predicate ReplyOk<T>(e: Event<T>) {
    e.Receive? && e.reply.Fails? ==> e.reply.kind in {BadRequest, Transport, Status, Undecodable}
  }

  lemma StepKeepsInv<T(!new)>(p: Policy<T>, s: State<T>, e: Event<T>)
    requires Inv(p, s) && ReplyOk(e)
    ensures Inv(p, Apply(p, s, e))
  {
    var s' := Apply(p, s, e);
    if e.Receive? && e.id in s.ops && s.ops[e.id].Fetching? && e.reply.Delivers? {
      assert Prepared(p, p.prepare(e.reply.value));
    }
    forall id | id in s'.ops ensures PhaseOk(p, s'.ops[id]) {
      if id in s.ops { assert PhaseOk(p, s.ops[id]); }
    }
    if e.Store? && e.id in s.ops && s.ops[e.id].Committing? {
      assert PhaseOk(p, s.ops[e.id]);
    }
  }

  lemma {:induction false} RunKeepsInv<T(!new)>(p: Policy<T>, s: State<T>, es: seq<Event<T>>)
    requires Inv(p, s) && forall i | 0 <= i < |es| :: ReplyOk(es[i])
    ensures Inv(p, Exec(p, s, es))
    decreases |es|
  {
    if es != [] {
      StepKeepsInv(p, s, es[0]);
      RunKeepsInv(p, Apply(p, s, es[0]), es[1..]);
    }
  }

  /** From an empty cache, every finished operation of every run is explained. */
  lemma AnswersExplained<T(!new)>(p: Policy<T>, es: seq<Event<T>>, id: nat)
    requires !p.usable(p.blank) && forall i | 0 <= i < |es| :: ReplyOk(es[i])
    requires id in Exec(p, Initial(p), es).ops && Exec(p, Initial(p), es).ops[id].Done?
    ensures
      var op := Exec(p, Initial(p), es).ops[id];
      AnswerOk(p, op.answer, op.at, op.how)
  {
    RunKeepsInv(p, Initial(p), es);
    assert PhaseOk(p, Exec(p, Initial(p), es).ops[id]);
  }

  // ---------- Freshness ----------

  /** What arrives is what the Hub served at some moment of the request, and the
      commit comes at most d after the request started. */
  ghost predicate HonestStep<T>(s: State<T>, e: Event<T>, hub: nat -> T, d: nat) {
    && (e.Receive? && e.reply.Delivers? && e.id in s.ops && s.ops[e.id].Fetching? ==>
          e.reply.value == hub(e.origin) && s.ops[e.id].start <= e.origin <= s.clock)
    && (e.Store? && e.id in s.ops && s.ops[e.id].Committing? ==> e.t2 <= s.ops[e.id].start + d)
  }

  ghost predicate Honest<T>(p: Policy<T>, s: State<T>, es: seq<Event<T>>, hub: nat -> T, d: nat)
    decreases |es|
  {
    es == [] || (HonestStep(s, es[0], hub, d) && Honest(p, Apply(p, s, es[0]), es[1..], hub, d))
  }

  /** The answer was served by the Hub, and not too long ago: one TTL plus one
      refresh, or two TTLs plus one refresh when answered from the grace period. */
  ghost predicate AnswerFresh<T>(p: Policy<T>, answer: Answer<T>, at: nat, how: How, hub: nat -> T, d: nat) {
    match how
    case FastPath(_, origin) => answer.Ok? && answer.value == p.prepare(hub(origin)) && origin <= at <= origin + p.ttl + d
    case Fetched(origin) => answer.Ok? && answer.value == p.prepare(hub(origin)) && origin <= at <= origin + d
    case GracePath(_, _, origin) =>
      answer.Ok? && (p.servesGrace ==> answer.value == p.prepare(hub(origin))) && origin <= at <= origin + 2 * p.ttl + d
    case Failed => true
  }

  ghost predicate PhaseFresh<T>(p: Policy<T>, clock: nat, phase: Phase<T>, hub: nat -> T, d: nat) {
    match phase
    case Entering => true
    case Fetching(start) => start <= clock
    case Checking(_) => true
    case Committing(start, v, origin) => v == p.prepare(hub(origin)) && start <= origin <= clock
    case Done(answer, at, how) => AnswerFresh(p, answer, at, how, hub, d)
  }

  ghost predicate FreshInv<T>(p: Policy<T>, s: State<T>, hub: nat -> T, d: nat) {
    && (p.usable(s.cache.value) ==>
          && s.cache.value == p.prepare(hub(s.origin)) && s.origin <= s.clock
          && s.cache.expiresAt <= s.origin + p.ttl + d && s.cache.lastFetch <= s.origin + d)
    && (forall id | id in s.ops :: PhaseFresh(p, s.clock, s.ops[id], hub, d))
  }

  lemma StepKeepsFresh<T>(p: Policy<T>, s: State<T>, e: Event<T>, hub: nat -> T, d: nat)
    requires FreshInv(p, s, hub, d) && HonestStep(s, e, hub, d)
    ensures FreshInv(p, Apply(p, s, e), hub, d)
  {
    var s' := Apply(p, s, e);
    if e.Store? && e.id in s.ops {
      assert PhaseFresh(p, s.clock, s.ops[e.id], hub, d);
    }
    forall id | id in s'.ops ensures PhaseFresh(p, s'.clock, s'.ops[id], hub, d) {
      if id in s.ops { assert PhaseFresh(p, s.clock, s.ops[id], hub, d); }
    }
  }

  lemma {:induction false} RunKeepsFresh<T>(p: Policy<T>, s: State<T>, es: seq<Event<T>>, hub: nat -> T, d: nat)
    requires FreshInv(p, s, hub, d) && Honest(p, s, es, hub, d)
    ensures FreshInv(p, Exec(p, s, es), hub, d)
    decreases |es|
  {
    if es != [] {
      StepKeepsFresh(p, s, es[0], hub, d);
      RunKeepsFresh(p, Apply(p, s, es[0]), es[1..], hub, d);
    }
  }

  /** Even when refreshes overlap and finish out of order, every answer is recent. */
  lemma AnswersFresh<T>(p: Policy<T>, es: seq<Event<T>>, id: nat, hub: nat -> T, d: nat)
    requires !p.usable(p.blank) && Honest(p, Initial(p), es, hub, d)
    requires id in Exec(p, Initial(p), es).ops && Exec(p, Initial(p), es).ops[id].Done?
    ensures
      var op := Exec(p, Initial(p), es).ops[id];
      AnswerFresh(p, op.answer, op.at, op.how, hub, d)
  {
    RunKeepsFresh(p, Initial(p), es, hub, d);
    var s := Exec(p, Initial(p), es);
    assert PhaseFresh(p, s.clock, s.ops[id], hub, d);
  }

  /** Every reply is a usable value. */
  predicate AllSucceed<T>(p: Policy<T>, es: seq<Event<T>>) {
    forall i | 0 <= i < |es| && es[i].Receive? :: es[i].reply.Delivers? && p.usable(p.prepare(es[i].reply.value))
  }

  predicate NothingFailed<T>(p: Policy<T>, s: State<T>) {
    forall id | id in s.ops ::
      match s.ops[id]
      case Checking(_) => false
      case Committing(_, v, _) => p.usable(v)
      case Done(_, _, how) => how.FastPath? || how.Fetched?
      case _ => true
  }

  lemma {:induction false} SuccessRun<T>(p: Policy<T>, s: State<T>, es: seq<Event<T>>)
    requires NothingFailed(p, s) && AllSucceed(p, es)
    ensures NothingFailed(p, Exec(p, s, es))
    decreases |es|
  {
    if es != [] {
      assert es[0].Receive? ==> es[0].reply.Delivers? && p.usable(p.prepare(es[0].reply.value));
      SuccessStep(p, s, es[0]);
      SuccessRun(p, Apply(p, s, es[0]), es[1..]);
    }
  }

  lemma SuccessStep<T>(p: Policy<T>, s: State<T>, e: Event<T>)
    requires NothingFailed(p, s)
    requires e.Receive? ==> e.reply.Delivers? && p.usable(p.prepare(e.reply.value))
    ensures NothingFailed(p, Apply(p, s, e))
  {
  }

  // ---------- The first TTL serves ----------

  /** Everything that arrives can be used; requests may fail. */
  predicate ArrivesUsable<T>(p: Policy<T>, e: Event<T>) {
    e.Receive? && e.reply.Delivers? ==> p.usable(p.prepare(e.reply.value))
  }

  /** The cache serves until `until`, and nothing under way will change that. */
  ghost predicate ServesUntil<T>(p: Policy<T>, s: State<T>, until: nat) {
    && p.usable(s.cache.value) && until <= s.cache.expiresAt
    && NoneUnusable(p, s) && until <= s.clock + p.ttl
  }

  ghost predicate NoneUnusable<T>(p: Policy<T>, s: State<T>) {
    forall id | id in s.ops && s.ops[id].Committing? :: p.usable(s.ops[id].value)
  }

  lemma StepKeepsUsable<T>(p: Policy<T>, s: State<T>, e: Event<T>)
    requires NoneUnusable(p, s) && (p.storesUnusable ==> ArrivesUsable(p, e))
    ensures NoneUnusable(p, Apply(p, s, e))
  {
  }

  lemma {:induction false} RunKeepsUsable<T>(p: Policy<T>, s: State<T>, es: seq<Event<T>>)
    requires NoneUnusable(p, s) && (p.storesUnusable ==> forall i | 0 <= i < |es| :: ArrivesUsable(p, es[i]))
    ensures NoneUnusable(p, Exec(p, s, es))
    decreases |es|
  {
    if es != [] {
      StepKeepsUsable(p, s, es[0]);
      RunKeepsUsable(p, Apply(p, s, es[0]), es[1..]);
    }
  }

  lemma StepKeepsServing<T>(p: Policy<T>, s: State<T>, e: Event<T>, until: nat)
    requires ServesUntil(p, s, until) && (p.storesUnusable ==> ArrivesUsable(p, e))
    ensures ServesUntil(p, Apply(p, s, e), until)
  {
    StepKeepsUsable(p, s, e);
  }

  lemma {:induction false} RunKeepsServing<T>(p: Policy<T>, s: State<T>, es: seq<Event<T>>, until: nat)
    requires ServesUntil(p, s, until) && (p.storesUnusable ==> forall i | 0 <= i < |es| :: ArrivesUsable(p, es[i]))
    ensures ServesUntil(p, Exec(p, s, es), until)
    decreases |es|
  {
    if es != [] {
      StepKeepsServing(p, s, es[0], until);
      RunKeepsServing(p, Apply(p, s, es[0]), es[1..], until);
    }
  }

  /** In every run, once a value has been stored at t1, every get that looks at the cache
      up to one TTL later is answered from it: no request of its own, no grace period,
      no error, whatever fails meanwhile.  (Where unusable values are stored, provided
      none arrives.) */
  lemma OneTtlServes<T(!new)>(p: Policy<T>, before: seq<Event<T>>, a: nat, t1: nat, t2: nat, after: seq<Event<T>>, b: nat)
    requires p.storesUnusable ==> forall e | e in before || e in after :: ArrivesUsable(p, e)
    requires
      var s := Exec(p, Initial(p), before);
      a in s.ops && s.ops[a].Committing? && s.clock <= t1 <= t2
    requires
      var s := Exec(p, Exec(p, Initial(p), before + [Store(a, t1, t2)]), after);
      b in s.ops && s.ops[b].Entering? && s.clock <= t1 + p.ttl
    ensures
      var s := Exec(p, Exec(p, Initial(p), before + [Store(a, t1, t2)]), after);
      var op := Apply(p, s, FastRead(b)).ops[b];
      op.Done? && op.how.FastPath? && op.answer.Ok? && p.usable(op.answer.value)
    ensures
      var s := Exec(p, Exec(p, Initial(p), before + [Store(a, t1, t2)]), after);
      forall e :: b in Apply(p, s, e).ops &&
        (Apply(p, s, e).ops[b].Entering? || (Apply(p, s, e).ops[b].Done? && Apply(p, s, e).ops[b].how.FastPath?))
  {
    var s := Exec(p, Initial(p), before);
    RunKeepsUsable(p, Initial(p), before);
    ExecSnoc(p, Initial(p), before, Store(a, t1, t2));
    var s1 := Apply(p, s, Store(a, t1, t2));
    assert ServesUntil(p, s1, t1 + p.ttl);
    RunKeepsServing(p, s1, after, t1 + p.ttl);
  }

  lemma {:induction false} ExecSnoc<T>(p: Policy<T>, s: State<T>, es: seq<Event<T>>, e: Event<T>)
    ensures Exec(p, s, es + [e]) == Apply(p, Exec(p, s, es), e)
    decreases |es|
  {
    if es == [] {
      assert [] + [e] == [e];
      ExecLast(p, s, e);
    } else {
      assert (es + [e])[0] == es[0] && (es + [e])[1..] == es[1..] + [e];
      ExecSnoc(p, Apply(p, s, es[0]), es[1..], e);
    }
  }

  // ---------- The grace period serves ----------

  predicate IsFetched<T>(phase: Phase<T>) {
    phase.Done? && phase.how.Fetched?
  }

  /** Answered with an error, other than that the request could not even be made. */
  predicate IsRefused<T>(phase: Phase<T>) {
    phase.Done? && phase.answer.Err? && phase.answer.error != BadRequest
  }

  predicate OpShielded<T>(p: Policy<T>, cache: Cache<T>, clock: nat, phase: Phase<T>) {
    && (phase.Committing? ==> p.usable(phase.value))
    && (phase.Done? ==> phase.at <= clock)
    && (IsFetched(phase) ==> p.usable(cache.value) && phase.at <= cache.lastFetch)
  }

  /** A refusal lies two TTLs after every earlier fetch. */
  predicate Spaced<T>(ttl: nat, fetched: Phase<T>, refused: Phase<T>) {
    IsFetched(fetched) && IsRefused(refused) && fetched.at < refused.at ==> fetched.at + 2 * ttl <= refused.at
  }

  /** The last successful fetch shields everybody for two TTLs. */
  ghost predicate ShieldInv<T>(p: Policy<T>, s: State<T>) {
    && s.cache.lastFetch <= s.clock
    && (forall a | a in s.ops :: OpShielded(p, s.cache, s.clock, s.ops[a]))
    && (forall a, b | a in s.ops && b in s.ops :: Spaced(p.ttl, s.ops[a], s.ops[b]))
  }

  lemma StepKeepsOp<T>(p: Policy<T>, s: State<T>, e: Event<T>, a: nat)
    requires !p.storesUnusable && ShieldInv(p, s) && a in Apply(p, s, e).ops
    ensures OpShielded(p, Apply(p, s, e).cache, Apply(p, s, e).clock, Apply(p, s, e).ops[a])
  {
    assert a in s.ops ==> OpShielded(p, s.cache, s.clock, s.ops[a]);
    if e.Store? && e.id in s.ops { assert OpShielded(p, s.cache, s.clock, s.ops[e.id]); }
  }

  /** An operation refused by this step finds no fetch younger than two TTLs. */
  lemma RefusedLate<T>(p: Policy<T>, s: State<T>, a: nat)
    requires ShieldInv(p, s) && a in s.ops && IsFetched(s.ops[a]) && Fallback(p, s.cache, s.clock).Err?
    ensures s.ops[a].at + 2 * p.ttl <= s.clock
  {
    assert OpShielded(p, s.cache, s.clock, s.ops[a]);
  }

  lemma StepKeepsSpacing<T>(p: Policy<T>, s: State<T>, e: Event<T>, a: nat, b: nat)
    requires !p.storesUnusable && ShieldInv(p, s) && a in Apply(p, s, e).ops && b in Apply(p, s, e).ops
    ensures Spaced(p.ttl, Apply(p, s, e).ops[a], Apply(p, s, e).ops[b])
  {
    var ops, ops' := s.ops, Apply(p, s, e).ops;
    if IsFetched(ops'[a]) && IsRefused(ops'[b]) {
      if b in ops { assert OpShielded(p, s.cache, s.clock, ops[b]); }
      if e.Store? && e.id in ops { assert OpShielded(p, s.cache, s.clock, ops[e.id]); }
      if a in ops && ops'[a] == ops[a] {
        if b in ops && ops'[b] == ops[b] {
          assert Spaced(p.ttl, ops[a], ops[b]);
        } else {
          RefusedLate(p, s, a);
        }
      }
    }
  }

  lemma StepKeepsShield<T>(p: Policy<T>, s: State<T>, e: Event<T>)
    requires !p.storesUnusable && ShieldInv(p, s)
    ensures ShieldInv(p, Apply(p, s, e))
  {
    var s' := Apply(p, s, e);
    forall a | a in s'.ops ensures OpShielded(p, s'.cache, s'.clock, s'.ops[a]) { StepKeepsOp(p, s, e, a); }
    forall a, b | a in s'.ops && b in s'.ops ensures Spaced(p.ttl, s'.ops[a], s'.ops[b]) { StepKeepsSpacing(p, s, e, a, b); }
  }

  lemma {:induction false} RunKeepsShield<T>(p: Policy<T>, s: State<T>, es: seq<Event<T>>)
    requires !p.storesUnusable && ShieldInv(p, s)
    ensures ShieldInv(p, Exec(p, s, es))
    decreases |es|
  {
    if es != [] {
      StepKeepsShield(p, s, es[0]);
      RunKeepsShield(p, Apply(p, s, es[0]), es[1..]);
    }
  }

  /** Where unusable values are not stored, no operation within two TTLs of a successful
      one is refused, whatever the Hub, the network and the other operations do. */
  lemma GraceServes<T>(p: Policy<T>, es: seq<Event<T>>, a: nat, b: nat)
    requires !p.storesUnusable
    requires a in Exec(p, Initial(p), es).ops && IsFetched(Exec(p, Initial(p), es).ops[a])
    requires b in Exec(p, Initial(p), es).ops && Exec(p, Initial(p), es).ops[b].Done?
    ensures
      var ops := Exec(p, Initial(p), es).ops;
      ops[a].at < ops[b].at < ops[a].at + 2 * p.ttl ==> ops[b].answer.Ok? || ops[b].answer == Err(BadRequest)
  {
    RunKeepsShield(p, Initial(p), es);
    var ops := Exec(p, Initial(p), es).ops;
    assert Spaced(p.ttl, ops[a], ops[b]);
  }

  // ---------- The sequential code is a run ----------

  /** The events of a get that nobody interrupts. */
  function GetEvents<T>(p: Policy<T>, id: nat, reply: Reply<T>, origin: nat, t: Times): seq<Event<T>> {
    [Tick(t.now), Get(id), FastRead(id), Receive(id, reply, origin)]
    + (if reply.Delivers? && (p.usable(p.prepare(reply.value)) || p.storesUnusable) then [Store(id, t.t1, t.t2)]
       else [Tick(t.checkAt), Check(id)])
  }

  lemma ExecCons<T>(p: Policy<T>, s: State<T>, e: Event<T>, rest: seq<Event<T>>)
    ensures Exec(p, s, [e] + rest) == Exec(p, Apply(p, s, e), rest)
  {
    assert ([e] + rest)[1..] == rest;
  }

  lemma ExecLast<T>(p: Policy<T>, s: State<T>, e: Event<T>)
    ensures Exec(p, s, [e]) == Apply(p, s, e)
  {
    assert [e] == [e] + [];
    ExecCons(p, s, e, []);
  }

  lemma GetIsARun<T>(p: Policy<T>, s: State<T>, id: nat, reply: Reply<T>, origin: nat, t: Times)
    requires id !in s.ops && s.clock <= t.now <= t.checkAt && t.now <= t.t1 <= t.t2
    ensures
      var s' := Exec(p, s, GetEvents(p, id, reply, origin, t));
      var (cache, answer) := GetSpec(p, s.cache, reply, t);
      s'.cache == cache && id in s'.ops && s'.ops[id].Done? && s'.ops[id].answer == answer
      && (s'.clock <= t.checkAt || s'.clock <= t.t2)
  {
    var tail := if reply.Delivers? && (p.usable(p.prepare(reply.value)) || p.storesUnusable) then [Store(id, t.t1, t.t2)]
                else [Tick(t.checkAt), Check(id)];
    var s1 := Apply(p, s, Tick(t.now));
    var s2 := Apply(p, s1, Get(id));
    var s3 := Apply(p, s2, FastRead(id));
    var s4 := Apply(p, s3, Receive(id, reply, origin));
    assert GetEvents(p, id, reply, origin, t) == [Tick(t.now)] + ([Get(id)] + ([FastRead(id)] + ([Receive(id, reply, origin)] + tail)));
    ExecCons(p, s, Tick(t.now), [Get(id)] + ([FastRead(id)] + ([Receive(id, reply, origin)] + tail)));
    ExecCons(p, s1, Get(id), [FastRead(id)] + ([Receive(id, reply, origin)] + tail));
    ExecCons(p, s2, FastRead(id), [Receive(id, reply, origin)] + tail);
    ExecCons(p, s3, Receive(id, reply, origin), tail);
    if |tail| == 1 {
      ExecLast(p, s4, Store(id, t.t1, t.t2));
    } else {
      assert tail == [Tick(t.checkAt)] + [Check(id)];
      ExecCons(p, s4, Tick(t.checkAt), [Check(id)]);
      ExecLast(p, Apply(p, s4, Tick(t.checkAt)), Check(id));
    }
  }
}
