/** The interleaved machine and the sequential call agree, and two runs that show
    where the caps' edges are: twice the cap in a stretch shorter than a window, and
    more than the cap in one window once a stale expiry is allowed in. */
module RateLimitWitness {
  import opened Wrappers
  import opened RedisStore
  import opened RateLimiter
  import opened RateLimitRuns
  import opened RateLimitHistory
  import opened RateLimitCaps

  function WindowEvents(id: nat, p: Pipe): seq<Event> {
    [Tick(p.incrAt), RunIncr(id, p.incrFault), Tick(p.expireAt), RunExpire(id, p.expireFault)]
  }

  function ConfigOf(c: Config, bucket: string): BucketConfig {
    if bucket in c.limits then c.limits[bucket] else BucketConfig(0, 0)
  }

  /** The commands of one call, nobody else in between. */
  function CallEvents(c: Config, id: nat, a: Attempt): seq<Event> {
    [Arrive(id, a.user, a.bucket, a.now)]
    + (if ConfigOf(c, a.bucket).minute > 0 then WindowEvents(id, a.env.minute) else [])
    + (if ConfigOf(c, a.bucket).daily > 0 then WindowEvents(id, a.env.day) else [])
    + [Tick(a.env.getAt), RunGet(id, a.env.getOk)]
  }

  /** Every counter command executes in its own window of `now`, failing or not. */
  predicate InWindows(a: Attempt) {
    InWindow(Minute, a.env.minute, a.now) && InWindow(Day, a.env.day, a.now)
  }

  predicate TimesOrdered(t: nat, env: Timing) {
    t <= env.minute.incrAt <= env.minute.expireAt <= env.day.incrAt <= env.day.expireAt <= env.getAt
  }

  lemma ExecCons(c: Config, s: State, e: Event, rest: seq<Event>)
    ensures Exec(c, s, [e] + rest) == Exec(c, Apply(c, s, e), rest)
    ensures Timely(c, s, [e] + rest) <==> TimelyStep(s, e) && Timely(c, Apply(c, s, e), rest)
  {
    assert ([e] + rest)[1..] == rest;
  }

  lemma ExecFour(c: Config, s: State, e1: Event, e2: Event, e3: Event, e4: Event)
    ensures
      var s1 := Apply(c, s, e1);
      var s2 := Apply(c, s1, e2);
      var s3 := Apply(c, s2, e3);
      && Exec(c, s, [e1, e2, e3, e4]) == Apply(c, s3, e4)
      && (Timely(c, s, [e1, e2, e3, e4]) <==> TimelyStep(s, e1) && TimelyStep(s1, e2) && TimelyStep(s2, e3) && TimelyStep(s3, e4))
  {
    var s1 := Apply(c, s, e1);
    var s2 := Apply(c, s1, e2);
    var s3 := Apply(c, s2, e3);
    assert [e1, e2, e3, e4] == [e1] + ([e2] + ([e3] + ([e4] + [])));
    ExecCons(c, s, e1, [e2] + ([e3] + ([e4] + [])));
    ExecCons(c, s1, e2, [e3] + ([e4] + []));
    ExecCons(c, s2, e3, [e4] + []);
    ExecCons(c, s3, e4, []);
  }

  /** A pipeline run without interruption does what the sequential code says. */
  lemma PipelineRun(c: Config, s: State, id: nat, p: Pipe)
    requires id in s.reqs && s.reqs[id].phase.Incrementing? && s.clock <= p.incrAt <= p.expireAt
    ensures
      var r := s.reqs[id];
      var w := r.phase.w;
      var s' := Exec(c, s, WindowEvents(id, p));
      && s'.clock == p.expireAt
      && s'.store == StoreAfterWindow(s.store, KeyOf(r, w), w, r.now, p)
      && id in s'.reqs && s'.reqs == s.reqs[id := s'.reqs[id]]
      && (s'.reqs[id].user, s'.reqs[id].bucket, s'.reqs[id].cfg, s'.reqs[id].now) == (r.user, r.bucket, r.cfg, r.now)
      && s'.reqs[id].phase == (match WindowVerdict(s.store, c.failClosed, KeyOf(r, w), Cap(r.cfg, w), w, r.now, p)
                               case Refuse(e) => Done(Rejected(e))
                               case Pass => After(r.cfg, w))
      && (Index(w, p.incrAt) == Index(w, r.now) == Index(w, p.expireAt) ==> Timely(c, s, WindowEvents(id, p)))
  {
    ExecFour(c, s, Tick(p.incrAt), RunIncr(id, p.incrFault), Tick(p.expireAt), RunExpire(id, p.expireFault));
  }

  /** Events of a request that is already answered only move the clock. */
  lemma IdleRun(c: Config, s: State, id: nat, p: Pipe)
    requires id in s.reqs && s.reqs[id].phase.Done? && s.clock <= p.incrAt <= p.expireAt
    ensures Exec(c, s, WindowEvents(id, p)) == s.(clock := p.expireAt)
    ensures Timely(c, s, WindowEvents(id, p))
  {
    ExecFour(c, s, Tick(p.incrAt), RunIncr(id, p.incrFault), Tick(p.expireAt), RunExpire(id, p.expireFault));
  }

  /** One optional pipeline of a call, from any phase the call can be in. */
  function StageEvents(id: nat, cfg: BucketConfig, w: Window, env: Timing): seq<Event> {
    if Cap(cfg, w) > 0 then WindowEvents(id, PipeOf(env, w)) else []
  }

  lemma ReadRun(c: Config, s: State, id: nat, at: nat, ok: bool)
    requires id in s.reqs && (s.reqs[id].phase.Reading? || s.reqs[id].phase.Done?) && s.clock <= at
    ensures
      var r := s.reqs[id];
      var s' := Exec(c, s, [Tick(at), RunGet(id, ok)]);
      && s' == State(at, s.store, s.reqs[id := if r.phase.Done? then r else
           r.(phase := Done(ReadBack(c.failClosed, r.cfg, r.now, CountAt(s.store, KeyOf(r, Advertised(r.cfg)), at), ok)))])
      && Timely(c, s, [Tick(at), RunGet(id, ok)])
  {
    assert [Tick(at), RunGet(id, ok)] == [Tick(at)] + ([RunGet(id, ok)] + []);
    ExecCons(c, s, Tick(at), [RunGet(id, ok)] + []);
    ExecCons(c, Apply(c, s, Tick(at)), RunGet(id, ok), []);
  }

  /** What is still to come of a call that is about to check the day. */
  function DayEvents(id: nat, cfg: BucketConfig, env: Timing): seq<Event> {
    StageEvents(id, cfg, Day, env) + [Tick(env.getAt), RunGet(id, env.getOk)]
  }

  predicate SameCall(r: Request, a: Attempt, cfg: BucketConfig) {
    r.user == a.user && r.bucket == a.bucket && r.now == a.now && r.cfg == cfg
  }

  predicate Answered(s: State, s': State, id: nat, a: Attempt, cfg: BucketConfig, outcome: Outcome) {
    && id in s'.reqs && s'.reqs == s.reqs[id := s'.reqs[id]] && SameCall(s'.reqs[id], a, cfg)
    && s'.reqs[id].phase == Done(outcome) && s'.clock == a.env.getAt
  }

  lemma DayRun(c: Config, s: State, id: nat, a: Attempt, cfg: BucketConfig)
    requires id in s.reqs && SameCall(s.reqs[id], a, cfg) && s.reqs[id].phase == After(cfg, Minute)
    requires s.clock <= a.env.day.incrAt <= a.env.day.expireAt <= a.env.getAt
    ensures
      var s' := Exec(c, s, DayEvents(id, cfg, a.env));
      var (store, outcome) := CheckFrom(s.store, c.failClosed, cfg, a.bucket, a.user, a.now, a.env, [Day]);
      && s'.store == store && Answered(s, s', id, a, cfg, outcome)
      && (InWindows(a) ==> Timely(c, s, DayEvents(id, cfg, a.env)))
  {
    assert [Day][1..] == [];
    var read := [Tick(a.env.getAt), RunGet(id, a.env.getOk)];
    ExecConcat(c, s, StageEvents(id, cfg, Day, a.env), read);
    if cfg.daily > 0 {
      PipelineRun(c, s, id, a.env.day);
    }
    ReadRun(c, Exec(c, s, StageEvents(id, cfg, Day, a.env)), id, a.env.getAt, a.env.getOk);
  }

  lemma RefusedRun(c: Config, s: State, id: nat, a: Attempt, cfg: BucketConfig)
    requires id in s.reqs && s.reqs[id].phase.Done?
    requires s.clock <= a.env.day.incrAt <= a.env.day.expireAt <= a.env.getAt
    ensures Exec(c, s, DayEvents(id, cfg, a.env)) == s.(clock := a.env.getAt)
    ensures Timely(c, s, DayEvents(id, cfg, a.env))
  {
    var read := [Tick(a.env.getAt), RunGet(id, a.env.getOk)];
    ExecConcat(c, s, StageEvents(id, cfg, Day, a.env), read);
    if cfg.daily > 0 { IdleRun(c, s, id, a.env.day); }
    ReadRun(c, Exec(c, s, StageEvents(id, cfg, Day, a.env)), id, a.env.getAt, a.env.getOk);
    assert s.reqs[id := s.reqs[id]] == s.reqs;
  }

  lemma KnownCallRun(c: Config, s: State, id: nat, a: Attempt, cfg: BucketConfig)
    requires id in s.reqs && SameCall(s.reqs[id], a, cfg) && s.reqs[id].phase == FirstPhase(cfg)
    requires TimesOrdered(s.clock, a.env)
    ensures
      var es := StageEvents(id, cfg, Minute, a.env) + DayEvents(id, cfg, a.env);
      var s' := Exec(c, s, es);
      var (store, outcome) := CheckFrom(s.store, c.failClosed, cfg, a.bucket, a.user, a.now, a.env, [Minute, Day]);
      && s'.store == store && Answered(s, s', id, a, cfg, outcome)
      && (InWindows(a) ==> Timely(c, s, es))
  {
    assert [Minute, Day][1..] == [Day];
    ExecConcat(c, s, StageEvents(id, cfg, Minute, a.env), DayEvents(id, cfg, a.env));
    if cfg.minute > 0 {
      PipelineRun(c, s, id, a.env.minute);
      var s1 := Exec(c, s, StageEvents(id, cfg, Minute, a.env));
      if s1.reqs[id].phase.Done? {
        RefusedRun(c, s1, id, a, cfg);
      } else {
        DayRun(c, s1, id, a, cfg);
      }
    } else {
      DayRun(c, s, id, a, cfg);
    }
  }

  lemma UnknownCallRun(c: Config, s: State, id: nat, a: Attempt)
    requires id in s.reqs && s.reqs[id].phase.Done? && TimesOrdered(s.clock, a.env)
    ensures
      var es := DayEvents(id, BucketConfig(0, 0), a.env);
      Exec(c, s, es) == s.(clock := a.env.getAt) && Timely(c, s, es)
  {
    RefusedRun(c, s, id, a, BucketConfig(0, 0));
  }

  /** A call that nobody interrupts is one particular run of the machine: same
      store, same answer, with or without failing commands. */
  lemma CallIsARun(c: Config, s: State, id: nat, a: Attempt)
    requires id !in s.reqs && TimesOrdered(s.clock, a.env)
    ensures
      var s' := Exec(c, s, CallEvents(c, id, a));
      var (store, outcome) := CheckSpec(c.limits, c.failClosed, s.store, a.user, a.bucket, a.now, a.env);
      && s'.store == store && Answered(s, s', id, a, ConfigOf(c, a.bucket), outcome)
      && (InWindows(a) ==> Timely(c, s, CallEvents(c, id, a)))
  {
    var cfg := ConfigOf(c, a.bucket);
    var arrive := Arrive(id, a.user, a.bucket, a.now);
    var s1 := Apply(c, s, arrive);
    var rest := StageEvents(id, cfg, Minute, a.env) + DayEvents(id, cfg, a.env);
    assert CallEvents(c, id, a) == [arrive] + rest;
    ExecCons(c, s, arrive, rest);
    if a.bucket in c.limits {
      KnownCallRun(c, s1, id, a, cfg);
    } else {
      assert rest == DayEvents(id, cfg, a.env);
      UnknownCallRun(c, s1, id, a);
    }
    var s' := Exec(c, s, CallEvents(c, id, a));
    assert s'.reqs == s1.reqs[id := s'.reqs[id]] == s.reqs[id := s'.reqs[id]];
  }

  /** A list of calls, one after another, with consecutive request ids. */
  function CallsEvents(c: Config, first: nat, todo: seq<Attempt>): seq<Event>
    decreases |todo|
  {
    if todo == [] then [] else CallEvents(c, first, todo[0]) + CallsEvents(c, first + 1, todo[1..])
  }

  /** Requests first, first + 1, ... are the attempts, answered as listed. */
  predicate AllAnswered(c: Config, reqs: map<nat, Request>, first: nat, todo: seq<Attempt>, outcomes: seq<Outcome>) {
    && |outcomes| == |todo|
    && forall i | 0 <= i < |todo| ::
         && first + i in reqs && SameCall(reqs[first + i], todo[i], ConfigOf(c, todo[i].bucket))
         && reqs[first + i].phase == Done(outcomes[i])
  }

  ghost predicate Extends(before: map<nat, Request>, reqs: map<nat, Request>, first: nat, count: nat) {
    && (forall id :: id in reqs <==> id in before || first <= id < first + count)
    && (forall id | id in before :: reqs[id] == before[id])
  }

  lemma HeadCall(c: Config, s: State, first: nat, a: Attempt)
    requires TimesOrdered(s.clock, a.env) && forall id | id in s.reqs :: id < first
    ensures
      var s' := Exec(c, s, CallEvents(c, first, a));
      var (store, outcome) := CheckSpec(c.limits, c.failClosed, s.store, a.user, a.bucket, a.now, a.env);
      && (InWindows(a) ==> Timely(c, s, CallEvents(c, first, a))) && s'.store == store && s'.clock == a.env.getAt
      && Extends(s.reqs, s'.reqs, first, 1)
      && SameCall(s'.reqs[first], a, ConfigOf(c, a.bucket)) && s'.reqs[first].phase == Done(outcome)
  {
    CallIsARun(c, s, first, a);
  }

  lemma CallsEventsCons(c: Config, s: State, first: nat, todo: seq<Attempt>)
    requires todo != []
    ensures
      var s1 := Exec(c, s, CallEvents(c, first, todo[0]));
      && Exec(c, s, CallsEvents(c, first, todo)) == Exec(c, s1, CallsEvents(c, first + 1, todo[1..]))
      && (Timely(c, s, CallsEvents(c, first, todo)) <==>
            Timely(c, s, CallEvents(c, first, todo[0])) && Timely(c, s1, CallsEvents(c, first + 1, todo[1..])))
  {
    ExecConcat(c, s, CallEvents(c, first, todo[0]), CallsEvents(c, first + 1, todo[1..]));
  }

  /** From s, serving todo ends in s', with everybody answered as Serve says. */
  ghost predicate Served(c: Config, s: State, first: nat, todo: seq<Attempt>, s': State) {
    var served := Serve(c.limits, c.failClosed, s.store, todo);
    && s'.store == served.0 && s'.clock == (if todo == [] then s.clock else todo[|todo| - 1].env.getAt)
    && Extends(s.reqs, s'.reqs, first, |todo|)
    && AllAnswered(c, s'.reqs, first, todo, served.1)
  }

  lemma ServedCons(c: Config, s: State, first: nat, todo: seq<Attempt>, s1: State, s': State)
    requires todo != [] && Served(c, s1, first + 1, todo[1..], s')
    requires forall id | id in s.reqs :: id < first
    requires Extends(s.reqs, s1.reqs, first, 1) && s1.clock == todo[0].env.getAt
    requires
      var a := todo[0];
      var (store, outcome) := CheckSpec(c.limits, c.failClosed, s.store, a.user, a.bucket, a.now, a.env);
      s1.store == store && SameCall(s1.reqs[first], a, ConfigOf(c, a.bucket)) && s1.reqs[first].phase == Done(outcome)
    ensures Served(c, s, first, todo, s')
  {
    var a, rest := todo[0], todo[1..];
    var outcome := CheckSpec(c.limits, c.failClosed, s.store, a.user, a.bucket, a.now, a.env).1;
    var outcomes := Serve(c.limits, c.failClosed, s1.store, rest).1;
    assert ([outcome] + outcomes)[1..] == outcomes;
    AnswersCons(c, s1.reqs, s'.reqs, first, todo, [outcome] + outcomes);
  }

  lemma NoCalls(c: Config, s: State, first: nat)
    ensures Timely(c, s, CallsEvents(c, first, [])) && Served(c, s, first, [], Exec(c, s, CallsEvents(c, first, [])))
  {
  }

  /** One call after another, each command after the one before. */
  predicate InOrder(t: nat, todo: seq<Attempt>)
    decreases |todo|
  {
    todo == [] || (TimesOrdered(t, todo[0].env) && InOrder(todo[0].env.getAt, todo[1..]))
  }

  lemma {:induction false} SequentialInOrder(t: nat, todo: seq<Attempt>)
    requires Sequential(t, todo)
    ensures InOrder(t, todo) && forall a | a in todo :: InWindows(a)
    decreases |todo|
  {
    if todo != [] {
      SequentialInOrder(todo[0].env.getAt, todo[1..]);
      assert PipeOrderly(Minute, todo[0].env.minute, todo[0].now) && PipeOrderly(Day, todo[0].env.day, todo[0].now);
      assert todo == [todo[0]] + todo[1..];
    }
  }

  /** The run of the first call, and what the rest of them starts from. */
  lemma FirstCall(c: Config, s: State, first: nat, todo: seq<Attempt>) returns (s1: State)
    requires todo != [] && InOrder(s.clock, todo) && forall id | id in s.reqs :: id < first
    ensures s1 == Exec(c, s, CallEvents(c, first, todo[0])) && (InWindows(todo[0]) ==> Timely(c, s, CallEvents(c, first, todo[0])))
    ensures InOrder(s1.clock, todo[1..]) && forall id | id in s1.reqs :: id < first + 1
    ensures forall s' :: Served(c, s1, first + 1, todo[1..], s') ==> Served(c, s, first, todo, s')
  {
    s1 := Exec(c, s, CallEvents(c, first, todo[0]));
    HeadCall(c, s, first, todo[0]);
    forall s' | Served(c, s1, first + 1, todo[1..], s') ensures Served(c, s, first, todo, s') {
      ServedCons(c, s, first, todo, s1, s');
    }
  }

  /** Calls made one after another, whatever fails and whatever boundary they cross, are
      one particular run of the machine; a timely one if their commands are. */
  lemma {:induction false} CallsAreARun(c: Config, s: State, first: nat, todo: seq<Attempt>)
    requires InOrder(s.clock, todo) && forall id | id in s.reqs :: id < first
    ensures Served(c, s, first, todo, Exec(c, s, CallsEvents(c, first, todo)))
    ensures (forall a | a in todo :: InWindows(a)) ==> Timely(c, s, CallsEvents(c, first, todo))
    decreases |todo|
  {
    if todo == [] {
      NoCalls(c, s, first);
    } else {
      var s1 := FirstCall(c, s, first, todo);
      CallsAreARun(c, s1, first + 1, todo[1..]);
      CallsEventsCons(c, s, first, todo);
      assert forall a | a in todo[1..] :: a in todo;
    }
  }

  lemma AnswersCons(c: Config, reqs: map<nat, Request>, reqs': map<nat, Request>, first: nat, todo: seq<Attempt>, outcomes: seq<Outcome>)
    requires todo != [] && |outcomes| == |todo| && first in reqs
    requires SameCall(reqs[first], todo[0], ConfigOf(c, todo[0].bucket)) && reqs[first].phase == Done(outcomes[0])
    requires Extends(reqs, reqs', first + 1, |todo| - 1)
    requires AllAnswered(c, reqs', first + 1, todo[1..], outcomes[1..])
    ensures AllAnswered(c, reqs', first, todo, outcomes)
  {
    forall i | 0 <= i < |todo|
      ensures && first + i in reqs' && SameCall(reqs'[first + i], todo[i], ConfigOf(c, todo[i].bucket))
              && reqs'[first + i].phase == Done(outcomes[i])
    {
      if i > 0 {
        assert todo[1..][i - 1] == todo[i] && outcomes[1..][i - 1] == outcomes[i];
        assert first + 1 + (i - 1) in reqs';
      }
    }
  }

  // ---------- Witness runs ----------

  /** A call whose `now` and whose commands all happen at moment t. */
  function At(user: string, bucket: string, t: nat): Attempt {
    var p := Pipe(t, NoFault, t, NoFault);
    Attempt(user, bucket, t, Timing(p, p, t, true))
  }

  /** n calls in the last nanosecond of one minute, m in the first of the next. */
  function Burst(user: string, bucket: string, n: nat, m: nat): seq<Attempt> {
    if m > 0 then Burst(user, bucket, n, m - 1) + [At(user, bucket, MINUTE_NS)]
    else if n > 0 then Burst(user, bucket, n - 1, 0) + [At(user, bucket, MINUTE_NS - 1)]
    else []
  }

  lemma {:induction false} BurstIs(user: string, bucket: string, n: nat, m: nat)
    ensures |Burst(user, bucket, n, m)| == n + m
    ensures forall i | 0 <= i < n + m ::
              Burst(user, bucket, n, m)[i] == At(user, bucket, if i < n then MINUTE_NS - 1 else MINUTE_NS)
  {
    if m > 0 { BurstIs(user, bucket, n, m - 1); }
    else if n > 0 { BurstIs(user, bucket, n - 1, 0); }
  }

  lemma {:induction false} SequentialFrom(t: nat, todo: seq<Attempt>, user: string, bucket: string, n: nat)
    requires t <= MINUTE_NS && n <= |todo| && (n > 0 ==> t <= MINUTE_NS - 1)
    requires forall i | 0 <= i < |todo| :: todo[i] == At(user, bucket, if i < n then MINUTE_NS - 1 else MINUTE_NS)
    ensures Sequential(t, todo)
    decreases |todo|
  {
    if todo != [] {
      SequentialFrom(todo[0].env.getAt, todo[1..], user, bucket, if n > 0 then n - 1 else 0);
    }
  }

  lemma EdgeIndices()
    ensures Index(Minute, MINUTE_NS - 1) == 0 && Index(Minute, MINUTE_NS) == 1
    ensures Index(Day, MINUTE_NS - 1) == 0 && Index(Day, MINUTE_NS) == 0
  {
  }

  /** What the counts are before and after one more call of a burst, in minute k. */
  ghost predicate CountsAre(limits: Limits, h: seq<Attempt>, user: string, bucket: string, first: nat, second: nat) {
    && Counted(limits, h, Minute, bucket, user, 0) == first
    && Counted(limits, h, Minute, bucket, user, 1) == second
    && Counted(limits, h, Day, bucket, user, 0) == first + second
  }

  lemma CallCounts(limits: Limits, h: seq<Attempt>, user: string, bucket: string, first: nat, second: nat, late: bool)
    requires bucket in limits && 0 < limits[bucket].minute && 0 < limits[bucket].daily
    requires CountsAre(limits, h, user, bucket, first, second)
    requires (if late then second else first) < limits[bucket].minute
    ensures CountsAre(limits, h + [At(user, bucket, if late then MINUTE_NS else MINUTE_NS - 1)], user, bucket,
                      if late then first else first + 1, if late then second + 1 else second)
  {
    var a := At(user, bucket, if late then MINUTE_NS else MINUTE_NS - 1);
    EdgeIndices();
    assert HasRoom(limits, h, Minute, a);
    CountedSnoc(limits, h, a, Minute, bucket, user, 0);
    CountedSnoc(limits, h, a, Minute, bucket, user, 1);
    CountedSnoc(limits, h, a, Day, bucket, user, 0);
  }

  /** Within the caps, a burst counts fully in its minutes and in its day. */
  lemma {:induction false} BurstCounts(limits: Limits, user: string, bucket: string, n: nat, m: nat)
    requires bucket in limits && 0 < limits[bucket].minute && 0 < limits[bucket].daily
    requires n <= limits[bucket].minute && m <= limits[bucket].minute
    ensures CountsAre(limits, Burst(user, bucket, n, m), user, bucket, n, m)
  {
    if m > 0 {
      BurstCounts(limits, user, bucket, n, m - 1);
      CallCounts(limits, Burst(user, bucket, n, m - 1), user, bucket, n, m - 1, true);
    } else if n > 0 {
      BurstCounts(limits, user, bucket, n - 1, 0);
      CallCounts(limits, Burst(user, bucket, n - 1, 0), user, bucket, n - 1, 0, false);
    }
  }

  lemma BurstPrefix(user: string, bucket: string, n: nat, m: nat, i: nat)
    requires i < n + m
    ensures |Burst(user, bucket, n, m)| == n + m
    ensures Burst(user, bucket, n, m)[..i] == if i < n then Burst(user, bucket, i, 0) else Burst(user, bucket, n, i - n)
  {
    BurstIs(user, bucket, n, m);
    if i < n { BurstIs(user, bucket, i, 0); } else { BurstIs(user, bucket, n, i - n); }
  }

  /** The call that comes after i calls of a burst. */
  lemma BurstRoom(limits: Limits, user: string, bucket: string, n: nat, m: nat, i: nat)
    requires bucket in limits && i < n + m && |Burst(user, bucket, n, m)| == n + m
    requires 0 < limits[bucket].minute && n <= limits[bucket].minute && m <= limits[bucket].minute
    requires n + m <= limits[bucket].daily && 0 < limits[bucket].daily
    ensures
      var h, a := Burst(user, bucket, n, m)[..i], At(user, bucket, if i < n then MINUTE_NS - 1 else MINUTE_NS);
      && Counted(limits, h, Minute, bucket, user, Index(Minute, a.now)) < limits[bucket].minute
      && Counted(limits, h, Day, bucket, user, Index(Day, a.now)) < limits[bucket].daily
  {
    EdgeIndices();
    BurstPrefix(user, bucket, n, m, i);
    if i < n {
      BurstCounts(limits, user, bucket, i, 0);
    } else {
      BurstCounts(limits, user, bucket, n, i - n);
    }
  }

  lemma BurstAdmitted(c: Config, user: string, bucket: string, n: nat, m: nat, i: nat)
    requires ColonFree(c.limits) && bucket in c.limits && i < n + m
    requires 0 < c.limits[bucket].minute && n <= c.limits[bucket].minute && m <= c.limits[bucket].minute
    requires n + m <= c.limits[bucket].daily && 0 < c.limits[bucket].daily && |Burst(user, bucket, n, m)| == n + m
    ensures Serve(c.limits, c.failClosed, map[], Burst(user, bucket, n, m)).1[i].Admitted?
  {
    var todo := Burst(user, bucket, n, m);
    BurstIs(user, bucket, n, m);
    SequentialFrom(0, todo, user, bucket, n);
    SequentialRunsAreExact(c.limits, c.failClosed, todo, i);
    BurstRoom(c.limits, user, bucket, n, m, i);
  }

  /** The run of a burst: everybody is admitted, and the machine is left as the
      sequential calls leave it. */
  lemma BurstRun(c: Config, user: string, bucket: string, n: nat, m: nat)
    requires ColonFree(c.limits) && bucket in c.limits
    requires 0 < c.limits[bucket].minute && n <= c.limits[bucket].minute && m <= c.limits[bucket].minute
    requires n + m <= c.limits[bucket].daily && 0 < c.limits[bucket].daily
    ensures
      var es := CallsEvents(c, 0, Burst(user, bucket, n, m));
      var s := Exec(c, INITIAL, es);
      && Timely(c, INITIAL, es) && s.clock <= MINUTE_NS
      && s.store == Serve(c.limits, c.failClosed, map[], Burst(user, bucket, n, m)).0
      && (forall id :: id in s.reqs <==> 0 <= id < n + m)
      && (forall id | 0 <= id < n + m ::
            IsAdmitted(s.reqs[id]) && s.reqs[id].user == user && s.reqs[id].bucket == bucket
            && s.reqs[id].now == if id < n then MINUTE_NS - 1 else MINUTE_NS)
  {
    var todo := Burst(user, bucket, n, m);
    BurstIs(user, bucket, n, m);
    SequentialFrom(0, todo, user, bucket, n);
    SequentialInOrder(0, todo);
    CallsAreARun(c, INITIAL, 0, todo);
    var s := Exec(c, INITIAL, CallsEvents(c, 0, todo));
    forall id | 0 <= id < n + m
      ensures IsAdmitted(s.reqs[id]) && SameCall(s.reqs[id], todo[id], c.limits[bucket])
    {
      BurstAdmitted(c, user, bucket, n, m, id);
      assert s.reqs[0 + id].phase == Done(Serve(c.limits, c.failClosed, map[], todo).1[id]);
    }
  }

  lemma {:induction false} Interval(from: nat, n: nat, ids: set<nat>)
    requires forall id :: id in ids <==> from <= id < from + n
    ensures |ids| == n
  {
    if n > 0 {
      Interval(from, n - 1, ids - {from + n - 1});
    } else {
      assert ids == {};
    }
  }

  /** Twice the cap within two nanoseconds: the sliding bound cannot be improved. */
  lemma SlidingBoundAttained(c: Config, user: string, bucket: string)
    requires ColonFree(c.limits) && bucket in c.limits
    requires 0 < c.limits[bucket].minute && 2 * c.limits[bucket].minute <= c.limits[bucket].daily
    ensures exists es :: Timely(c, INITIAL, es)
              && |AdmittedDuring(Exec(c, INITIAL, es), bucket, user, MINUTE_NS - 1, MINUTE_NS + 1)| == 2 * c.limits[bucket].minute
  {
    var n := c.limits[bucket].minute;
    BurstRun(c, user, bucket, n, n);
    var es := CallsEvents(c, 0, Burst(user, bucket, n, n));
    Interval(0, 2 * n, AdmittedDuring(Exec(c, INITIAL, es), bucket, user, MINUTE_NS - 1, MINUTE_NS + 1));
  }

  /** All four buckets of the table have such a run. */
  lemma SlidingBoundAttainedInTable(failClosed: bool, user: string, bucket: string)
    requires bucket in BUCKET_LIMITS
    ensures exists es :: Timely(Config(BUCKET_LIMITS, failClosed), INITIAL, es)
              && |AdmittedDuring(Exec(Config(BUCKET_LIMITS, failClosed), INITIAL, es), bucket, user, MINUTE_NS - 1, MINUTE_NS + 1)|
                 == 2 * BUCKET_LIMITS[bucket].minute
  {
    forall b | b in BUCKET_LIMITS ensures ':' !in b { TableIsColonFree(b); }
    SlidingBoundAttained(Config(BUCKET_LIMITS, failClosed), user, bucket);
  }

  /** The three events of a request that arrives a window late. */
  function StaleEvents(id: nat, user: string, bucket: string): seq<Event> {
    [Tick(MINUTE_NS), Arrive(id, user, bucket, 0), RunIncr(id, NoFault), RunExpire(id, NoFault)]
  }

  /** A stale request's expiry lies in the past and deletes the live counter. */
  lemma StaleRequestClearsCounter(c: Config, s: State, id: nat, user: string, bucket: string)
    requires bucket in c.limits && 0 < c.limits[bucket].minute && id !in s.reqs && s.clock <= MINUTE_NS
    requires CountAt(s.store, Key(Minute, bucket, user), MINUTE_NS) >= c.limits[bucket].minute
    ensures
      var s' := Exec(c, s, StaleEvents(id, user, bucket));
      && s'.clock == MINUTE_NS && id in s'.reqs && !IsAdmitted(s'.reqs[id]) && s'.reqs == s.reqs[id := s'.reqs[id]]
      && s'.store == s.store - {Key(Minute, bucket, user)}
  {
    ExecFour(c, s, Tick(MINUTE_NS), Arrive(id, user, bucket, 0), RunIncr(id, NoFault), RunExpire(id, NoFault));
  }

  /** A full minute of admissions, a stale request, and one call more. */
  function StaleRun(c: Config, user: string, bucket: string, n: nat): seq<Event> {
    CallsEvents(c, 0, Burst(user, bucket, 0, n)) + StaleEvents(n, user, bucket)
    + CallEvents(c, n + 1, At(user, bucket, MINUTE_NS))
  }

  /** Requests 0 to n - 1 are all admitted, in the second minute. */
  ghost predicate Crowd(reqs: map<nat, Request>, n: nat, user: string, bucket: string) {
    forall id | 0 <= id < n ::
      id in reqs && IsAdmitted(reqs[id]) && reqs[id].user == user && reqs[id].bucket == bucket && reqs[id].now == MINUTE_NS
  }

  /** Before the stale request: n admissions, and both counters at n. */
  ghost predicate Crowded(s: State, n: nat, user: string, bucket: string) {
    && s.clock <= MINUTE_NS && Crowd(s.reqs, n, user, bucket) && (forall id :: id in s.reqs <==> 0 <= id < n)
    && CountAt(s.store, Key(Minute, bucket, user), MINUTE_NS) == n
    && CountAt(s.store, Key(Day, bucket, user), MINUTE_NS) == n
  }

  /** After it: the minute's counter is gone, the day's is not. */
  ghost predicate Cleared(s: State, n: nat, user: string, bucket: string) {
    && s.clock == MINUTE_NS && Crowd(s.reqs, n, user, bucket) && (forall id :: id in s.reqs <==> 0 <= id <= n)
    && Key(Minute, bucket, user) !in s.store && CountAt(s.store, Key(Day, bucket, user), MINUTE_NS) == n
    && !IsAdmitted(s.reqs[n])
  }

  lemma BurstCrowds(c: Config, user: string, bucket: string, n: nat)
    requires ColonFree(c.limits) && bucket in c.limits && 0 < n == c.limits[bucket].minute < c.limits[bucket].daily
    ensures Crowded(Exec(c, INITIAL, CallsEvents(c, 0, Burst(user, bucket, 0, n))), n, user, bucket)
  {
    BurstRun(c, user, bucket, 0, n);
    BurstLeaves(c, user, bucket, n);
  }

  lemma StaleClears(c: Config, s: State, user: string, bucket: string, n: nat)
    requires bucket in c.limits && 0 < n == c.limits[bucket].minute && Crowded(s, n, user, bucket)
    ensures Cleared(Exec(c, s, StaleEvents(n, user, bucket)), n, user, bucket)
  {
    StaleRequestClearsCounter(c, s, n, user, bucket);
    KeysDiffer(bucket, user);
  }

  lemma KeysDiffer(bucket: string, user: string)
    ensures Key(Minute, bucket, user) != Key(Day, bucket, user)
  {
    KeyParts(Minute, bucket, user);
    KeyParts(Day, bucket, user);
  }

  /** After the stale request the counter starts over. */
  lemma StaleLeavesRoom(c: Config, user: string, bucket: string, n: nat)
    requires ColonFree(c.limits) && bucket in c.limits && 0 < n == c.limits[bucket].minute < c.limits[bucket].daily
    ensures Cleared(Exec(c, INITIAL, CallsEvents(c, 0, Burst(user, bucket, 0, n)) + StaleEvents(n, user, bucket)), n, user, bucket)
  {
    var calls, stale := CallsEvents(c, 0, Burst(user, bucket, 0, n)), StaleEvents(n, user, bucket);
    BurstCrowds(c, user, bucket, n);
    StaleClears(c, Exec(c, INITIAL, calls), user, bucket, n);
    ExecConcat(c, INITIAL, calls, stale);
  }

  /** Timeliness is needed: one stale request lets a fail-closed limiter admit more
      than the cap in a single minute. */
  lemma StaleRequestBreaksCap(c: Config, user: string, bucket: string)
    requires c.failClosed && ColonFree(c.limits) && bucket in c.limits
    requires 0 < c.limits[bucket].minute < c.limits[bucket].daily
    ensures exists es :: |AdmittedIn(Exec(c, INITIAL, es), bucket, user, Minute, 1)| > c.limits[bucket].minute
  {
    var n := c.limits[bucket].minute;
    var before := CallsEvents(c, 0, Burst(user, bucket, 0, n)) + StaleEvents(n, user, bucket);
    var last := At(user, bucket, MINUTE_NS);
    StaleLeavesRoom(c, user, bucket, n);
    var s := Exec(c, INITIAL, before);
    CallIsARun(c, s, n + 1, last);
    FreshCallAdmitted(c, s.store, user, bucket, n);
    var s' := Exec(c, s, CallEvents(c, n + 1, last));
    ExecConcat(c, INITIAL, before, CallEvents(c, n + 1, last));
    AdmittedPlusOne(s, s', user, bucket, n);
    assert Exec(c, INITIAL, StaleRun(c, user, bucket, n)) == s';
  }

  lemma AdmittedPlusOne(s: State, s': State, user: string, bucket: string, n: nat)
    requires Cleared(s, n, user, bucket) && n + 1 in s'.reqs && s'.reqs == s.reqs[n + 1 := s'.reqs[n + 1]]
    requires
      var r := s'.reqs[n + 1];
      IsAdmitted(r) && r.user == user && r.bucket == bucket && r.now == MINUTE_NS
    ensures |AdmittedIn(s', bucket, user, Minute, 1)| == n + 1
  {
    var admitted := AdmittedIn(s', bucket, user, Minute, 1);
    assert n + 1 in admitted;
    Interval(0, n, admitted - {n + 1});
  }

  lemma BurstMirrored(c: Config, user: string, bucket: string, n: nat, todo: seq<Attempt>)
    requires ColonFree(c.limits) && n > 0 && todo == Burst(user, bucket, 0, n)
    ensures
      var store := Serve(c.limits, c.failClosed, map[], todo).0;
      MirrorsIn(c.limits, store, todo, Minute, MINUTE_NS) && MirrorsIn(c.limits, store, todo, Day, MINUTE_NS)
  {
    BurstIs(user, bucket, 0, n);
    SequentialFrom(0, todo, user, bucket, 0);
    ServeMirrors(c.limits, c.failClosed, map[], [], 0, todo);
    assert [] + todo == todo;
  }

  lemma BurstLeaves(c: Config, user: string, bucket: string, n: nat)
    requires ColonFree(c.limits) && bucket in c.limits && n == c.limits[bucket].minute && 0 < n <= c.limits[bucket].daily
    ensures
      var store := Serve(c.limits, c.failClosed, map[], Burst(user, bucket, 0, n)).0;
      && CountAt(store, Key(Minute, bucket, user), MINUTE_NS) == n
      && CountAt(store, Key(Day, bucket, user), MINUTE_NS) == n
  {
    BurstMirrored(c, user, bucket, n, Burst(user, bucket, 0, n));
    BurstCounts(c.limits, user, bucket, 0, n);
    EdgeIndices();
  }

  lemma FreshCallAdmitted(c: Config, s: Store, user: string, bucket: string, n: nat)
    requires bucket in c.limits && 0 < c.limits[bucket].minute && n < c.limits[bucket].daily
    requires Key(Minute, bucket, user) !in s && CountAt(s, Key(Day, bucket, user), MINUTE_NS) == n
    ensures CheckSpec(c.limits, c.failClosed, s, user, bucket, MINUTE_NS, At(user, bucket, MINUTE_NS).env).1.Admitted?
  {
    assert [Minute, Day][1..] == [Day] && [Day][1..] == [];
    KeysDiffer(bucket, user);
  }
}
