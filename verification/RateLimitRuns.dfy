/** Any number of concurrent calls of Check, interleaved command by command.

    Every request is a small machine: it increments a window's counter, sets the
    counter's expiry, decides, goes on to the next window, and finally reads the
    counter back.  The commands of different requests interleave freely, each of
    them may fail, and the clock of the store may advance between any two. */
module RateLimitRuns {
  import opened Wrappers
  import opened RedisStore
  import opened RateLimiter

  datatype Config = Config(limits: Limits, failClosed: bool)

  datatype Phase =
    | Incrementing(w: Window)
    | Expiring(w: Window, reply: Option<nat>)
    | Reading
    | Done(outcome: Outcome)

  /** `tickets` records the counts the server replied with, `failed` the windows
      whose pipeline reported an error; both are history, not read by a step. */
  datatype Request = Request(user: string, bucket: string, cfg: BucketConfig, now: nat,
                             phase: Phase, tickets: map<Window, nat>, failed: set<Window>)

  datatype State = State(clock: nat, store: Store, reqs: map<nat, Request>)

  datatype Event =
    | Tick(to: nat)
    | Arrive(id: nat, user: string, bucket: string, now: nat)
    | RunIncr(id: nat, fault: Fault)
    | RunExpire(id: nat, fault: Fault)
    | RunGet(id: nat, ok: bool)

  const INITIAL := State(0, map[], map[])

  function KeyOf(r: Request, w: Window): string {
    Key(w, r.bucket, r.user)
  }

  function After(cfg: BucketConfig, w: Window): Phase {
    if w.Minute? && cfg.daily > 0 then Incrementing(Day) else Reading
  }

  function FirstPhase(cfg: BucketConfig): Phase {
    if cfg.minute > 0 then Incrementing(Minute) else After(cfg, Minute)
  }

  function Arrival(c: Config, user: string, bucket: string, now: nat): Request {
    if bucket in c.limits then
      Request(user, bucket, c.limits[bucket], now, FirstPhase(c.limits[bucket]), map[], {})
    else
      Request(user, bucket, BucketConfig(0, 0), now, Done(Rejected(UnknownBucket)), map[], {})
  }

  function AfterIncr(r: Request, reply: Option<nat>): Request
    requires r.phase.Incrementing?
  {
    r.(phase := Expiring(r.phase.w, reply),
       tickets := if reply.Some? then r.tickets[r.phase.w := reply.value] else r.tickets)
  }

  function AfterExpire(c: Config, r: Request, ok: bool): Request
    requires r.phase.Expiring?
  {
    var w := r.phase.w;
    r.(phase := match Decide(c.failClosed, r.phase.reply, ok, Cap(r.cfg, w), w, r.now)
                case Refuse(e) => Done(Rejected(e))
                case Pass => After(r.cfg, w),
       failed := if r.phase.reply.None? || !ok then r.failed + {w} else r.failed)
  }

  /** One step.  An event that does not apply in the current state does nothing. */
  function Apply(c: Config, s: State, e: Event): State {
    match e
    case Tick(to) => if to < s.clock then s else s.(clock := to)
    case Arrive(id, user, bucket, now) =>
      if id in s.reqs then s else s.(reqs := s.reqs[id := Arrival(c, user, bucket, now)])
    case RunIncr(id, fault) =>
      if id !in s.reqs || !s.reqs[id].phase.Incrementing? then s
      else
        var r := s.reqs[id];
        var k := KeyOf(r, r.phase.w);
        var store := Delivered(fault, s.store, Incr(s.store, k, s.clock));
        var reply := if fault.NoFault? then Some(CountAt(store, k, s.clock)) else None;
        s.(store := store, reqs := s.reqs[id := AfterIncr(r, reply)])
    case RunExpire(id, fault) =>
      if id !in s.reqs || !s.reqs[id].phase.Expiring? then s
      else
        var r := s.reqs[id];
        var w := r.phase.w;
        var store := Delivered(fault, s.store, ExpireAt(s.store, KeyOf(r, w), WindowEnd(w, r.now), s.clock));
        s.(store := store, reqs := s.reqs[id := AfterExpire(c, r, fault.NoFault?)])
    case RunGet(id, ok) =>
      if id !in s.reqs || !s.reqs[id].phase.Reading? then s
      else
        var r := s.reqs[id];
        var count := CountAt(s.store, KeyOf(r, Advertised(r.cfg)), s.clock);
        s.(reqs := s.reqs[id := r.(phase := Done(ReadBack(c.failClosed, r.cfg, r.now, count, ok)))])
  }

  function Exec(c: Config, s: State, es: seq<Event>): State
    decreases |es|
  {
    if es == [] then s else Exec(c, Apply(c, s, es[0]), es[1..])
  }

  /** A counter command that reaches the store does so inside the window of the
      request's `now`.  Commands that are lost, and reads, are not constrained. */
  predicate TimelyStep(s: State, e: Event) {
    (e.RunIncr? || e.RunExpire?) && !e.fault.LostRequest? && e.id in s.reqs ==>
      var r := s.reqs[e.id];
      && (e.RunIncr? && r.phase.Incrementing? ==> Index(r.phase.w, r.now) == Index(r.phase.w, s.clock))
      && (e.RunExpire? && r.phase.Expiring? ==> Index(r.phase.w, r.now) == Index(r.phase.w, s.clock))
  }

  predicate Timely(c: Config, s: State, es: seq<Event>)
    decreases |es|
  {
    es == [] || (TimelyStep(s, es[0]) && Timely(c, Apply(c, s, es[0]), es[1..]))
  }

  lemma ExecConcat(c: Config, s: State, a: seq<Event>, b: seq<Event>)
    ensures Exec(c, s, a + b) == Exec(c, Exec(c, s, a), b)
    ensures Timely(c, s, a + b) <==> Timely(c, s, a) && Timely(c, Exec(c, s, a), b)
    decreases |a|
  {
    if a == [] {
      assert a + b == b;
    } else {
      assert (a + b)[0] == a[0] && (a + b)[1..] == a[1..] + b;
      ExecConcat(c, Apply(c, s, a[0]), a[1..], b);
    }
  }

  // ---------- The invariant ----------

  /** A ticket for the current window is backed by a live counter at least as high. */
  predicate Backed(store: Store, clock: nat, k: string, w: Window, now: nat, ticket: nat) {
    && Index(w, now) <= Index(w, clock)
    && (Index(w, now) == Index(w, clock) ==> Live(store, k, clock) && ticket <= store[k].count)
  }

  /** Window w lets the request through: no limit, no answer, or a low enough ticket. */
  predicate Settled(r: Request, w: Window) {
    Cap(r.cfg, w) == 0 || w in r.failed || (w in r.tickets && r.tickets[w] <= Cap(r.cfg, w))
  }

  predicate Untouched(r: Request, w: Window) {
    w !in r.tickets && w !in r.failed
  }

  predicate PhaseOk(r: Request) {
    match r.phase
    case Incrementing(w) => Cap(r.cfg, w) > 0 && Untouched(r, w) && (w.Day? ==> Settled(r, Minute)) && (w.Minute? ==> Untouched(r, Day))
    case Expiring(w, reply) =>
      && Cap(r.cfg, w) > 0 && w !in r.failed && (w.Day? ==> Settled(r, Minute)) && (w.Minute? ==> Untouched(r, Day))
      && (reply.Some? ==> w in r.tickets && r.tickets[w] == reply.value)
    case Reading => Settled(r, Minute) && Settled(r, Day)
    case Done(Admitted(result)) => Settled(r, Minute) && Settled(r, Day) && Advertises(r.cfg, r.now, result)
    case Done(Rejected(LimitExceeded(wait))) => RefusedBy(r, Minute, wait) || RefusedBy(r, Day, wait)
    case Done(Rejected(_)) => true
  }

  /** Window w turned the request away and told it to wait for the window's end. */
  predicate RefusedBy(r: Request, w: Window, wait: nat) {
    && w in r.tickets && 0 < Cap(r.cfg, w) < r.tickets[w]
    && r.now + wait == WindowEnd(w, r.now)
    && (w.Day? ==> Settled(r, Minute))
  }

  predicate RequestOk(c: Config, r: Request) {
    && PhaseOk(r)
    && (c.failClosed && r.failed != {} ==> r.phase.Done? && r.phase.outcome.Rejected?)
    && r.cfg == (if r.bucket in c.limits then c.limits[r.bucket] else BucketConfig(0, 0))
    && (r.bucket !in c.limits <==> r.phase == Done(Rejected(UnknownBucket)))
    && (r.phase == Done(Rejected(Unavailable)) ==> c.failClosed)
    && (forall w | w in r.tickets :: 1 <= r.tickets[w] && r.bucket in c.limits)
  }

  predicate TicketsBacked(s: State) {
    forall id, w | id in s.reqs && w in s.reqs[id].tickets ::
      Backed(s.store, s.clock, KeyOf(s.reqs[id], w), w, s.reqs[id].now, s.reqs[id].tickets[w])
  }

  predicate SameCounter(r: Request, r': Request, w: Window) {
    w in r.tickets && w in r'.tickets && KeyOf(r, w) == KeyOf(r', w) && Index(w, r.now) == Index(w, r'.now)
  }

  predicate TicketsDistinct(s: State) {
    forall id, id', w | id in s.reqs && id' in s.reqs && id != id' && SameCounter(s.reqs[id], s.reqs[id'], w) ::
      s.reqs[id].tickets[w] != s.reqs[id'].tickets[w]
  }

  /** Expiries only ever sit on the boundaries of the key's own window. */
  ghost predicate BoundaryExpiries(store: Store) {
    forall w, b, u | Key(w, b, u) in store && store[Key(w, b, u)].expiry.Some? ::
      store[Key(w, b, u)].expiry.value % Length(w) == 0
  }

  ghost predicate Inv(c: Config, s: State) {
    && RequestsOk(c, s)
    && TicketsBacked(s)
    && TicketsDistinct(s)
    && BoundaryExpiries(s.store)
  }

  lemma BoundaryOutlivesWindow(w: Window, e: nat, t: nat, t': nat)
    requires e % Length(w) == 0 && t < e && Index(w, t) == Index(w, t')
    ensures t' < e
  {
  }

  lemma BackedAfterTick(store: Store, w: Window, b: string, u: string, now: nat, ticket: nat, t: nat, t': nat)
    requires BoundaryExpiries(store) && Backed(store, t, Key(w, b, u), w, now, ticket) && t <= t'
    ensures Backed(store, t', Key(w, b, u), w, now, ticket)
  {
    assert Index(w, t) <= Index(w, t');
    var k := Key(w, b, u);
    if Index(w, now) == Index(w, t') && store[k].expiry.Some? {
      BoundaryOutlivesWindow(w, store[k].expiry.value, t, t');
    }
  }

  lemma BackedAfterIncr(store: Store, k: string, clock: nat, k': string, w: Window, now: nat, ticket: nat)
    requires Backed(store, clock, k', w, now, ticket)
    ensures Backed(Incr(store, k, clock), clock, k', w, now, ticket)
    ensures k == k' && Index(w, now) == Index(w, clock) ==> ticket < CountAt(Incr(store, k, clock), k, clock)
  {
  }

  lemma BackedAfterExpire(store: Store, w: Window, b: string, u: string, n: nat, clock: nat, w': Window, b': string, u': string, now: nat, ticket: nat)
    requires Index(w, n) == Index(w, clock)
    requires Backed(store, clock, Key(w', b', u'), w', now, ticket)
    ensures Backed(ExpireAt(store, Key(w, b, u), WindowEnd(w, n), clock), clock, Key(w', b', u'), w', now, ticket)
  {
    SameWindow(w, n, clock);
  }

  lemma BoundariesAfterIncr(store: Store, k: string, clock: nat)
    requires BoundaryExpiries(store)
    ensures BoundaryExpiries(Incr(store, k, clock))
  {
  }

  lemma BoundariesAfterExpire(store: Store, w: Window, b: string, u: string, n: nat, clock: nat)
    requires BoundaryExpiries(store)
    ensures BoundaryExpiries(ExpireAt(store, Key(w, b, u), WindowEnd(w, n), clock))
  {
    var store' := ExpireAt(store, Key(w, b, u), WindowEnd(w, n), clock);
    forall w', b', u' | Key(w', b', u') in store' && store'[Key(w', b', u')].expiry.Some?
      ensures store'[Key(w', b', u')].expiry.value % Length(w') == 0
    {
      if Key(w', b', u') == Key(w, b, u) {
        KeyInjective(w, b, u, w', b', u');
        WindowEndIsNextStart(w, n);
      }
    }
  }

  lemma TickKeepsBacking(c: Config, s: State, to: nat)
    requires TicketsBacked(s) && BoundaryExpiries(s.store)
    ensures TicketsBacked(Apply(c, s, Tick(to)))
  {
    var s' := Apply(c, s, Tick(to));
    forall id, w | id in s'.reqs && w in s'.reqs[id].tickets
      ensures Backed(s'.store, s'.clock, KeyOf(s'.reqs[id], w), w, s'.reqs[id].now, s'.reqs[id].tickets[w])
    {
      var r := s.reqs[id];
      BackedAfterTick(s.store, w, r.bucket, r.user, r.now, r.tickets[w], s.clock, s'.clock);
    }
  }

  predicate RequestsOk(c: Config, s: State) {
    forall id | id in s.reqs :: RequestOk(c, s.reqs[id])
  }

  /** The request that an event concerns is the only one it changes. */
  lemma StepChangesOne(c: Config, s: State, e: Event, id: nat)
    requires id in s.reqs && (e.Tick? || e.id != id)
    ensures id in Apply(c, s, e).reqs && Apply(c, s, e).reqs[id] == s.reqs[id]
  {
  }

  lemma ArriveIsOk(c: Config, s: State, id: nat, user: string, bucket: string, now: nat)
    requires id !in s.reqs
    ensures
      var s' := Apply(c, s, Arrive(id, user, bucket, now));
      id in s'.reqs ==> RequestOk(c, s'.reqs[id])
  {
  }

  lemma IncrKeepsRequest(c: Config, s: State, id: nat, fault: Fault)
    requires id in s.reqs && RequestOk(c, s.reqs[id])
    ensures RequestOk(c, Apply(c, s, RunIncr(id, fault)).reqs[id])
  {
  }

  lemma ExpireKeepsRequest(c: Config, s: State, id: nat, fault: Fault)
    requires id in s.reqs && RequestOk(c, s.reqs[id])
    ensures RequestOk(c, Apply(c, s, RunExpire(id, fault)).reqs[id])
  {
  }

  lemma GetKeepsRequest(c: Config, s: State, id: nat, ok: bool)
    requires id in s.reqs && RequestOk(c, s.reqs[id])
    ensures RequestOk(c, Apply(c, s, RunGet(id, ok)).reqs[id])
  {
  }

  lemma OwnStepKeepsRequest(c: Config, s: State, e: Event)
    requires !e.Tick? && (e.id in s.reqs ==> RequestOk(c, s.reqs[e.id]))
    ensures e.id in Apply(c, s, e).reqs ==> RequestOk(c, Apply(c, s, e).reqs[e.id])
  {
    match e
    case Arrive(id, user, bucket, now) =>
      if id !in s.reqs { ArriveIsOk(c, s, id, user, bucket, now); }
    case RunIncr(id, fault) =>
      if id in s.reqs { IncrKeepsRequest(c, s, id, fault); }
    case RunExpire(id, fault) =>
      if id in s.reqs { ExpireKeepsRequest(c, s, id, fault); }
    case RunGet(id, ok) =>
      if id in s.reqs { GetKeepsRequest(c, s, id, ok); }
  }

  lemma NoNewRequest(c: Config, s: State, e: Event, id: nat)
    requires id !in s.reqs && (e.Tick? || e.id != id)
    ensures id !in Apply(c, s, e).reqs
  {
  }

  lemma StepKeepsRequests(c: Config, s: State, e: Event)
    requires RequestsOk(c, s)
    ensures RequestsOk(c, Apply(c, s, e))
  {
    var s' := Apply(c, s, e);
    forall id | id in s'.reqs ensures RequestOk(c, s'.reqs[id]) {
      if !e.Tick? && e.id == id {
        OwnStepKeepsRequest(c, s, e);
      } else if id in s.reqs {
        StepChangesOne(c, s, e, id);
      } else {
        NoNewRequest(c, s, e, id);
      }
    }
  }

  lemma IncrKeepsBacking(c: Config, s: State, id: nat, fault: Fault)
    requires TicketsBacked(s) && TimelyStep(s, RunIncr(id, fault))
    ensures TicketsBacked(Apply(c, s, RunIncr(id, fault)))
  {
    if id !in s.reqs || !s.reqs[id].phase.Incrementing? { return; }
    var s' := Apply(c, s, RunIncr(id, fault));
    var r := s.reqs[id];
    forall id', w | id' in s'.reqs && w in s'.reqs[id'].tickets
      ensures Backed(s'.store, s'.clock, KeyOf(s'.reqs[id'], w), w, s'.reqs[id'].now, s'.reqs[id'].tickets[w])
    {
      if id' != id || w != r.phase.w || !fault.NoFault? {
        var r' := s.reqs[id'];
        BackedAfterIncr(s.store, KeyOf(r, r.phase.w), s.clock, KeyOf(r', w), w, r'.now, r'.tickets[w]);
      }
    }
  }

  lemma IncrKeepsDistinct(c: Config, s: State, id: nat, fault: Fault)
    requires TicketsBacked(s) && TicketsDistinct(s) && TimelyStep(s, RunIncr(id, fault))
    ensures TicketsDistinct(Apply(c, s, RunIncr(id, fault)))
  {
    if id !in s.reqs || !s.reqs[id].phase.Incrementing? { return; }
    var s' := Apply(c, s, RunIncr(id, fault));
    var r, r' := s.reqs[id], s'.reqs[id];
    forall id', w | id' in s.reqs && id' != id && SameCounter(s.reqs[id'], r', w)
      ensures s.reqs[id'].tickets[w] != r'.tickets[w]
    {
      var o := s.reqs[id'];
      if w == r.phase.w && fault.NoFault? {
        BackedAfterIncr(s.store, KeyOf(r, w), s.clock, KeyOf(o, w), w, o.now, o.tickets[w]);
      } else {
        assert SameCounter(o, r, w);
      }
    }
    forall id1, id2, w | id1 in s'.reqs && id2 in s'.reqs && id1 != id2 && SameCounter(s'.reqs[id1], s'.reqs[id2], w)
      ensures s'.reqs[id1].tickets[w] != s'.reqs[id2].tickets[w]
    {
      if id1 == id {
        assert SameCounter(s.reqs[id2], r', w);
      } else if id2 == id {
        assert SameCounter(s.reqs[id1], r', w);
      } else {
        assert SameCounter(s.reqs[id1], s.reqs[id2], w);
      }
    }
  }

  lemma ExpireKeepsBacking(c: Config, s: State, id: nat, fault: Fault)
    requires TicketsBacked(s) && TimelyStep(s, RunExpire(id, fault))
    ensures TicketsBacked(Apply(c, s, RunExpire(id, fault)))
  {
    if id !in s.reqs || !s.reqs[id].phase.Expiring? { return; }
    var s' := Apply(c, s, RunExpire(id, fault));
    var r := s.reqs[id];
    forall id', w' | id' in s'.reqs && w' in s'.reqs[id'].tickets
      ensures Backed(s'.store, s'.clock, KeyOf(s'.reqs[id'], w'), w', s'.reqs[id'].now, s'.reqs[id'].tickets[w'])
    {
      var r' := s.reqs[id'];
      if !fault.LostRequest? {
        BackedAfterExpire(s.store, r.phase.w, r.bucket, r.user, r.now, s.clock, w', r'.bucket, r'.user, r'.now, r'.tickets[w']);
      }
    }
  }

  /** Steps that hand out no ticket keep the tickets apart. */
  lemma OtherStepsKeepDistinct(c: Config, s: State, e: Event)
    requires TicketsDistinct(s) && !e.RunIncr?
    ensures TicketsDistinct(Apply(c, s, e))
  {
    var s' := Apply(c, s, e);
    forall id1, id2, w | id1 in s'.reqs && id2 in s'.reqs && id1 != id2 && SameCounter(s'.reqs[id1], s'.reqs[id2], w)
      ensures s'.reqs[id1].tickets[w] != s'.reqs[id2].tickets[w]
    {
      assert SameCounter(s.reqs[id1], s.reqs[id2], w);
    }
  }

  /** Every step keeps the invariant, provided its command is timely. */
  lemma StepKeepsInv(c: Config, s: State, e: Event)
    requires Inv(c, s) && TimelyStep(s, e)
    ensures Inv(c, Apply(c, s, e))
  {
    StepKeepsRequests(c, s, e);
    if !e.RunIncr? { OtherStepsKeepDistinct(c, s, e); }
    match e
    case Tick(to) => TickKeepsBacking(c, s, to);
    case Arrive(id, user, bucket, now) =>
    case RunGet(id, ok) =>
    case RunIncr(id, fault) =>
      IncrKeepsBacking(c, s, id, fault);
      IncrKeepsDistinct(c, s, id, fault);
      if id in s.reqs && s.reqs[id].phase.Incrementing? {
        BoundariesAfterIncr(s.store, KeyOf(s.reqs[id], s.reqs[id].phase.w), s.clock);
      }
    case RunExpire(id, fault) =>
      ExpireKeepsBacking(c, s, id, fault);
      if id in s.reqs && s.reqs[id].phase.Expiring? {
        var r := s.reqs[id];
        BoundariesAfterExpire(s.store, r.phase.w, r.bucket, r.user, r.now, s.clock);
      }
  }

  lemma {:induction false} RunKeepsInv(c: Config, s: State, es: seq<Event>)
    requires Inv(c, s) && Timely(c, s, es)
    ensures Inv(c, Exec(c, s, es))
    decreases |es|
  {
    if es != [] {
      StepKeepsInv(c, s, es[0]);
      RunKeepsInv(c, Apply(c, s, es[0]), es[1..]);
    }
  }
}
