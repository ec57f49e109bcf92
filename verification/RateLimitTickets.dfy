/** When nothing fails and no pipeline straddles the end of its window, the tickets
    of every counter and window are exactly 1, 2, ..., n. */
module RateLimitTickets {
  import opened Wrappers
  import opened RedisStore
  import opened RateLimiter
  import opened RateLimitRuns

  /** No command fails, and the clock does not leave a window while a pipeline on
      one of that window's counters is half executed. */
  ghost predicate PromptStep(s: State, e: Event) {
    && TimelyStep(s, e)
    && (e.RunIncr? || e.RunExpire? ==> e.fault.NoFault?)
    && (e.Tick? && s.clock <= e.to ==>
          forall id | id in s.reqs && s.reqs[id].phase.Expiring? ::
            Index(s.reqs[id].phase.w, e.to) == Index(s.reqs[id].phase.w, s.clock))
  }

  ghost predicate Prompt(c: Config, s: State, es: seq<Event>)
    decreases |es|
  {
    es == [] || (PromptStep(s, es[0]) && Prompt(c, Apply(c, s, es[0]), es[1..]))
  }

  /** Request id holds ticket n of counter k in the i-th window. */
  predicate Holds(s: State, id: nat, w: Window, k: string, i: nat, n: nat) {
    id in s.reqs && w in s.reqs[id].tickets && KeyOf(s.reqs[id], w) == k
    && Index(w, s.reqs[id].now) == i && s.reqs[id].tickets[w] == n
  }

  ghost predicate Held(s: State, w: Window, k: string, i: nat, n: nat) {
    exists id :: Holds(s, id, w, k, i, n)
  }

  /** Everything the live counter has counted was handed to somebody. */
  ghost predicate CountAccounted(s: State, w: Window, k: string) {
    forall n | 1 <= n <= CountAt(s.store, k, s.clock) :: Held(s, w, k, Index(w, s.clock), n)
  }

  predicate InFlight(s: State, id: nat, w: Window, k: string) {
    id in s.reqs && s.reqs[id].phase.Expiring? && s.reqs[id].phase.w == w && KeyOf(s.reqs[id], w) == k
    && Index(w, s.reqs[id].now) == Index(w, s.clock)
  }

  /** A counter ends with the current window, unless its expiry is still on its way. */
  ghost predicate ExpiryDue(s: State, w: Window, k: string) {
    k in s.store ==>
      match s.store[k].expiry
      case Some(e) => e <= WindowEnd(w, s.clock)
      case None => exists id :: InFlight(s, id, w, k)
  }

  ghost predicate CountersExact(s: State) {
    forall w, b, u :: CountAccounted(s, w, Key(w, b, u)) && ExpiryDue(s, w, Key(w, b, u))
  }

  /** Below every ticket lie all the smaller ones. */
  ghost predicate Contiguous(s: State) {
    forall id, w, n | id in s.reqs && w in s.reqs[id].tickets && 1 <= n <= s.reqs[id].tickets[w] ::
      Held(s, w, KeyOf(s.reqs[id], w), Index(w, s.reqs[id].now), n)
  }

  ghost predicate ExactInv(c: Config, s: State) {
    Inv(c, s) && CountersExact(s) && Contiguous(s)
  }

  lemma HoldsPersists(c: Config, s: State, e: Event, id: nat, w: Window, k: string, i: nat, n: nat)
    requires RequestsOk(c, s) && Holds(s, id, w, k, i, n)
    ensures Holds(Apply(c, s, e), id, w, k, i, n)
  {
    assert RequestOk(c, s.reqs[id]);
    if e.Tick? || e.id != id { StepChangesOne(c, s, e, id); }
  }

  lemma HeldPersists(c: Config, s: State, e: Event, w: Window, k: string, i: nat, n: nat)
    requires RequestsOk(c, s) && Held(s, w, k, i, n)
    ensures Held(Apply(c, s, e), w, k, i, n)
  {
    var id :| Holds(s, id, w, k, i, n);
    HoldsPersists(c, s, e, id, w, k, i, n);
  }

  lemma ExpiredByNextWindow(w: Window, e: nat, t: nat, t': nat)
    requires e <= WindowEnd(w, t) && t <= t' < e
    ensures Index(w, t') == Index(w, t)
  {
    SameWindow(w, t, t');
  }

  lemma TickKeepsCounter(c: Config, s: State, to: nat, w: Window, k: string)
    requires RequestsOk(c, s) && PromptStep(s, Tick(to)) && s.clock <= to
    requires CountAccounted(s, w, k) && ExpiryDue(s, w, k)
    ensures CountAccounted(Apply(c, s, Tick(to)), w, k) && ExpiryDue(Apply(c, s, Tick(to)), w, k)
  {
    var s' := Apply(c, s, Tick(to));
    SameWindow(w, s.clock, to);
    WindowEndIsNextStart(w, s.clock);
    WindowEndIsNextStart(w, to);
    if k in s.store && s.store[k].expiry.None? {
      var id :| InFlight(s, id, w, k);
      assert InFlight(s', id, w, k);
    }
    forall n | 1 <= n <= CountAt(s'.store, k, s'.clock)
      ensures Held(s', w, k, Index(w, s'.clock), n)
    {
      if s.store[k].expiry.Some? {
        ExpiredByNextWindow(w, s.store[k].expiry.value, s.clock, to);
      }
      HeldPersists(c, s, Tick(to), w, k, Index(w, s.clock), n);
    }
  }

  lemma IncrKeepsCounter(c: Config, s: State, id: nat, w: Window, k: string)
    requires RequestsOk(c, s) && PromptStep(s, RunIncr(id, NoFault)) && id in s.reqs && s.reqs[id].phase.Incrementing?
    requires CountAccounted(s, w, k) && ExpiryDue(s, w, k)
    requires k == KeyOf(s.reqs[id], s.reqs[id].phase.w) ==> w == s.reqs[id].phase.w
    ensures CountAccounted(Apply(c, s, RunIncr(id, NoFault)), w, k) && ExpiryDue(Apply(c, s, RunIncr(id, NoFault)), w, k)
  {
    var e := RunIncr(id, NoFault);
    var s' := Apply(c, s, e);
    var r := s.reqs[id];
    if k == KeyOf(r, r.phase.w) {
      assert InFlight(s', id, w, k);
      assert Holds(s', id, w, k, Index(w, s'.clock), CountAt(s'.store, k, s'.clock));
    } else if k in s.store && s.store[k].expiry.None? {
      var id' :| InFlight(s, id', w, k);
      assert InFlight(s', id', w, k);
    }
    forall n | 1 <= n <= CountAt(s'.store, k, s'.clock)
      ensures Held(s', w, k, Index(w, s'.clock), n)
    {
      if n <= CountAt(s.store, k, s.clock) {
        HeldPersists(c, s, e, w, k, Index(w, s.clock), n);
      }
    }
  }

  lemma ExpireKeepsCounter(c: Config, s: State, id: nat, w: Window, k: string)
    requires RequestsOk(c, s) && TicketsBacked(s) && PromptStep(s, RunExpire(id, NoFault)) && id in s.reqs && s.reqs[id].phase.Expiring?
    requires s.reqs[id].phase.reply.Some?
    requires CountAccounted(s, w, k) && ExpiryDue(s, w, k)
    requires k == KeyOf(s.reqs[id], s.reqs[id].phase.w) ==> w == s.reqs[id].phase.w
    ensures CountAccounted(Apply(c, s, RunExpire(id, NoFault)), w, k) && ExpiryDue(Apply(c, s, RunExpire(id, NoFault)), w, k)
  {
    var e := RunExpire(id, NoFault);
    var s' := Apply(c, s, e);
    var r := s.reqs[id];
    if k == KeyOf(r, r.phase.w) {
      SameWindow(w, r.now, s.clock);
      assert RequestOk(c, r);
      assert Backed(s.store, s.clock, k, w, r.now, r.tickets[w]);
    } else if k in s.store && s.store[k].expiry.None? {
      var id' :| InFlight(s, id', w, k);
      assert InFlight(s', id', w, k);
    }
    forall n | 1 <= n <= CountAt(s'.store, k, s'.clock)
      ensures Held(s', w, k, Index(w, s'.clock), n)
    {
      HeldPersists(c, s, e, w, k, Index(w, s.clock), n);
    }
  }

  /** Arrivals and reads leave every counter as it was. */
  lemma QuietStepKeepsCounter(c: Config, s: State, e: Event, w: Window, k: string)
    requires RequestsOk(c, s) && (e.Arrive? || e.RunGet?)
    requires CountAccounted(s, w, k) && ExpiryDue(s, w, k)
    ensures CountAccounted(Apply(c, s, e), w, k) && ExpiryDue(Apply(c, s, e), w, k)
  {
    var s' := Apply(c, s, e);
    if k in s.store && s.store[k].expiry.None? {
      var id' :| InFlight(s, id', w, k);
      assert InFlight(s', id', w, k);
    }
    forall n | 1 <= n <= CountAt(s'.store, k, s'.clock)
      ensures Held(s', w, k, Index(w, s'.clock), n)
    {
      HeldPersists(c, s, e, w, k, Index(w, s.clock), n);
    }
  }

  /** Without failures, a pipeline under way has had its reply. */
  predicate RepliesKnown(s: State) {
    forall id | id in s.reqs && s.reqs[id].phase.Expiring? :: s.reqs[id].phase.reply.Some?
  }

  lemma StepKeepsCounters(c: Config, s: State, e: Event)
    requires RequestsOk(c, s) && TicketsBacked(s) && RepliesKnown(s) && CountersExact(s) && PromptStep(s, e)
    ensures CountersExact(Apply(c, s, e))
  {
    var s' := Apply(c, s, e);
    if s' == s { return; }
    forall w, b, u
      ensures CountAccounted(s', w, Key(w, b, u)) && ExpiryDue(s', w, Key(w, b, u))
    {
      var k := Key(w, b, u);
      assert CountAccounted(s, w, k) && ExpiryDue(s, w, k);
      if (e.RunIncr? || e.RunExpire?) && k == KeyOf(s.reqs[e.id], s.reqs[e.id].phase.w) {
        KeyInjective(w, b, u, s.reqs[e.id].phase.w, s.reqs[e.id].bucket, s.reqs[e.id].user);
      }
      match e
      case Tick(to) => TickKeepsCounter(c, s, to, w, k);
      case RunIncr(id, _) => IncrKeepsCounter(c, s, id, w, k);
      case RunExpire(id, _) => ExpireKeepsCounter(c, s, id, w, k);
      case Arrive(_, _, _, _) => QuietStepKeepsCounter(c, s, e, w, k);
      case RunGet(_, _) => QuietStepKeepsCounter(c, s, e, w, k);
    }
  }

  lemma StepKeepsContiguous(c: Config, s: State, e: Event)
    requires RequestsOk(c, s) && Contiguous(s) && PromptStep(s, e) && CountersExact(Apply(c, s, e))
    ensures Contiguous(Apply(c, s, e))
  {
    var s' := Apply(c, s, e);
    forall id, w, n | id in s'.reqs && w in s'.reqs[id].tickets && 1 <= n <= s'.reqs[id].tickets[w]
      ensures Held(s', w, KeyOf(s'.reqs[id], w), Index(w, s'.reqs[id].now), n)
    {
      var r' := s'.reqs[id];
      if id in s.reqs && w in s.reqs[id].tickets && s.reqs[id].tickets[w] == r'.tickets[w] {
        HeldPersists(c, s, e, w, KeyOf(s.reqs[id], w), Index(w, s.reqs[id].now), n);
      } else {
        assert CountAccounted(s', w, Key(w, r'.bucket, r'.user));
      }
    }
  }

  lemma StepKeepsExact(c: Config, s: State, e: Event)
    requires ExactInv(c, s) && RepliesKnown(s) && PromptStep(s, e)
    ensures ExactInv(c, Apply(c, s, e)) && RepliesKnown(Apply(c, s, e))
  {
    StepKeepsInv(c, s, e);
    StepKeepsCounters(c, s, e);
    StepKeepsContiguous(c, s, e);
  }

  lemma {:induction false} RunKeepsExact(c: Config, s: State, es: seq<Event>)
    requires ExactInv(c, s) && RepliesKnown(s) && Prompt(c, s, es)
    ensures ExactInv(c, Exec(c, s, es))
    decreases |es|
  {
    if es != [] {
      StepKeepsExact(c, s, es[0]);
      RunKeepsExact(c, Apply(c, s, es[0]), es[1..]);
    }
  }

  /** The requests of one user and bucket that drew a ticket in the i-th window. */
  function Holders(s: State, bucket: string, user: string, w: Window, i: nat): set<nat> {
    set id | id in s.reqs && w in s.reqs[id].tickets && s.reqs[id].bucket == bucket && s.reqs[id].user == user
             && Index(w, s.reqs[id].now) == i
  }

  function TicketsOf(s: State, ids: set<nat>, w: Window): set<nat>
    requires forall id | id in ids :: id in s.reqs && w in s.reqs[id].tickets
  {
    set id | id in ids :: s.reqs[id].tickets[w]
  }

  /** A set of positive numbers containing everything below each member is 1..|S|. */
  lemma {:induction false} InitialSegment(numbers: set<nat>)
    requires forall n | n in numbers :: 1 <= n
    requires forall n, m | n in numbers && 1 <= m <= n :: m in numbers
    ensures forall m :: m in numbers <==> 1 <= m <= |numbers|
  {
    if numbers != {} {
      var top := MaxOf(numbers);
      forall n, m | n in numbers - {top} && 1 <= m <= n ensures m in numbers - {top} {
      }
      InitialSegment(numbers - {top});
      assert |numbers - {top}| == |numbers| - 1;
      if top - 1 >= 1 { assert top - 1 in numbers - {top}; }
      assert top == |numbers|;
    }
  }

  lemma {:induction false} MaxOf(numbers: set<nat>) returns (top: nat)
    requires numbers != {}
    ensures top in numbers && forall n | n in numbers :: n <= top
  {
    var x :| x in numbers;
    if numbers == {x} {
      top := x;
    } else {
      assert numbers - {x} != {};
      var rest := MaxOf(numbers - {x});
      assert forall n | n in numbers :: n == x || n in numbers - {x};
      top := if rest < x then x else rest;
    }
  }

  lemma {:induction false} DistinctImageSize(s: State, ids: set<nat>, w: Window)
    requires forall id | id in ids :: id in s.reqs && w in s.reqs[id].tickets
    requires forall id, id' | id in ids && id' in ids && id != id' :: s.reqs[id].tickets[w] != s.reqs[id'].tickets[w]
    ensures |TicketsOf(s, ids, w)| == |ids|
  {
    if ids != {} {
      var id :| id in ids;
      DistinctImageSize(s, ids - {id}, w);
      assert TicketsOf(s, ids, w) == TicketsOf(s, ids - {id}, w) + {s.reqs[id].tickets[w]};
    }
  }

  lemma HoldersDistinct(s: State, bucket: string, user: string, w: Window, i: nat)
    requires TicketsDistinct(s)
    ensures |TicketsOf(s, Holders(s, bucket, user, w, i), w)| == |Holders(s, bucket, user, w, i)|
  {
    var holders := Holders(s, bucket, user, w, i);
    forall id, id' | id in holders && id' in holders && id != id'
      ensures s.reqs[id].tickets[w] != s.reqs[id'].tickets[w]
    {
      assert SameCounter(s.reqs[id], s.reqs[id'], w);
    }
    DistinctImageSize(s, holders, w);
  }

  /** The tickets of a user, bucket and window are exactly 1..n, one per request. */
  lemma TicketsAreExact(c: Config, es: seq<Event>, bucket: string, user: string, w: Window, i: nat)
    requires Prompt(c, INITIAL, es)
    requires ':' !in bucket && forall b | b in c.limits :: ':' !in b
    ensures
      var s := Exec(c, INITIAL, es);
      var holders := Holders(s, bucket, user, w, i);
      && (forall n :: n in TicketsOf(s, holders, w) <==> 1 <= n <= |holders|)
      && |TicketsOf(s, holders, w)| == |holders|
  {
    RunKeepsExact(c, INITIAL, es);
    var s := Exec(c, INITIAL, es);
    var holders := Holders(s, bucket, user, w, i);
    var numbers := TicketsOf(s, holders, w);
    HoldersDistinct(s, bucket, user, w, i);
    forall n | n in numbers ensures 1 <= n {
      var id :| id in holders && s.reqs[id].tickets[w] == n;
      assert RequestOk(c, s.reqs[id]);
    }
    forall n, m | n in numbers && 1 <= m <= n ensures m in numbers {
      var id :| id in holders && s.reqs[id].tickets[w] == n;
      SmallerHolder(c, s, id, w, m);
    }
    InitialSegment(numbers);
  }

  lemma SmallerHolder(c: Config, s: State, id: nat, w: Window, m: nat)
    requires RequestsOk(c, s) && Contiguous(s)
    requires id in s.reqs && w in s.reqs[id].tickets && 1 <= m <= s.reqs[id].tickets[w]
    requires ':' !in s.reqs[id].bucket && forall b | b in c.limits :: ':' !in b
    ensures m in TicketsOf(s, Holders(s, s.reqs[id].bucket, s.reqs[id].user, w, Index(w, s.reqs[id].now)), w)
  {
    var r := s.reqs[id];
    assert Held(s, w, KeyOf(r, w), Index(w, r.now), m);
    var id' :| Holds(s, id', w, KeyOf(r, w), Index(w, r.now), m);
    assert RequestOk(c, s.reqs[id']);
    KeyInjective(w, r.bucket, r.user, w, s.reqs[id'].bucket, s.reqs[id'].user);
    assert id' in Holders(s, r.bucket, r.user, w, Index(w, r.now));
  }
}
