/** Calls served one after another, against a specification that looks only at the
    list of earlier attempts and knows nothing of counters or expiries. */
module RateLimitHistory {
  import opened Sequences
  import opened Wrappers
  import opened RedisStore
  import opened RateLimiter

  datatype Attempt = Attempt(user: string, bucket: string, now: nat, env: Timing)

  /** How many earlier attempts of this user and bucket were counted in the i-th
      window.  Every attempt counts in its minute; only those that pass the minute
      limit go on to count in their day. */
  function Counted(limits: Limits, h: seq<Attempt>, w: Window, bucket: string, user: string, i: nat): nat
    decreases |h|, 0
  {
    if h == [] then 0
    else
      var a := h[|h| - 1];
      var before := h[..|h| - 1];
      Counted(limits, before, w, bucket, user, i)
      + if a.bucket == bucket && a.user == user && Index(w, a.now) == i
           && bucket in limits && Cap(limits[bucket], w) > 0
           && (w.Day? ==> HasRoom(limits, before, Minute, a))
        then 1 else 0
  }

  /** Fewer earlier attempts than the cap, or no cap at all. */
  predicate HasRoom(limits: Limits, h: seq<Attempt>, w: Window, a: Attempt)
    decreases |h|, 1
  {
    a.bucket in limits &&
    (Cap(limits[a.bucket], w) == 0 || Counted(limits, h, w, a.bucket, a.user, Index(w, a.now)) < Cap(limits[a.bucket], w))
  }

  /** The answer the attempt deserves, given the attempts before it.  An admitted one
      is told what is left in the window in which the count is read back, itself
      included: that may be a later window than its own. */
  function Expected(limits: Limits, failClosed: bool, h: seq<Attempt>, a: Attempt): Outcome {
    if a.bucket !in limits then Rejected(UnknownBucket)
    else if !HasRoom(limits, h, Minute, a) then Rejected(LimitExceeded(WindowEnd(Minute, a.now) - a.now))
    else if !HasRoom(limits, h, Day, a) then Rejected(LimitExceeded(WindowEnd(Day, a.now) - a.now))
    else if failClosed && !a.env.getOk then Rejected(Unavailable)
    else
      var w := Advertised(limits[a.bucket]);
      var cap := Cap(limits[a.bucket], w);
      var seen := if a.env.getOk then Counted(limits, h + [a], w, a.bucket, a.user, Index(w, a.env.getAt)) else 0;
      Admitted(CheckResult(cap, if seen <= cap then cap - seen else 0, WindowEnd(w, a.now)))
  }

  function Serve(limits: Limits, failClosed: bool, s: Store, todo: seq<Attempt>): (r: (Store, seq<Outcome>))
    ensures |r.1| == |todo|
    decreases |todo|
  {
    if todo == [] then (s, [])
    else
      var (s', outcome) := CheckSpec(limits, failClosed, s, todo[0].user, todo[0].bucket, todo[0].now, todo[0].env);
      var (s'', outcomes) := Serve(limits, failClosed, s', todo[1..]);
      (s'', [outcome] + outcomes)
  }

  /** Both commands execute in the window of `now`. */
  predicate InWindow(w: Window, p: Pipe, now: nat) {
    Index(w, p.incrAt) == Index(w, now) == Index(w, p.expireAt)
  }

  predicate PipeOrderly(w: Window, p: Pipe, now: nat) {
    p.incrFault.NoFault? && p.expireFault.NoFault? && p.incrAt <= p.expireAt && InWindow(w, p, now)
  }

  /** No failing counter command; commands in order, and those on each counter in the
      counter's own window of `now`.  The call may cross a minute between its two
      pipelines, and any boundary before it reads the count back. */
  predicate AttemptOrderly(a: Attempt) {
    && PipeOrderly(Minute, a.env.minute, a.now) && PipeOrderly(Day, a.env.day, a.now)
    && a.env.minute.expireAt <= a.env.day.incrAt && a.env.day.expireAt <= a.env.getAt
  }

  /** One after another, starting no earlier than t. */
  predicate Sequential(t: nat, todo: seq<Attempt>)
    decreases |todo|
  {
    todo == [] || (AttemptOrderly(todo[0]) && t <= todo[0].env.minute.incrAt && Sequential(todo[0].env.getAt, todo[1..]))
  }

  predicate ColonFree(limits: Limits) {
    forall b | b in limits :: ':' !in b
  }

  lemma IndexMonotone(t: nat, t': nat)
    requires t <= t'
    ensures Index(Minute, t) <= Index(Minute, t') && Index(Day, t) <= Index(Day, t')
  {
  }

  lemma OrderlyIndices(a: Attempt)
    requires AttemptOrderly(a)
    ensures forall w :: Index(w, PipeOf(a.env, w).incrAt) == Index(w, a.now) == Index(w, PipeOf(a.env, w).expireAt)
    ensures forall w :: Index(w, a.now) <= Index(w, a.env.getAt)
  {
    IndexMonotone(a.env.minute.expireAt, a.env.getAt);
    IndexMonotone(a.env.day.expireAt, a.env.getAt);
    forall w ensures Index(w, PipeOf(a.env, w).incrAt) == Index(w, a.now) == Index(w, PipeOf(a.env, w).expireAt) {
      assert PipeOrderly(w, PipeOf(a.env, w), a.now);
    }
    forall w ensures Index(w, a.now) <= Index(w, a.env.getAt) {
      assert PipeOrderly(w, PipeOf(a.env, w), a.now);
    }
  }

  /** A completed pipeline leaves its counter one higher until the window ends, and
      gone afterwards; the other counters are as before. */
  lemma PipelineEffect(s: Store, k: string, w: Window, now: nat, p: Pipe)
    requires p.incrFault.NoFault? && p.expireFault.NoFault? && p.incrAt <= p.expireAt
    requires Index(w, p.incrAt) == Index(w, now) == Index(w, p.expireAt)
    requires forall k | k in s :: s[k].count >= 1
    requires CountAt(s, k, p.incrAt) == CountAt(s, k, p.expireAt)
    ensures
      var s' := StoreAfterWindow(s, k, w, now, p);
      && (forall t | p.expireAt <= t ::
            CountAt(s', k, t) == if Index(w, t) == Index(w, now) then CountAt(s, k, p.incrAt) + 1 else 0)
      && (forall k', t | k' != k :: CountAt(s', k', t) == CountAt(s, k', t))
      && (forall k' | k' in s' :: s'[k'].count >= 1)
  {
    var s1 := Incr(s, k, p.incrAt);
    assert Live(s1, k, p.expireAt);
    SameWindow(w, now, p.expireAt);
    var s' := StoreAfterWindow(s, k, w, now, p);
    forall t | p.expireAt <= t
      ensures CountAt(s', k, t) == if Index(w, t) == Index(w, now) then CountAt(s, k, p.incrAt) + 1 else 0
    {
      SameWindow(w, now, t);
      assert Index(w, p.expireAt) <= Index(w, t);
    }
  }

  lemma CountedSnoc(limits: Limits, h: seq<Attempt>, a: Attempt, w: Window, b: string, u: string, i: nat)
    ensures Counted(limits, h + [a], w, b, u, i) == Counted(limits, h, w, b, u, i)
      + if a.bucket == b && a.user == u && Index(w, a.now) == i && b in limits && Cap(limits[b], w) > 0 && (w.Day? ==> HasRoom(limits, h, Minute, a)) then 1 else 0
  {
    assert (h + [a])[..|h|] == h;
  }

  /** Nothing has been counted in a window that has not begun. */
  lemma {:induction false} FutureIsEmpty(limits: Limits, h: seq<Attempt>, w: Window, b: string, u: string, i: nat)
    requires forall a | a in h :: Index(w, a.now) < i
    ensures Counted(limits, h, w, b, u, i) == 0
    decreases |h|
  {
    if h != [] {
      assert h[|h| - 1] in h;
      FutureIsEmpty(limits, h[..|h| - 1], w, b, u, i);
    }
  }

  predicate PastUntil(h: seq<Attempt>, t: nat) {
    forall a, w | a in h :: Index(w, a.now) <= Index(w, t)
  }

  /** The counters of one kind of window show what the history says. */
  ghost predicate MirrorsIn(limits: Limits, s: Store, h: seq<Attempt>, w: Window, t: nat) {
    && (forall k | k in s :: s[k].count >= 1)
    && (forall b, u, t' | t <= t' && b in limits ::
          CountAt(s, Key(w, b, u), t') == Counted(limits, h, w, b, u, Index(w, t')))
  }

  lemma PipelineReads(limits: Limits, s: Store, h: seq<Attempt>, a: Attempt, w: Window, t: nat)
    requires MirrorsIn(limits, s, h, w, t) && a.bucket in limits
    requires AttemptOrderly(a) && t <= PipeOf(a.env, w).incrAt
    ensures CountAt(s, Key(w, a.bucket, a.user), PipeOf(a.env, w).incrAt) == Counted(limits, h, w, a.bucket, a.user, Index(w, a.now))
    ensures CountAt(s, Key(w, a.bucket, a.user), PipeOf(a.env, w).expireAt) == Counted(limits, h, w, a.bucket, a.user, Index(w, a.now))
  {
    OrderlyIndices(a);
  }

  lemma WindowRefines(limits: Limits, s: Store, h: seq<Attempt>, a: Attempt, w: Window, t: nat)
    requires ColonFree(limits) && a.bucket in limits && Cap(limits[a.bucket], w) > 0 && (w.Day? ==> HasRoom(limits, h, Minute, a))
    requires AttemptOrderly(a) && t <= PipeOf(a.env, w).incrAt && PastUntil(h, t) && MirrorsIn(limits, s, h, w, t)
    ensures
      var key := Key(w, a.bucket, a.user);
      var s' := StoreAfterWindow(s, key, w, a.now, PipeOf(a.env, w));
      && MirrorsIn(limits, s', h + [a], w, PipeOf(a.env, w).expireAt)
      && (forall k, t' | k != key :: CountAt(s', k, t') == CountAt(s, k, t'))
  {
    OrderlyIndices(a);
    PipelineReads(limits, s, h, a, w, t);
    var p, key := PipeOf(a.env, w), Key(w, a.bucket, a.user);
    PipelineEffect(s, key, w, a.now, p);
    var s' := StoreAfterWindow(s, key, w, a.now, p);
    forall b, u, t' | p.expireAt <= t' && b in limits
      ensures CountAt(s', Key(w, b, u), t') == Counted(limits, h + [a], w, b, u, Index(w, t'))
    {
      CountedSnoc(limits, h, a, w, b, u, Index(w, t'));
      if Key(w, b, u) == key {
        KeyInjective(w, b, u, w, a.bucket, a.user);
        if Index(w, t') != Index(w, a.now) {
          LaterWindowIsEmpty(limits, h, a, w, t, p.expireAt, t');
        }
      }
    }
  }

  lemma LaterWindowIsEmpty(limits: Limits, h: seq<Attempt>, a: Attempt, w: Window, t: nat, mid: nat, t': nat)
    requires PastUntil(h, t) && t <= mid <= t' && Index(w, mid) == Index(w, a.now) != Index(w, t')
    ensures Counted(limits, h, w, a.bucket, a.user, Index(w, t')) == 0
  {
    IndexMonotone(t, mid);
    IndexMonotone(mid, t');
    FutureIsEmpty(limits, h, w, a.bucket, a.user, Index(w, t'));
  }

  lemma VerdictRefines(limits: Limits, s: Store, h: seq<Attempt>, a: Attempt, w: Window, failClosed: bool, t: nat)
    requires a.bucket in limits && Cap(limits[a.bucket], w) > 0
    requires AttemptOrderly(a) && t <= PipeOf(a.env, w).incrAt && MirrorsIn(limits, s, h, w, t)
    ensures WindowVerdict(s, failClosed, Key(w, a.bucket, a.user), Cap(limits[a.bucket], w), w, a.now, PipeOf(a.env, w)) ==
      if HasRoom(limits, h, w, a) then Pass else Refuse(LimitExceeded(WindowEnd(w, a.now) - a.now))
  {
    PipelineReads(limits, s, h, a, w, t);
  }

  /** What a call adds to the history of a window it does not count in: nothing. */
  lemma NotCounted(limits: Limits, h: seq<Attempt>, a: Attempt, w: Window)
    requires a.bucket !in limits || Cap(limits[a.bucket], w) == 0 || (w.Day? && !HasRoom(limits, h, Minute, a))
    ensures forall b, u, i | b in limits :: Counted(limits, h + [a], w, b, u, i) == Counted(limits, h, w, b, u, i)
  {
    assert (h + [a])[..|h|] == h;
  }

  lemma MirrorsLater(limits: Limits, s: Store, s': Store, h: seq<Attempt>, h': seq<Attempt>, w: Window, t: nat, t': nat)
    requires MirrorsIn(limits, s, h, w, t) && t <= t'
    requires forall k | k in s' :: s'[k].count >= 1
    requires forall b, u, t' | b in limits :: CountAt(s', Key(w, b, u), t') == CountAt(s, Key(w, b, u), t')
    requires forall b, u, i | b in limits :: Counted(limits, h', w, b, u, i) == Counted(limits, h, w, b, u, i)
    ensures MirrorsIn(limits, s', h', w, t')
  {
  }

  /** One step of the call: window w checked or skipped, the other kind untouched. */
  lemma StageRefines(limits: Limits, s: Store, h: seq<Attempt>, a: Attempt, w: Window, v: Window, t: nat, hv: seq<Attempt>)
    requires ColonFree(limits) && a.bucket in limits && w != v && (w.Day? ==> HasRoom(limits, h, Minute, a))
    requires AttemptOrderly(a) && t <= PipeOf(a.env, w).incrAt && PastUntil(h, t)
    requires MirrorsIn(limits, s, h, w, t) && MirrorsIn(limits, s, hv, v, t)
    ensures
      var s' := if Cap(limits[a.bucket], w) == 0 then s else StoreAfterWindow(s, Key(w, a.bucket, a.user), w, a.now, PipeOf(a.env, w));
      MirrorsIn(limits, s', h + [a], w, PipeOf(a.env, w).expireAt) && MirrorsIn(limits, s', hv, v, PipeOf(a.env, w).expireAt)
  {
    var t' := PipeOf(a.env, w).expireAt;
    if Cap(limits[a.bucket], w) == 0 {
      NotCounted(limits, h, a, w);
      MirrorsLater(limits, s, s, h, h + [a], w, t, t');
    } else {
      WindowRefines(limits, s, h, a, w, t);
      forall b, u ensures Key(v, b, u) != Key(w, a.bucket, a.user) {
        if Key(v, b, u) == Key(w, a.bucket, a.user) { KeyInjective(v, b, u, w, a.bucket, a.user); }
      }
    }
  }

  lemma AdmittedRefines(limits: Limits, s: Store, h: seq<Attempt>, a: Attempt, failClosed: bool)
    requires a.bucket in limits && AttemptOrderly(a)
    requires HasRoom(limits, h, Minute, a) && HasRoom(limits, h, Day, a)
    requires MirrorsIn(limits, s, h + [a], Advertised(limits[a.bucket]), a.env.getAt)
    ensures ReadBack(failClosed, limits[a.bucket], a.now, CountAt(s, Key(Advertised(limits[a.bucket]), a.bucket, a.user), a.env.getAt), a.env.getOk)
      == Expected(limits, failClosed, h, a)
  {
  }

  /** The second half of a call that passed its minute. */
  lemma DayRefines(limits: Limits, failClosed: bool, s: Store, h: seq<Attempt>, a: Attempt)
    requires ColonFree(limits) && AttemptOrderly(a) && PastUntil(h, a.env.minute.expireAt)
    requires HasRoom(limits, h, Minute, a)
    requires MirrorsIn(limits, s, h + [a], Minute, a.env.minute.expireAt) && MirrorsIn(limits, s, h, Day, a.env.minute.expireAt)
    ensures
      var (s', outcome) := CheckFrom(s, failClosed, limits[a.bucket], a.bucket, a.user, a.now, a.env, [Day]);
      && outcome == Expected(limits, failClosed, h, a)
      && MirrorsIn(limits, s', h + [a], Minute, a.env.getAt) && MirrorsIn(limits, s', h + [a], Day, a.env.getAt)
  {
    var cfg := limits[a.bucket];
    assert [Day][1..] == [];
    StageRefines(limits, s, h, a, Day, Minute, a.env.minute.expireAt, h + [a]);
    if cfg.daily > 0 { VerdictRefines(limits, s, h, a, Day, failClosed, a.env.minute.expireAt); }
    var s' := if cfg.daily == 0 then s else StoreAfterWindow(s, Key(Day, a.bucket, a.user), Day, a.now, a.env.day);
    MirrorsLater(limits, s', s', h + [a], h + [a], Minute, a.env.day.expireAt, a.env.getAt);
    MirrorsLater(limits, s', s', h + [a], h + [a], Day, a.env.day.expireAt, a.env.getAt);
    if HasRoom(limits, h, Day, a) {
      AdmittedRefines(limits, s', h, a, failClosed);
    }
  }

  /** One call answers as the history demands, and leaves counters that mirror the
      history extended with it. */
  lemma CallRefines(limits: Limits, failClosed: bool, s: Store, h: seq<Attempt>, a: Attempt, t: nat)
    requires ColonFree(limits) && AttemptOrderly(a) && t <= a.env.minute.incrAt && PastUntil(h, t)
    requires MirrorsIn(limits, s, h, Minute, t) && MirrorsIn(limits, s, h, Day, t)
    ensures
      var (s', outcome) := CheckSpec(limits, failClosed, s, a.user, a.bucket, a.now, a.env);
      && outcome == Expected(limits, failClosed, h, a)
      && MirrorsIn(limits, s', h + [a], Minute, a.env.getAt) && MirrorsIn(limits, s', h + [a], Day, a.env.getAt)
  {
    if a.bucket !in limits {
      NotCounted(limits, h, a, Minute);
      NotCounted(limits, h, a, Day);
      return;
    }
    var cfg := limits[a.bucket];
    assert [Minute, Day][1..] == [Day];
    StageRefines(limits, s, h, a, Minute, Day, t, h);
    var s1 := if cfg.minute == 0 then s else StoreAfterWindow(s, Key(Minute, a.bucket, a.user), Minute, a.now, a.env.minute);
    if cfg.minute > 0 { VerdictRefines(limits, s, h, a, Minute, failClosed, t); }
    if HasRoom(limits, h, Minute, a) {
      PastLater(h, t, a.env.minute.expireAt);
      DayRefines(limits, failClosed, s1, h, a);
    } else {
      NotCounted(limits, h, a, Day);
      MirrorsLater(limits, s1, s1, h, h + [a], Day, a.env.minute.expireAt, a.env.getAt);
      MirrorsLater(limits, s1, s1, h + [a], h + [a], Minute, a.env.minute.expireAt, a.env.getAt);
    }
  }

  lemma PastLater(h: seq<Attempt>, t: nat, t': nat)
    requires PastUntil(h, t) && t <= t'
    ensures PastUntil(h, t')
  {
    IndexMonotone(t, t');
  }

  lemma HistoryBefore(h: seq<Attempt>, todo: seq<Attempt>, i: nat)
    requires i < |todo|
    ensures i == 0 ==> h + todo[..i] == h
    ensures i > 0 ==> h + todo[..i] == h + [todo[0]] + todo[1..][..i - 1]
  {
  }

  /** Everybody is answered as the history demands. */
  ghost predicate AllExpected(limits: Limits, failClosed: bool, h: seq<Attempt>, todo: seq<Attempt>, outcomes: seq<Outcome>) {
    |outcomes| == |todo| && forall i | 0 <= i < |todo| :: outcomes[i] == Expected(limits, failClosed, h + todo[..i], todo[i])
  }

  lemma ExpectedCons(limits: Limits, failClosed: bool, h: seq<Attempt>, todo: seq<Attempt>, outcomes: seq<Outcome>)
    requires todo != [] && AllExpected(limits, failClosed, h + [todo[0]], todo[1..], outcomes)
    ensures AllExpected(limits, failClosed, h, todo, [Expected(limits, failClosed, h, todo[0])] + outcomes)
  {
    forall i | 0 <= i < |todo|
      ensures ([Expected(limits, failClosed, h, todo[0])] + outcomes)[i] == Expected(limits, failClosed, h + todo[..i], todo[i])
    {
      HistoryBefore(h, todo, i);
    }
  }

  /** After one call, what the rest of the run starts from. */
  lemma AfterCall(limits: Limits, failClosed: bool, s: Store, h: seq<Attempt>, t: nat, a: Attempt)
    requires ColonFree(limits) && AttemptOrderly(a) && t <= a.env.minute.incrAt && PastUntil(h, t)
    requires MirrorsIn(limits, s, h, Minute, t) && MirrorsIn(limits, s, h, Day, t)
    ensures
      var (s', outcome) := CheckSpec(limits, failClosed, s, a.user, a.bucket, a.now, a.env);
      && outcome == Expected(limits, failClosed, h, a) && PastUntil(h + [a], a.env.getAt)
      && MirrorsIn(limits, s', h + [a], Minute, a.env.getAt) && MirrorsIn(limits, s', h + [a], Day, a.env.getAt)
  {
    CallRefines(limits, failClosed, s, h, a, t);
    OrderlyIndices(a);
    PastLater(h, t, a.env.getAt);
  }

  /** Every sequential run answers exactly as the history specification. */
  lemma {:induction false} ServeRefines(limits: Limits, failClosed: bool, s: Store, h: seq<Attempt>, t: nat, todo: seq<Attempt>)
    requires ColonFree(limits) && Sequential(t, todo) && PastUntil(h, t)
    requires MirrorsIn(limits, s, h, Minute, t) && MirrorsIn(limits, s, h, Day, t)
    ensures AllExpected(limits, failClosed, h, todo, Serve(limits, failClosed, s, todo).1)
    decreases |todo|
  {
    if todo != [] {
      var a := todo[0];
      var s' := CheckSpec(limits, failClosed, s, a.user, a.bucket, a.now, a.env).0;
      AfterCall(limits, failClosed, s, h, t, a);
      ServeRefines(limits, failClosed, s', h + [a], a.env.getAt, todo[1..]);
      ExpectedCons(limits, failClosed, h, todo, Serve(limits, failClosed, s', todo[1..]).1);
    }
  }

  /** The store such a run leaves mirrors the whole history. */
  lemma {:induction false} ServeMirrors(limits: Limits, failClosed: bool, s: Store, h: seq<Attempt>, t: nat, todo: seq<Attempt>)
    requires ColonFree(limits) && Sequential(t, todo) && PastUntil(h, t)
    requires MirrorsIn(limits, s, h, Minute, t) && MirrorsIn(limits, s, h, Day, t)
    ensures
      var s' := Serve(limits, failClosed, s, todo).0;
      var t' := if todo == [] then t else todo[|todo| - 1].env.getAt;
      MirrorsIn(limits, s', h + todo, Minute, t') && MirrorsIn(limits, s', h + todo, Day, t')
    decreases |todo|
  {
    if todo == [] {
      assert h + todo == h;
    } else {
      var a := todo[0];
      var s' := CheckSpec(limits, failClosed, s, a.user, a.bucket, a.now, a.env).0;
      AfterCall(limits, failClosed, s, h, t, a);
      ServeMirrors(limits, failClosed, s', h + [a], a.env.getAt, todo[1..]);
      assert h + todo == h + [a] + todo[1..];
    }
  }

  /** From an empty store: admission is decided by the earlier attempts alone. */
  lemma SequentialRunsAreExact(limits: Limits, failClosed: bool, todo: seq<Attempt>, i: nat)
    requires ColonFree(limits) && Sequential(0, todo) && i < |todo|
    ensures Serve(limits, failClosed, map[], todo).1[i] == Expected(limits, failClosed, todo[..i], todo[i])
    ensures
      var a := todo[i];
      Serve(limits, failClosed, map[], todo).1[i].Admitted? <==>
        && a.bucket in limits
        && (limits[a.bucket].minute == 0 || Counted(limits, todo[..i], Minute, a.bucket, a.user, Index(Minute, a.now)) < limits[a.bucket].minute)
        && (limits[a.bucket].daily == 0 || Counted(limits, todo[..i], Day, a.bucket, a.user, Index(Day, a.now)) < limits[a.bucket].daily)
        && (a.env.getOk || !failClosed)
    ensures
      var a, outcome := todo[i], Serve(limits, failClosed, map[], todo).1[i];
      outcome.Admitted? ==>
        var w := if limits[a.bucket].minute > 0 then Minute else Day;
        && Advertises(limits[a.bucket], a.now, outcome.result)
        && Leaves(outcome.result,
                  if a.env.getOk then Counted(limits, todo[..i + 1], w, a.bucket, a.user, Index(w, a.env.getAt)) else 0)
  {
    ServeRefines(limits, failClosed, map[], [], 0, todo);
    assert [] + todo[..i] == todo[..i] && todo[..i + 1] == todo[..i] + [todo[i]];
  }

  /** The attempts of one user and bucket. */
  function Own(h: seq<Attempt>, bucket: string, user: string): seq<Attempt>
    decreases |h|
  {
    if h == [] then []
    else
      Own(h[..|h| - 1], bucket, user)
      + if h[|h| - 1].bucket == bucket && h[|h| - 1].user == user then [h[|h| - 1]] else []
  }

  lemma OwnSnoc(before: seq<Attempt>, a: Attempt, b: string, u: string)
    ensures Own(before + [a], b, u) == if a.bucket == b && a.user == u then Own(before, b, u) + [a] else Own(before, b, u)
  {
    assert (before + [a])[..|before|] == before;
  }

  lemma {:induction false} OwnCountsAgree(limits: Limits, h: seq<Attempt>, w: Window, b: string, u: string, i: nat)
    ensures Counted(limits, h, w, b, u, i) == Counted(limits, Own(h, b, u), w, b, u, i)
    decreases |h|
  {
    if h != [] {
      var a, before := h[|h| - 1], h[..|h| - 1];
      assert h == before + [a];
      OwnCountsAgree(limits, before, w, b, u, i);
      OwnCountsAgree(limits, before, Minute, b, u, Index(Minute, a.now));
      CountedSnoc(limits, before, a, w, b, u, i);
      CountedSnoc(limits, Own(before, b, u), a, w, b, u, i);
      OwnSnoc(before, a, b, u);
    }
  }

  lemma {:induction false} OwnConcat(a: seq<Attempt>, b: seq<Attempt>, bucket: string, user: string)
    ensures Own(a + b, bucket, user) == Own(a, bucket, user) + Own(b, bucket, user)
    decreases |b|
  {
    if b == [] {
      assert a + b == a;
    } else {
      var before, last := b[..|b| - 1], b[|b| - 1];
      assert b == before + [last];
      Regroup(a, before, [last]);
      OwnConcat(a, before, bucket, user);
      OwnSnoc(a + before, last, bucket, user);
      OwnSnoc(before, last, bucket, user);
    }
  }

  lemma SequentialEarlier(t: nat, t': nat, todo: seq<Attempt>)
    requires t <= t' && Sequential(t', todo)
    ensures Sequential(t, todo)
  {
  }

  lemma {:induction false} SequentialOwn(t: nat, todo: seq<Attempt>, bucket: string, user: string)
    requires Sequential(t, todo)
    ensures Sequential(t, Own(todo, bucket, user))
    decreases |todo|
  {
    if todo != [] {
      var a, rest := todo[0], todo[1..];
      assert todo == [a] + rest;
      SequentialOwn(a.env.getAt, rest, bucket, user);
      OwnConcat([a], rest, bucket, user);
      OwnSnoc([], a, bucket, user);
      assert [] + [a] == [a];
      if a.bucket == bucket && a.user == user {
        assert ([a] + Own(rest, bucket, user))[1..] == Own(rest, bucket, user);
      } else {
        assert [] + Own(rest, bucket, user) == Own(rest, bucket, user);
        SequentialEarlier(t, a.env.getAt, Own(rest, bucket, user));
      }
    }
  }

  lemma HasRoomOwn(limits: Limits, h: seq<Attempt>, w: Window, a: Attempt)
    ensures HasRoom(limits, h, w, a) == HasRoom(limits, Own(h, a.bucket, a.user), w, a)
  {
    OwnCountsAgree(limits, h, w, a.bucket, a.user, Index(w, a.now));
  }

  lemma SeenOwn(limits: Limits, h: seq<Attempt>, w: Window, a: Attempt, i: nat)
    ensures Counted(limits, h + [a], w, a.bucket, a.user, i) == Counted(limits, Own(h, a.bucket, a.user) + [a], w, a.bucket, a.user, i)
  {
    OwnSnoc(h, a, a.bucket, a.user);
    OwnCountsAgree(limits, h + [a], w, a.bucket, a.user, i);
  }

  lemma ExpectedOwn(limits: Limits, failClosed: bool, h: seq<Attempt>, a: Attempt)
    ensures Expected(limits, failClosed, h, a) == Expected(limits, failClosed, Own(h, a.bucket, a.user), a)
  {
    HasRoomOwn(limits, h, Minute, a);
    HasRoomOwn(limits, h, Day, a);
    if a.bucket in limits {
      var w := Advertised(limits[a.bucket]);
      SeenOwn(limits, h, w, a, Index(w, a.env.getAt));
    }
  }

  /** Where the i-th attempt is found among its user's own. */
  lemma OwnPosition(todo: seq<Attempt>, i: nat)
    requires i < |todo|
    ensures
      var a := todo[i];
      var own, before := Own(todo, a.bucket, a.user), Own(todo[..i], a.bucket, a.user);
      |before| < |own| && own[|before|] == a && own[..|before|] == before
  {
    var a := todo[i];
    assert todo == todo[..i] + [a] + todo[i + 1..];
    OwnConcat(todo[..i] + [a], todo[i + 1..], a.bucket, a.user);
    OwnSnoc(todo[..i], a, a.bucket, a.user);
  }

  /** Users and buckets never interfere: every attempt is answered as if only its own
      user's attempts on its own bucket had ever been served. */
  lemma NoInterference(limits: Limits, failClosed: bool, todo: seq<Attempt>, i: nat)
    requires ColonFree(limits) && Sequential(0, todo) && i < |todo|
    ensures
      var a := todo[i];
      var own, j := Own(todo, a.bucket, a.user), |Own(todo[..i], a.bucket, a.user)|;
      && j < |own| && own[j] == a
      && Serve(limits, failClosed, map[], own).1[j] == Serve(limits, failClosed, map[], todo).1[i]
  {
    var a := todo[i];
    var own, j := Own(todo, a.bucket, a.user), |Own(todo[..i], a.bucket, a.user)|;
    OwnPosition(todo, i);
    SequentialOwn(0, todo, a.bucket, a.user);
    SequentialRunsAreExact(limits, failClosed, todo, i);
    SequentialRunsAreExact(limits, failClosed, own, j);
    ExpectedOwn(limits, failClosed, todo[..i], a);
  }
}
