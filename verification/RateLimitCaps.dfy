/** What the limiter guarantees over every timely run: the caps, with and without
    store failures, over aligned windows and over arbitrary intervals, and the
    numbers it reports to clients. */
module RateLimitCaps {
  import opened Wrappers
  import opened RedisStore
  import opened RateLimiter
  import opened RateLimitRuns

  predicate IsAdmitted(r: Request) {
    r.phase.Done? && r.phase.outcome.Admitted?
  }

  predicate Concerns(r: Request, bucket: string, user: string, w: Window, i: nat) {
    r.bucket == bucket && r.user == user && Index(w, r.now) == i
  }

  /** The requests of one user and bucket admitted in the i-th window. */
  function AdmittedIn(s: State, bucket: string, user: string, w: Window, i: nat): set<nat> {
    set id | id in s.reqs && IsAdmitted(s.reqs[id]) && Concerns(s.reqs[id], bucket, user, w, i)
  }

  /** Those whose check of that window got no answer from the store. */
  function FailedIn(s: State, bucket: string, user: string, w: Window, i: nat): set<nat> {
    set id | id in s.reqs && w in s.reqs[id].failed && Concerns(s.reqs[id], bucket, user, w, i)
  }

  /** Distinct labels between 1 and n tag at most n things. */
  lemma {:induction false} Pigeonhole(ids: set<nat>, tag: map<nat, nat>, n: nat)
    requires ids <= tag.Keys
    requires forall id | id in ids :: 1 <= tag[id] <= n
    requires forall id, id' | id in ids && id' in ids && id != id' :: tag[id] != tag[id']
    ensures |ids| <= n
  {
    if n == 0 {
      assert ids == {};
    } else {
      var top := set id | id in ids && tag[id] == n;
      if top == {} {
        forall id | id in ids ensures tag[id] != n {
          assert id !in top;
        }
        Pigeonhole(ids, tag, n - 1);
      } else {
        var id :| id in top;
        assert top == {id};
        Pigeonhole(ids - {id}, tag, n - 1);
      }
    }
  }

  /** An admitted request got past each limited window with a ticket within the
      cap, or because the check failed, which only a fail-open limiter forgives. */
  lemma AdmittedBy(c: Config, r: Request, w: Window)
    requires RequestOk(c, r) && IsAdmitted(r) && Cap(r.cfg, w) > 0
    ensures w !in r.failed ==> w in r.tickets && 1 <= r.tickets[w] <= Cap(r.cfg, w)
    ensures c.failClosed ==> w !in r.failed
  {
    assert Settled(r, w);
  }

  lemma TicketedWithinCap(s: State, ids: set<nat>, k: string, w: Window, i: nat, cap: nat)
    requires TicketsDistinct(s) && ids <= s.reqs.Keys
    requires forall id | id in ids :: w in s.reqs[id].tickets && 1 <= s.reqs[id].tickets[w] <= cap
    requires forall id | id in ids :: KeyOf(s.reqs[id], w) == k && Index(w, s.reqs[id].now) == i
    ensures |ids| <= cap
  {
    var tag := map id | id in ids :: s.reqs[id].tickets[w];
    forall id, id' | id in ids && id' in ids && id != id'
      ensures tag[id] != tag[id']
    {
      assert SameCounter(s.reqs[id], s.reqs[id'], w);
    }
    Pigeonhole(ids, tag, cap);
  }

  lemma CapInState(c: Config, s: State, bucket: string, user: string, w: Window, i: nat)
    requires Inv(c, s) && bucket in c.limits && Cap(c.limits[bucket], w) > 0
    ensures |AdmittedIn(s, bucket, user, w, i)| <= Cap(c.limits[bucket], w) + |FailedIn(s, bucket, user, w, i)|
    ensures c.failClosed ==> |AdmittedIn(s, bucket, user, w, i)| <= Cap(c.limits[bucket], w)
  {
    var all, failed := AdmittedIn(s, bucket, user, w, i), FailedIn(s, bucket, user, w, i);
    var counted := all - failed;
    forall id | id in all
      ensures id in counted ==> w in s.reqs[id].tickets && 1 <= s.reqs[id].tickets[w] <= Cap(c.limits[bucket], w)
      ensures c.failClosed ==> id in counted
    {
      assert RequestOk(c, s.reqs[id]);
      AdmittedBy(c, s.reqs[id], w);
    }
    TicketedWithinCap(s, counted, Key(w, bucket, user), w, i, Cap(c.limits[bucket], w));
    CardinalityOfDifference(all, failed);
    if c.failClosed {
      assert counted == all;
    }
  }

  lemma CardinalityOfDifference(a: set<nat>, b: set<nat>)
    ensures |a| <= |a - b| + |b|
  {
    assert a == (a - b) + (a * b);
    assert b == (b - a) + (a * b);
    assert |b| == |b - a| + |a * b|;
  }

  /** The cap.  Whatever the interleaving and whatever commands fail, as long as
      the counter commands that do reach the store are timely: a fail-closed
      limiter admits at most the cap per aligned minute and per aligned day, and a
      fail-open one exceeds it by at most the number of failed checks. */
  lemma CapHoldsOnEveryRun(c: Config, es: seq<Event>, bucket: string, user: string, i: nat, j: nat)
    requires Timely(c, INITIAL, es) && bucket in c.limits
    ensures
      var s, cfg := Exec(c, INITIAL, es), c.limits[bucket];
      var m, d := AdmittedIn(s, bucket, user, Minute, i), AdmittedIn(s, bucket, user, Day, j);
      && (cfg.minute > 0 ==> |m| <= cfg.minute + |FailedIn(s, bucket, user, Minute, i)|)
      && (cfg.daily > 0 ==> |d| <= cfg.daily + |FailedIn(s, bucket, user, Day, j)|)
      && (c.failClosed && cfg.minute > 0 ==> |m| <= cfg.minute)
      && (c.failClosed && cfg.daily > 0 ==> |d| <= cfg.daily)
  {
    RunKeepsInv(c, INITIAL, es);
    var s, cfg := Exec(c, INITIAL, es), c.limits[bucket];
    if cfg.minute > 0 { CapInState(c, s, bucket, user, Minute, i); }
    if cfg.daily > 0 { CapInState(c, s, bucket, user, Day, j); }
  }

  function AdmittedDuring(s: State, bucket: string, user: string, from: nat, to: nat): set<nat> {
    set id | id in s.reqs && IsAdmitted(s.reqs[id]) && s.reqs[id].bucket == bucket && s.reqs[id].user == user && from <= s.reqs[id].now < to
  }

  /** Any stretch of time no longer than a window sees at most twice the cap, and in a
      fail-open limiter one more for every failed check in the two windows it meets. */
  lemma SlidingBound(c: Config, es: seq<Event>, bucket: string, user: string, w: Window, from: nat, to: nat)
    requires Timely(c, INITIAL, es) && bucket in c.limits && Cap(c.limits[bucket], w) > 0
    requires to <= from + Length(w)
    ensures
      var s, i := Exec(c, INITIAL, es), Index(w, from);
      var during := AdmittedDuring(s, bucket, user, from, to);
      && |during| <= 2 * Cap(c.limits[bucket], w) + |FailedIn(s, bucket, user, w, i)| + |FailedIn(s, bucket, user, w, i + 1)|
      && (c.failClosed ==> |during| <= 2 * Cap(c.limits[bucket], w))
  {
    RunKeepsInv(c, INITIAL, es);
    var s := Exec(c, INITIAL, es);
    var a := AdmittedIn(s, bucket, user, w, Index(w, from));
    var b := AdmittedIn(s, bucket, user, w, Index(w, from) + 1);
    CapInState(c, s, bucket, user, w, Index(w, from));
    CapInState(c, s, bucket, user, w, Index(w, from) + 1);
    CoveredByTwo(s, bucket, user, w, from, to);
    CardinalityOfUnion(a, b);
    CardinalityOfSubset(AdmittedDuring(s, bucket, user, from, to), a + b);
  }

  lemma CoveredByTwo(s: State, bucket: string, user: string, w: Window, from: nat, to: nat)
    requires to <= from + Length(w)
    ensures AdmittedDuring(s, bucket, user, from, to)
         <= AdmittedIn(s, bucket, user, w, Index(w, from)) + AdmittedIn(s, bucket, user, w, Index(w, from) + 1)
  {
    forall id | id in AdmittedDuring(s, bucket, user, from, to)
      ensures id in AdmittedIn(s, bucket, user, w, Index(w, from)) + AdmittedIn(s, bucket, user, w, Index(w, from) + 1)
    {
      TwoWindows(w, from, s.reqs[id].now);
    }
  }

  lemma CardinalityOfUnion(a: set<nat>, b: set<nat>)
    ensures |a + b| <= |a| + |b|
  {
    assert a + b == a + (b - a);
    assert b == (b - a) + (a * b);
  }

  lemma TwoWindows(w: Window, from: nat, t: nat)
    requires from <= t < from + Length(w)
    ensures Index(w, t) == Index(w, from) || Index(w, t) == Index(w, from) + 1
  {
  }

  lemma CardinalityOfSubset(a: set<nat>, b: set<nat>)
    requires a <= b
    ensures |a| <= |b|
  {
    assert b == a + (b - a);
  }

  /** Every way a finished request can have ended, in any run whatsoever: what
      refused it really was exhausted, the advice to wait points at the start of
      the next window, an admitted one is told its own window's limit and end, and unavailability is only reported by a fail-closed limiter. */
  lemma {:induction false} OutcomesExplained(c: Config, s: State, es: seq<Event>, id: nat)
    requires RequestsOk(c, s) && id in Exec(c, s, es).reqs && Exec(c, s, es).reqs[id].phase.Done?
    ensures
      var r := Exec(c, s, es).reqs[id];
      match r.phase.outcome
      case Admitted(result) =>
        r.bucket in c.limits && Settled(r, Minute) && Settled(r, Day) && Advertises(c.limits[r.bucket], r.now, result)
      case Rejected(UnknownBucket) => r.bucket !in c.limits
      case Rejected(Unavailable) => r.bucket in c.limits && c.failClosed
      case Rejected(LimitExceeded(wait)) =>
        exists w ::
          && RefusedBy(r, w, wait) && 0 < wait <= Length(w)
          && Index(w, r.now + wait) == Index(w, r.now) + 1 && (r.now + wait) % Length(w) == 0
    decreases |es|
  {
    if es == [] {
      var r := s.reqs[id];
      assert RequestOk(c, r);
      if r.phase.outcome.Rejected? && r.phase.outcome.error.LimitExceeded? {
        var w := if RefusedBy(r, Minute, r.phase.outcome.error.retryAfter) then Minute else Day;
        WindowEndIsNextStart(w, r.now);
        assert RefusedBy(r, w, r.phase.outcome.error.retryAfter);
      }
    } else {
      StepKeepsRequests(c, s, es[0]);
      OutcomesExplained(c, Apply(c, s, es[0]), es[1..], id);
    }
  }

  /** The read reports what the counter leaves of the minute's limit, or of the day's
      where there is none for the minute; in the same window that is no more than the
      request's own ticket leaves. */
  lemma RemainingIsHonest(c: Config, es: seq<Event>, id: nat)
    requires Timely(c, INITIAL, es)
    requires id in Exec(c, INITIAL, es).reqs && Exec(c, INITIAL, es).reqs[id].phase.Reading?
    ensures
      var s := Exec(c, INITIAL, es);
      var r := s.reqs[id];
      var w := if r.cfg.minute > 0 then Minute else Day;
      var outcome := Apply(c, s, RunGet(id, true)).reqs[id].phase.outcome;
      && outcome.Admitted? && Advertises(r.cfg, r.now, outcome.result)
      && Leaves(outcome.result, CountAt(s.store, KeyOf(r, w), s.clock))
      && (w in r.tickets && Index(w, s.clock) == Index(w, r.now) ==>
        && (r.tickets[w] <= Cap(r.cfg, w) ==> outcome.result.remaining + r.tickets[w] <= Cap(r.cfg, w))
        && outcome.result.reset % Length(w) == 0 && r.now < outcome.result.reset <= r.now + Length(w))
  {
    RunKeepsInv(c, INITIAL, es);
    var s := Exec(c, INITIAL, es);
    var r := s.reqs[id];
    var w := if r.cfg.minute > 0 then Minute else Day;
    WindowEndIsNextStart(w, r.now);
    if w in r.tickets {
      assert Backed(s.store, s.clock, KeyOf(r, w), w, r.now, r.tickets[w]);
    }
  }
}
