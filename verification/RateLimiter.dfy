/** The fixed-window limiter: its table, its keys, and one uninterrupted call of
    Check against the store. */
module RateLimiter {
  import opened Wrappers
  import opened RedisStore

  datatype BucketConfig = BucketConfig(daily: nat, minute: nat)

  type Limits = map<string, BucketConfig>

  const BUCKET_LIMITS: Limits := map[
    "free_standard" := BucketConfig(50, 5),
    "pro_standard" := BucketConfig(1000, 10),
    "power_standard" := BucketConfig(5000, 60),
    "admin" := BucketConfig(10000, 100)
  ]

  datatype Window = Minute | Day

  const MINUTE_NS: nat := 60_000_000_000
  const DAY_NS: nat := 86_400_000_000_000

  function Length(w: Window): nat {
    match w
    case Minute => MINUTE_NS
    case Day => DAY_NS
  }

  function Cap(cfg: BucketConfig, w: Window): nat {
    match w
    case Minute => cfg.minute
    case Day => cfg.daily
  }

  /** Which aligned window a moment falls in. */
  function Index(w: Window, t: nat): nat {
    t / Length(w)
  }

  /** windowStart.Add(window) for the window of t. */
  function WindowEnd(w: Window, t: nat): nat {
    t - t % Length(w) + Length(w)
  }

  lemma WindowEndIsNextStart(w: Window, t: nat)
    ensures t < WindowEnd(w, t) <= t + Length(w)
    ensures WindowEnd(w, t) == (Index(w, t) + 1) * Length(w)
    ensures Index(w, WindowEnd(w, t)) == Index(w, t) + 1
  {
  }

  /** Two moments share a window exactly when neither is past the other's end. */
  lemma SameWindow(w: Window, t: nat, u: nat)
    ensures u < WindowEnd(w, t) <==> Index(w, u) <= Index(w, t)
    ensures Index(w, t) == Index(w, u) ==> WindowEnd(w, t) == WindowEnd(w, u)
  {
  }

  function Prefix(w: Window): string {
    match w
    case Minute => "proxy:rl:min:"
    case Day => "proxy:rl:day:"
  }

  function Key(w: Window, bucket: string, user: string): string {
    Prefix(w) + bucket + ":" + user
  }

  /** The key names its window, its bucket and its user, as long as the bucket
      contains no colon. */
  lemma KeyInjective(w: Window, b: string, u: string, w': Window, b': string, u': string)
    requires Key(w, b, u) == Key(w', b', u')
    ensures w == w'
    ensures ':' !in b && ':' !in b' ==> b == b' && u == u'
  {
    KeyParts(w, b, u);
    KeyParts(w', b', u');
    if ':' !in b && ':' !in b' {
      SplitAtColon(b, u, b', u');
    }
  }

  lemma KeyParts(w: Window, b: string, u: string)
    ensures |Key(w, b, u)| > 13 && Key(w, b, u)[10] == (if w.Minute? then 'i' else 'a')
    ensures Key(w, b, u)[13..] == b + ":" + u
  {
    assert |Prefix(w)| == 13 && Prefix(w)[10] == if w.Minute? then 'i' else 'a';
    assert Key(w, b, u) == Prefix(w) + (b + ":" + u);
  }

  lemma SplitAtColon(b: string, u: string, b': string, u': string)
    requires ':' !in b && ':' !in b'
    requires b + ":" + u == b' + ":" + u'
    ensures b == b' && u == u'
  {
    var s := b + ":" + u;
    assert s[|b|] == ':' && s[|b'|] == ':';
    assert forall i :: 0 <= i < |b| ==> s[i] == b[i] && b[i] in b;
    assert forall i :: 0 <= i < |b'| ==> s[i] == b'[i] && b'[i] in b';
    assert b == s[..|b|] && b' == s[..|b'|];
    assert u == s[|b| + 1..] && u' == s[|b'| + 1..];
  }

  lemma TableIsColonFree(b: string)
    requires b in BUCKET_LIMITS
    ensures ':' !in b
  {
  }

  datatype CheckResult = CheckResult(limit: nat, remaining: nat, reset: nat)

  datatype CheckError = UnknownBucket | LimitExceeded(retryAfter: nat) | Unavailable

  datatype Outcome = Admitted(result: CheckResult) | Rejected(error: CheckError)

  datatype Verdict = Pass | Refuse(error: CheckError)

  /** When each command of one call reaches the store, and how it fares. */
  datatype Pipe = Pipe(incrAt: nat, incrFault: Fault, expireAt: nat, expireFault: Fault)

  datatype Timing = Timing(minute: Pipe, day: Pipe, getAt: nat, getOk: bool)

  function PipeOf(env: Timing, w: Window): Pipe {
    match w
    case Minute => env.minute
    case Day => env.day
  }

  function StoreAfterWindow(s: Store, key: string, w: Window, now: nat, p: Pipe): Store {
    var s1 := Delivered(p.incrFault, s, Incr(s, key, p.incrAt));
    Delivered(p.expireFault, s1, ExpireAt(s1, key, WindowEnd(w, now), p.expireAt))
  }

  /** The decision once the pipeline has been executed. */
  function Decide(failClosed: bool, reply: Option<nat>, expireOk: bool, limit: nat, w: Window, now: nat): Verdict {
    if reply.None? || !expireOk then
      if failClosed then Refuse(Unavailable) else Pass
    else if reply.value > limit then Refuse(LimitExceeded(WindowEnd(w, now) - now))
    else Pass
  }

  function WindowVerdict(s: Store, failClosed: bool, key: string, limit: nat, w: Window, now: nat, p: Pipe): Verdict {
    var s1 := Delivered(p.incrFault, s, Incr(s, key, p.incrAt));
    var reply := if p.incrFault.NoFault? then Some(CountAt(s1, key, p.incrAt)) else None;
    Decide(failClosed, reply, p.expireFault.NoFault?, limit, w, now)
  }

  /** The window whose limit the response headers advertise. */
  function Advertised(cfg: BucketConfig): Window {
    if cfg.minute == 0 then Day else Minute
  }

  function ReadBack(failClosed: bool, cfg: BucketConfig, now: nat, count: nat, ok: bool): Outcome {
    if !ok && failClosed then Rejected(Unavailable)
    else
      var seen := if ok then count else 0;
      var limit := Cap(cfg, Advertised(cfg));
      Admitted(CheckResult(limit, if seen <= limit then limit - seen else 0, WindowEnd(Advertised(cfg), now)))
  }

  /** What a whole call leaves in the store and answers: the windows that apply,
      in order, the first refusal ending the call. */
  function CheckFrom(s: Store, failClosed: bool, cfg: BucketConfig, bucket: string, user: string, now: nat, env: Timing, ws: seq<Window>): (Store, Outcome)
    decreases |ws|
  {
    if ws == [] then
      (s, ReadBack(failClosed, cfg, now, CountAt(s, Key(Advertised(cfg), bucket, user), env.getAt), env.getOk))
    else
      var w := ws[0];
      var key := Key(w, bucket, user);
      if Cap(cfg, w) == 0 then CheckFrom(s, failClosed, cfg, bucket, user, now, env, ws[1..])
      else
        var s' := StoreAfterWindow(s, key, w, now, PipeOf(env, w));
        match WindowVerdict(s, failClosed, key, Cap(cfg, w), w, now, PipeOf(env, w))
        case Refuse(e) => (s', Rejected(e))
        case Pass => CheckFrom(s', failClosed, cfg, bucket, user, now, env, ws[1..])
  }

  function CheckSpec(limits: Limits, failClosed: bool, s: Store, user: string, bucket: string, now: nat, env: Timing): (Store, Outcome) {
    if bucket !in limits then (s, Rejected(UnknownBucket))
    else CheckFrom(s, failClosed, limits[bucket], bucket, user, now, env, [Minute, Day])
  }

  // ---------- What an admitted caller is told ----------

  /** The minute's limit and end where there is a minute limit, else the day's. */
  predicate Advertises(cfg: BucketConfig, now: nat, r: CheckResult) {
    if cfg.minute > 0 then r.limit == cfg.minute && r.reset == now - now % MINUTE_NS + MINUTE_NS
    else r.limit == cfg.daily && r.reset == now - now % DAY_NS + DAY_NS
  }

  /** What is left of r's limit once `seen` requests were counted, never below zero. */
  predicate Leaves(r: CheckResult, seen: nat) {
    && (seen <= r.limit ==> r.remaining + seen == r.limit)
    && (seen >= r.limit ==> r.remaining == 0)
  }

  lemma MinuteEndsFirst(now: nat)
    ensures now - now % MINUTE_NS + MINUTE_NS <= now - now % DAY_NS + DAY_NS
  {
    var d := now / DAY_NS;
    assert now - now % DAY_NS == 1440 * d * MINUTE_NS;
    assert now / MINUTE_NS < 1440 * (d + 1);
  }

  /** Every admitted call is told the limit and the end of the window that ends first
      among those that are capped, and what that window's own counter leaves. */
  lemma AdvertisedExactly(limits: Limits, failClosed: bool, s: Store, user: string, bucket: string, now: nat, env: Timing)
    ensures
      var (s', outcome) := CheckSpec(limits, failClosed, s, user, bucket, now, env);
      outcome.Admitted? ==>
        && bucket in limits && Advertises(limits[bucket], now, outcome.result)
        && (limits[bucket].minute > 0 ==>
              Leaves(outcome.result, if env.getOk then CountAt(s', "proxy:rl:min:" + bucket + ":" + user, env.getAt) else 0))
        && (limits[bucket].minute == 0 ==>
              Leaves(outcome.result, if env.getOk then CountAt(s', "proxy:rl:day:" + bucket + ":" + user, env.getAt) else 0))
        && (limits[bucket].minute > 0 ==> outcome.result.reset <= WindowEnd(Minute, now))
        && (limits[bucket].daily > 0 ==> outcome.result.reset <= WindowEnd(Day, now))
  {
    MinuteEndsFirst(now);
    if bucket in limits {
      assert [Minute, Day][1..] == [Day] && [Day][1..] == [];
    }
  }

  class Limiter {
    const rdb: Server
    const failClosed: bool
    const limits: Limits

    constructor (rdb: Server, failClosed: bool, limits: Limits)
      ensures this.rdb == rdb && this.failClosed == failClosed && this.limits == limits
    {
      this.rdb, this.failClosed, this.limits := rdb, failClosed, limits;
    }

    method CheckWindow(key: string, limit: nat, w: Window, now: nat, p: Pipe) returns (v: Verdict)
      modifies rdb
      ensures rdb.data == StoreAfterWindow(old(rdb.data), key, w, now, p)
      ensures v == WindowVerdict(old(rdb.data), failClosed, key, limit, w, now, p)
    {
      var windowStart := now - now % Length(w);
      var reply := rdb.Increment(key, p.incrAt, p.incrFault);
      var ok := rdb.SetExpiry(key, windowStart + Length(w), p.expireAt, p.expireFault);
      if reply.None? || !ok {
        if failClosed {
          return Refuse(Unavailable);
        }
        return Pass;
      }
      if reply.value > limit {
        return Refuse(LimitExceeded(windowStart + Length(w) - now));
      }
      return Pass;
    }

    method Check(user: string, bucket: string, now: nat, env: Timing) returns (r: Outcome)
      modifies rdb
      ensures (rdb.data, r) == CheckSpec(limits, failClosed, old(rdb.data), user, bucket, now, env)
    {
      if bucket !in limits {
        return Rejected(UnknownBucket);
      }
      var cfg := limits[bucket];
      assert [Minute, Day][1..] == [Day] && [Day][1..] == [];
      if cfg.minute > 0 {
        var v := CheckWindow(Key(Minute, bucket, user), cfg.minute, Minute, now, env.minute);
        if v.Refuse? {
          return Rejected(v.error);
        }
      }
      ghost var mid := rdb.data;
      assert CheckSpec(limits, failClosed, old(rdb.data), user, bucket, now, env)
          == CheckFrom(mid, failClosed, cfg, bucket, user, now, env, [Day]);
      if cfg.daily > 0 {
        var v := CheckWindow(Key(Day, bucket, user), cfg.daily, Day, now, env.day);
        if v.Refuse? {
          return Rejected(v.error);
        }
      }
      assert CheckFrom(mid, failClosed, cfg, bucket, user, now, env, [Day])
          == if cfg.daily > 0 then CheckFrom(rdb.data, failClosed, cfg, bucket, user, now, env, [])
             else CheckFrom(mid, failClosed, cfg, bucket, user, now, env, []);
      var w := if cfg.minute == 0 then Day else Minute;
      var limit := if cfg.minute == 0 then cfg.daily else cfg.minute;
      var key := Key(w, bucket, user);
      var count := 0;
      if !env.getOk {
        if failClosed {
          return Rejected(Unavailable);
        }
      } else if Live(rdb.data, key, env.getAt) {
        count := rdb.data[key].count;
      }
      var remaining: int := limit - count;
      if remaining < 0 {
        remaining := 0;
      }
      return Admitted(CheckResult(limit, remaining, now - now % Length(w) + Length(w)));
    }
  }
}
