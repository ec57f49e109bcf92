/** The model manifest: fetched from the URL in the platform config, validated, and
    cached behind that second cache. */
module YadManifest {
  import opened WhiteSpace
  import opened Wrappers
  import T = TtlCache
  import C = CoreClient

  datatype Entry = Entry(version: string, url: string, sha256: string, sizeBytes: nat, minAppVersion: string, evalReportUrl: Option<string>)

  datatype Manifest = Manifest(models: seq<Entry>)

  const NO_MANIFEST := Manifest([])

  // ---------- Validation ----------

  /** Nothing is left after trimming. */
  predicate Blank(s: string) {
    TrimSpace(s) == ""
  }

  predicate IsHexDigit(c: char) {
    '0' <= c <= '9' || 'a' <= c <= 'f' || 'A' <= c <= 'F'
  }

  predicate IsHex(s: string) {
    forall i | 0 <= i < |s| :: IsHexDigit(s[i])
  }

  datatype Fault = MissingVersionOrUrl | MissingMinAppVersion | DigestNot64 | DigestNotHex

  /** A digest is absent, or 64 hexadecimal digits. */
  predicate DigestOk(sha256: string) {
    sha256 == "" || (|sha256| == 64 && IsHex(sha256))
  }

  predicate ValidEntry(e: Entry) {
    !Blank(e.version) && !Blank(e.url) && e.minAppVersion != "" && DigestOk(e.sha256)
  }

  predicate ValidManifest(m: Manifest) {
    m.models != [] && forall i | 0 <= i < |m.models| :: ValidEntry(m.models[i])
  }

  /** What the checks amount to, field by field. */
  lemma EntryExactly(e: Entry)
    ensures ValidEntry(e) <==>
      && !AllSpace(e.version) && !AllSpace(e.url) && |e.minAppVersion| > 0
      && (|e.sha256| == 0 || (|e.sha256| == 64 && forall c | c in e.sha256 :: c in "0123456789abcdefABCDEF"))
  {
    BlankExactly(e.version);
    BlankExactly(e.url);
    HexExactly(e.sha256);
  }

  lemma HexExactly(s: string)
    ensures IsHex(s) <==> forall c | c in s :: c in "0123456789abcdefABCDEF"
  {
    forall c: char ensures IsHexDigit(c) <==> c in "0123456789abcdefABCDEF" { }
  }

  /** Which check an entry fails first. */
  predicate FailsWith(e: Entry, fault: Fault) {
    match fault
    case MissingVersionOrUrl => Blank(e.version) || Blank(e.url)
    case MissingMinAppVersion => !Blank(e.version) && !Blank(e.url) && e.minAppVersion == ""
    case DigestNot64 => !Blank(e.version) && !Blank(e.url) && e.minAppVersion != "" && e.sha256 != "" && |e.sha256| != 64
    case DigestNotHex =>
      && !Blank(e.version) && !Blank(e.url) && e.minAppVersion != ""
      && |e.sha256| == 64 && !IsHex(e.sha256)
  }

  datatype Verdict = Accepted | NoModels | Rejected(index: nat, fault: Fault)

  method ValidateManifest(m: Manifest) returns (v: Verdict)
    ensures v == Accepted <==> ValidManifest(m)
    ensures v == NoModels <==> m.models == []
    ensures v.Rejected? ==>
      && v.index < |m.models| && FailsWith(m.models[v.index], v.fault)
      && forall i | 0 <= i < v.index :: ValidEntry(m.models[i])
  {
    if |m.models| == 0 {
      return NoModels;
    }
    for i := 0 to |m.models|
      invariant forall j | 0 <= j < i :: ValidEntry(m.models[j])
    {
      var e := m.models[i];
      if Blank(e.version) || Blank(e.url) {
        return Rejected(i, MissingVersionOrUrl);
      }
      if e.minAppVersion == "" {
        return Rejected(i, MissingMinAppVersion);
      }
      if e.sha256 != "" {
        if |e.sha256| != 64 {
          return Rejected(i, DigestNot64);
        }
        if !IsHex(e.sha256) {
          return Rejected(i, DigestNotHex);
        }
      }
    }
    return Accepted;
  }

  // ---------- The cache key ----------

  function ConfigKey(c: C.PlatformConfig): string {
    c.manifestUrl + "|" + c.updatedAt
  }

  /** One URL is the other, lengthened by a "|" that its config's date has too many. */
  ghost predicate Straddles(a: C.PlatformConfig, b: C.PlatformConfig) {
    exists x: string :: b.manifestUrl == a.manifestUrl + "|" + x && a.updatedAt == x + "|" + b.updatedAt
  }

  /** Exactly when two configs share a key. */
  lemma KeyCollisions(a: C.PlatformConfig, b: C.PlatformConfig)
    ensures ConfigKey(a) == ConfigKey(b) <==> a == b || Straddles(a, b) || Straddles(b, a)
  {
    if ConfigKey(a) == ConfigKey(b) {
      if |a.manifestUrl| <= |b.manifestUrl| { SameKey(a, b); } else { SameKey(b, a); }
    }
    if Straddles(a, b) { StraddlingKeys(a, b); }
    if Straddles(b, a) { StraddlingKeys(b, a); }
  }

  lemma SameKey(a: C.PlatformConfig, b: C.PlatformConfig)
    requires ConfigKey(a) == ConfigKey(b) && |a.manifestUrl| <= |b.manifestUrl|
    ensures a == b || Straddles(a, b)
  {
    var n, m, key := |a.manifestUrl|, |b.manifestUrl|, ConfigKey(a);
    assert a.manifestUrl == key[..n] && a.updatedAt == key[n + 1..] && key[n] == '|';
    assert b.manifestUrl == key[..m] && b.updatedAt == key[m + 1..] && key[m] == '|';
    if n < m {
      var x := key[n + 1..m];
      assert b.manifestUrl == a.manifestUrl + "|" + x;
      assert a.updatedAt == x + "|" + b.updatedAt;
    }
  }

  lemma StraddlingKeys(a: C.PlatformConfig, b: C.PlatformConfig)
    requires Straddles(a, b)
    ensures ConfigKey(a) == ConfigKey(b)
  {
    var x :| b.manifestUrl == a.manifestUrl + "|" + x && a.updatedAt == x + "|" + b.updatedAt;
    assert ConfigKey(a) == a.manifestUrl + "|" + x + "|" + b.updatedAt;
  }

  lemma StraddlingDate(a: C.PlatformConfig, b: C.PlatformConfig)
    ensures Straddles(a, b) ==> '|' in a.updatedAt
  {
    if Straddles(a, b) {
      var x :| b.manifestUrl == a.manifestUrl + "|" + x && a.updatedAt == x + "|" + b.updatedAt;
      assert a.updatedAt[|x|] == '|';
    }
  }

  /** Dates without "|" make the key injective, whatever the URLs contain. */
  lemma KeyInjective(a: C.PlatformConfig, b: C.PlatformConfig)
    requires ConfigKey(a) == ConfigKey(b) && '|' !in a.updatedAt && '|' !in b.updatedAt
    ensures a == b
  {
    KeyCollisions(a, b);
    StraddlingDate(a, b);
    StraddlingDate(b, a);
  }

  // ---------- The service ----------

  datatype Problem = Unavailable | Invalid

  datatype Answer = Ok(manifest: Manifest) | Err(problem: Problem)

  /** What requesting the manifest URL came to. */
  datatype Download = Unreachable | BadStatus | Garbled | Body(manifest: Manifest)

  function Judge(d: Download): Answer {
    match d
    case Unreachable => Err(Unavailable)
    case BadStatus => Err(Unavailable)
    case Garbled => Err(Invalid)
    case Body(m) => if ValidManifest(m) then Ok(m) else Err(Invalid)
  }

  datatype Stored = Stored(manifest: Manifest, sourceUrl: string, configKey: string, expiresAt: nat, lastFetch: nat)

  const NOTHING := Stored(NO_MANIFEST, "", "", 0, 0)

  predicate Hit(st: Stored, key: string, now: nat) {
    now < st.expiresAt && st.configKey == key && st.manifest.models != []
  }

  function CachedSpec(st: Stored, ttl: nat, now: nat): Answer {
    if st.manifest.models != [] && now < st.lastFetch + 2 * ttl then Ok(st.manifest) else Err(Unavailable)
  }

  /** When the locked sections of an uninterrupted get run. */
  datatype Times = Times(lookAt: nat, failAt: nat, t1: nat, t2: nat)

  function CommitSpec(cfg: C.PlatformConfig, m: Manifest, ttl: nat, t1: nat, t2: nat): Stored {
    Stored(m, cfg.manifestUrl, ConfigKey(cfg), t1 + ttl, t2)
  }

  function GetSpec(st: Stored, ttl: nat, config: T.Answer<C.PlatformConfig>, d: Download, t: Times): (Stored, Answer) {
    match config
    case Err(_) => (st, CachedSpec(st, ttl, t.failAt))
    case Ok(cfg) =>
      if Hit(st, ConfigKey(cfg), t.lookAt) then (st, Ok(st.manifest))
      else
        match Judge(d)
        case Ok(m) => (CommitSpec(cfg, m, ttl, t.t1, t.t2), Ok(m))
        case Err(problem) => (st, if CachedSpec(st, ttl, t.failAt).Ok? then CachedSpec(st, ttl, t.failAt) else Err(problem))
  }

  /** Within the TTL, a manifest stored for config a answers a request under config b
      exactly when the two configs share a key: a different URL is possible. */
  lemma FastPathExactly(a: C.PlatformConfig, b: C.PlatformConfig, m: Manifest, ttl: nat, t1: nat, t2: nat, now: nat)
    requires ValidManifest(m)
    ensures Hit(CommitSpec(a, m, ttl, t1, t2), ConfigKey(b), now) <==> now < t1 + ttl && (a == b || Straddles(a, b) || Straddles(b, a))
    ensures Straddles(C.PlatformConfig("u", "1|2"), C.PlatformConfig("u|1", "2"))
  {
    KeyCollisions(a, b);
    assert "u|1" == "u" + "|" + "1" && "1|2" == "1" + "|" + "2";
  }

  /** When a get fails, and how: as invalid exactly when the platform config is there, the
      manifest has to be fetched and arrives but is not JSON or does not validate; as
      unavailable in every other failure.  It fails only if nothing stored is under two
      TTLs old, and only a fetched manifest changes what is stored. */
  lemma GetExactly(st: Stored, ttl: nat, config: T.Answer<C.PlatformConfig>, d: Download, t: Times)
    ensures
      var (st', a) := GetSpec(st, ttl, config, d, t);
      var fast := config.Ok? && t.lookAt < st.expiresAt && st.configKey == config.value.manifestUrl + "|" + config.value.updatedAt && st.manifest.models != [];
      var recalled := st.manifest.models != [] && t.failAt < st.lastFetch + 2 * ttl;
      var fetched := config.Ok? && d.Body? && ValidManifest(d.manifest);
      && (a.Ok? <==> fast || fetched || recalled)
      && (a.Ok? ==> a.manifest == if !fast && fetched then d.manifest else st.manifest)
      && (fast || !fetched ==> st' == st)
      && (!fast && fetched ==>
            st'.manifest == d.manifest && st'.sourceUrl == config.value.manifestUrl && st'.expiresAt == t.t1 + ttl && st'.lastFetch == t.t2)
      && (a == Err(Invalid) <==> !fast && !fetched && !recalled && config.Ok? && (d.Garbled? || d.Body?))
  {
  }

  class Service {
    const core: C.Client?
    const cacheTtl: nat
    var manifest: Manifest
    var sourceUrl: string
    var configKey: string
    var expiresAt: nat
    var lastFetch: nat

    constructor (core: C.Client?, cacheTtl: int)
      ensures this.core == core && this.cacheTtl == (if cacheTtl <= 0 then 60_000_000_000 else cacheTtl)
      ensures Contents() == NOTHING
    {
      this.core := core;
      this.cacheTtl := if cacheTtl <= 0 then 60_000_000_000 else cacheTtl;
      manifest, sourceUrl, configKey, expiresAt, lastFetch := NO_MANIFEST, "", "", 0, 0;
    }

    function Contents(): Stored
      reads this
    {
      Stored(manifest, sourceUrl, configKey, expiresAt, lastFetch)
    }

    method CachedOrError(now: nat) returns (a: Answer)
      ensures a == CachedSpec(Contents(), cacheTtl, now)
    {
      if |manifest.models| > 0 && now < lastFetch + 2 * cacheTtl {
        return Ok(manifest);
      }
      return Err(Unavailable);
    }

    /** A method of the service in the code too, though it reads no field. */
    method FetchAndValidate(d: Download) returns (a: Answer)
      ensures a == Judge(d)
    {
      match d
      case Unreachable => return Err(Unavailable);
      case BadStatus => return Err(Unavailable);
      case Garbled => return Err(Invalid);
      case Body(m) =>
        var v := ValidateManifest(m);
        if v != Accepted {
          return Err(Invalid);
        }
        return Ok(m);
    }

    /** Both caches move as specified; without a client only the stored manifest is
        consulted. */
    method Get(reply: T.Reply<C.PlatformConfig>, ct: T.Times, d: Download, t: Times) returns (a: Answer)
      modifies this, core
      ensures core == null ==> Contents() == old(Contents()) && a == CachedSpec(Contents(), cacheTtl, t.failAt)
      ensures core != null ==>
        var (platform, config) := T.GetSpec(C.PlatformPolicy(core.ttl), old(core.PlatformCache()), reply, ct);
        && core.PlatformCache() == platform && core.RoutingCache() == old(core.RoutingCache())
        && (Contents(), a) == GetSpec(old(Contents()), cacheTtl, config, d, t)
    {
      if core == null {
        a := CachedOrError(t.failAt);
        return;
      }
      var config := core.GetPlatformConfig(reply, ct);
      if config.Err? {
        a := CachedOrError(t.failAt);
        return;
      }
      var cfg := config.value;
      var key := cfg.manifestUrl + "|" + cfg.updatedAt;
      if t.lookAt < expiresAt && configKey == key && |manifest.models| > 0 {
        return Ok(manifest);
      }
      var fetched := FetchAndValidate(d);
      if fetched.Err? {
        var cached := CachedOrError(t.failAt);
        if cached.Ok? {
          return cached;
        }
        return fetched;
      }
      manifest := fetched.manifest;
      sourceUrl := cfg.manifestUrl;
      configKey := key;
      expiresAt := t.t1 + cacheTtl;
      lastFetch := t.t2;
      return fetched;
    }
  }
}
