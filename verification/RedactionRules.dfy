/** The default rule list, how an engine is put together from it, and what holds of
    the engine as a whole. */
module RedactionRules {
  import opened Wrappers
  import opened Redaction
  import opened Sequences
  import Luhn
  import NationalId

  type Finder = string -> seq<Match>

  /** The library's matchers for the six patterns of variable length. */
  datatype Patterns = Patterns(apiKey: Finder, card: Finder, iban: Finder, email: Finder, phone: Finder, ip: Finder)

  /** A lawful matcher whose matches have at least n characters. */
  ghost predicate AtLeast(find: Finder, n: nat) {
    forall text :: MatchesOk(text, find(text)) && forall i | 0 <= i < |find(text)| :: find(text)[i].start + n <= find(text)[i].end
  }

  /** The shortest string each pattern can match has this many characters. */
  ghost predicate PatternsOk(p: Patterns) {
    && AtLeast(p.apiKey, 17) && AtLeast(p.card, 13) && AtLeast(p.iban, 15)
    && AtLeast(p.email, 6) && AtLeast(p.phone, 9) && AtLeast(p.ip, 5)
  }

  function DefaultRules(p: Patterns): seq<Rule> {
    [
      Rule("api_key", p.apiKey, "[API_KEY]", None),
      Rule("credit_card", p.card, "[CREDIT_CARD]", Some((s: string) => Luhn.LuhnValid(s))),
      Rule("iban", p.iban, "[IBAN]", None),
      Rule("email", p.email, "[EMAIL]", None),
      Rule("phone", p.phone, "[PHONE]", None),
      Rule("ip", p.ip, "[IP]", None),
      NationalId.RULE
    ]
  }

  function Kept(all: seq<Rule>, allowed: set<string>): seq<Rule>
    decreases |all|
  {
    if all == [] then []
    else Kept(all[..|all| - 1], allowed) + if all[|all| - 1].category in allowed then [all[|all| - 1]] else []
  }

  /** The rule list of an engine without custom rules. */
  function EngineRules(categories: seq<string>, p: Patterns): seq<Rule> {
    if categories == [] then DefaultRules(p) else Kept(DefaultRules(p), set c | c in categories)
  }

  datatype CustomRule = CustomRule(pattern: string, replacement: string, category: string)

  /** Definitions whose pattern does not compile are skipped. */
  function Compiled(defs: seq<CustomRule>, compile: string -> Option<Finder>): seq<Rule>
    decreases |defs|
  {
    if defs == [] then []
    else
      var d := defs[|defs| - 1];
      Compiled(defs[..|defs| - 1], compile) +
      match compile(d.pattern)
      case None => []
      case Some(find) => [Rule(if d.category == "" then "custom" else d.category, find, d.replacement, None)]
  }

  /** The rules file: not configured, unreadable, or a list of definitions. */
  datatype RulesFile = NoFile | Unreadable | Definitions(defs: seq<CustomRule>)

  method LoadCustomRules(defs: seq<CustomRule>, compile: string -> Option<Finder>) returns (out: seq<Rule>)
    ensures out == Compiled(defs, compile)
  {
    out := [];
    for k := 0 to |defs|
      invariant out == Compiled(defs[..k], compile)
    {
      assert defs[..k + 1][..k] == defs[..k];
      var d := defs[k];
      var re := compile(d.pattern);
      if re.None? {
        continue;
      }
      var cat := d.category;
      if cat == "" {
        cat := "custom";
      }
      out := out + [Rule(cat, re.value, d.replacement, None)];
    }
    assert defs[..|defs|] == defs;
  }

  /** An empty category list allows every default rule. */
  method New(enabled: bool, categories: seq<string>, file: RulesFile, p: Patterns, compile: string -> Option<Finder>)
      returns (engine: Option<Engine>)
    ensures engine.None? <==> file.Unreadable?
    ensures engine.Some? ==> fresh(engine.value) && engine.value.enabled == enabled
    ensures engine.Some? ==>
      engine.value.rules == EngineRules(categories, p) + (if file.Definitions? then Compiled(file.defs, compile) else [])
  {
    var all := DefaultRules(p);
    var filtered := all;
    if |categories| > 0 {
      var allowed := set c | c in categories;
      filtered := [];
      for k := 0 to |all|
        invariant filtered == Kept(all[..k], allowed)
      {
        assert all[..k + 1][..k] == all[..k];
        if all[k].category in allowed {
          filtered := filtered + [all[k]];
        }
      }
      assert all[..|all|] == all;
    }
    if file.Unreadable? {
      return None;
    }
    if file.Definitions? {
      var custom := LoadCustomRules(file.defs, compile);
      filtered := filtered + custom;
    }
    var e := new Engine(enabled, filtered);
    return Some(e);
  }

  /** Filtering keeps exactly the allowed rules, and invents none. */
  lemma {:induction false} KeptExactly(all: seq<Rule>, allowed: set<string>)
    ensures forall r :: r in Kept(all, allowed) <==> r in all && r.category in allowed
    decreases |all|
  {
    if all != [] {
      var n := |all| - 1;
      KeptExactly(all[..n], allowed);
      assert all == all[..n] + [all[n]];
    }
  }

  lemma EngineRulesExactly(categories: seq<string>, p: Patterns)
    ensures forall r :: r in EngineRules(categories, p) <==>
              r in DefaultRules(p) && (categories == [] || r.category in categories)
  {
    KeptExactly(DefaultRules(p), set c | c in categories);
  }

  lemma {:induction false} KeptConcat(a: seq<Rule>, b: seq<Rule>, allowed: set<string>)
    ensures Kept(a + b, allowed) == Kept(a, allowed) + Kept(b, allowed)
    decreases |b|
  {
    if b == [] {
      assert a + b == a;
    } else {
      PrefixOfConcat(a, b);
      KeptConcat(a, b[..|b| - 1], allowed);
      Regroup(Kept(a, allowed), Kept(b[..|b| - 1], allowed), if b[|b| - 1].category in allowed then [b[|b| - 1]] else []);
    }
  }

  function UpperCase(s: string): string {
    seq(|s|, i requires 0 <= i < |s| => if 'a' <= s[i] <= 'z' then (s[i] as int - 32) as char else s[i])
  }

  lemma Capitals()
    ensures UpperCase("api_key") == "API_KEY" && UpperCase("credit_card") == "CREDIT_CARD" && UpperCase("iban") == "IBAN"
    ensures UpperCase("email") == "EMAIL" && UpperCase("phone") == "PHONE" && UpperCase("ip") == "IP"
  {
  }

  lemma LongestCapitals()
    ensures UpperCase("national_id") == "NATIONAL_ID"
  {
  }

  lemma Brackets()
    ensures "[" + "API_KEY" + "]" == "[API_KEY]" && "[" + "CREDIT_CARD" + "]" == "[CREDIT_CARD]" && "[" + "IBAN" + "]" == "[IBAN]"
    ensures "[" + "EMAIL" + "]" == "[EMAIL]" && "[" + "PHONE" + "]" == "[PHONE]" && "[" + "IP" + "]" == "[IP]"
    ensures "[" + "NATIONAL_ID" + "]" == "[NATIONAL_ID]"
  {
  }

  /** Every default rule replaces what it finds with its own category's name, in capitals
      and brackets, and only card numbers are validated. */
  lemma DefaultReplacements(p: Patterns, k: nat)
    requires k < |DefaultRules(p)|
    ensures
      var r := DefaultRules(p)[k];
      && r.replacement == "[" + UpperCase(r.category) + "]"
      && (r.validate.Some? <==> r.category == "credit_card")
  {
    Capitals();
    LongestCapitals();
    Brackets();
    CategoriesDiffer(p);
    assert DefaultRules(p)[1].category == "credit_card";
  }

  lemma CategoriesDiffer(p: Patterns)
    ensures forall i, j | 0 <= i < j < |DefaultRules(p)| :: DefaultRules(p)[i].category != DefaultRules(p)[j].category
  {
  }

  /** The rule the engine keeps when the categories name just one. */
  lemma OneRuleEngine(category: string, p: Patterns, k: nat)
    requires k < |DefaultRules(p)| && DefaultRules(p)[k].category == category
    ensures EngineRules([category], p) == [DefaultRules(p)[k]]
  {
    var d, allowed := DefaultRules(p), {category};
    assert (set c | c in [category]) == allowed;
    CategoriesDiffer(p);
    assert d == d[..k] + ([d[k]] + d[k + 1..]);
    KeptConcat(d[..k], [d[k]] + d[k + 1..], allowed);
    KeptConcat([d[k]], d[k + 1..], allowed);
    NoneKept(d[..k], allowed);
    NoneKept(d[k + 1..], allowed);
    assert [d[k]][..0] == [];
    assert Kept([d[k]], allowed) == [d[k]];
  }

  lemma {:induction false} NoneKept(all: seq<Rule>, allowed: set<string>)
    requires forall i | 0 <= i < |all| :: all[i].category !in allowed
    ensures Kept(all, allowed) == []
    decreases |all|
  {
    if all != [] { NoneKept(all[..|all| - 1], allowed); }
  }

  lemma OneRuleRun(r: Rule, text: string)
    requires RulesOk([r]) && text != ""
    ensures RuleOk(r) && Redacted(true, [r], text).content == ApplyRule(r, text) && Redacted(true, [r], text).count == Hits(r, text)
  {
    var rules := [r];
    assert rules[..0] == [] && rules[0] == r;
    assert RunRules(rules[..0], text) == Result(text, 0, {});
  }

  /** The formula of Annex B of ISO/IEC 7812-1 on a string's digits, 13 to 19 of them. */
  predicate CardDigits(s: string) {
    13 <= |Luhn.DigitsOf(s)| <= 19 && Luhn.Weighted(Luhn.DigitsOf(s)) % 10 == 0
  }

  ghost predicate CardPieces(text: string, ms: seq<Match>, pieces: seq<string>)
    requires MatchesOk(text, ms)
  {
    && |pieces| == |ms|
    && forall k | 0 <= k < |ms| ::
         pieces[k] == if CardDigits(text[ms[k].start..ms[k].end]) then "[CREDIT_CARD]" else text[ms[k].start..ms[k].end]
  }

  lemma CardVerdict(found: string)
    ensures Luhn.LuhnValid(found) <==> CardDigits(found)
  {
    Luhn.SumIsWeighted(Luhn.DigitsOf(found));
  }

  lemma CardsReplaced(p: Patterns, text: string)
    requires RuleOk(DefaultRules(p)[1]) && MatchesOk(text, p.card(text))
    ensures Replaced(DefaultRules(p)[1], text, 0) == set k: nat | k < |p.card(text)| && CardDigits(text[p.card(text)[k].start..p.card(text)[k].end])
  {
    var ms := p.card(text);
    forall k | 0 <= k < |ms| ensures Luhn.LuhnValid(text[ms[k].start..ms[k].end]) <==> CardDigits(text[ms[k].start..ms[k].end]) {
      CardVerdict(text[ms[k].start..ms[k].end]);
    }
  }

  lemma CardPass(p: Patterns, text: string) returns (pieces: seq<string>)
    requires RuleOk(DefaultRules(p)[1]) && MatchesOk(text, p.card(text))
    ensures CardPieces(text, p.card(text), pieces)
    ensures ApplyRule(DefaultRules(p)[1], text) == Interleave(Gaps(text, p.card(text), 0, 0), pieces)
    ensures Hits(DefaultRules(p)[1], text) == |Replaced(DefaultRules(p)[1], text, 0)|
  {
    var ms := p.card(text);
    pieces := PassObeysValidator(DefaultRules(p)[1], text);
    forall k | 0 <= k < |ms|
      ensures pieces[k] == if CardDigits(text[ms[k].start..ms[k].end]) then "[CREDIT_CARD]" else text[ms[k].start..ms[k].end]
    {
      CardVerdict(text[ms[k].start..ms[k].end]);
    }
  }

  /** Cards, end to end: an engine for card numbers replaces what its pattern finds if and
      only if the digits of it are 13 to 19 and satisfy the Luhn formula, and reports as
      many hits; everything else stays. */
  lemma CardsExactly(p: Patterns, text: string) returns (pieces: seq<string>)
    requires PatternsOk(p) && text != ""
    ensures RulesOk(EngineRules(["credit_card"], p)) && MatchesOk(text, p.card(text)) && CardPieces(text, p.card(text), pieces)
    ensures
      var out := Redacted(true, EngineRules(["credit_card"], p), text);
      && out.content == Interleave(Gaps(text, p.card(text), 0, 0), pieces)
      && out.count == |set k: nat | k < |p.card(text)| && CardDigits(text[p.card(text)[k].start..p.card(text)[k].end])|
  {
    var r := DefaultRules(p)[1];
    OneRuleEngine("credit_card", p, 1);
    assert RuleOk(r);
    OneRuleRun(r, text);
    pieces := CardPass(p, text);
    CardsReplaced(p, text);
  }

  /** The custom rules are those of the definitions whose pattern compiles, with the
      definition's replacement and without a validator, in the definitions' order. */
  lemma {:induction false} CompiledExactly(defs: seq<CustomRule>, compile: string -> Option<Finder>)
    ensures forall r :: r in Compiled(defs, compile) <==>
              exists d :: d in defs && compile(d.pattern) == Some(r.find) && r.replacement == d.replacement && r.validate.None?
                          && r.category == if d.category == "" then "custom" else d.category
    decreases |defs|
  {
    if defs != [] {
      var before, last := defs[..|defs| - 1], defs[|defs| - 1];
      assert defs == before + [last];
      CompiledExactly(before, compile);
    }
  }

  lemma {:induction false} CompiledConcat(a: seq<CustomRule>, b: seq<CustomRule>, compile: string -> Option<Finder>)
    ensures Compiled(a + b, compile) == Compiled(a, compile) + Compiled(b, compile)
    decreases |b|
  {
    if b == [] {
      assert a + b == a;
    } else {
      var d := b[|b| - 1];
      PrefixOfConcat(a, b);
      CompiledConcat(a, b[..|b| - 1], compile);
      Regroup(Compiled(a, compile), Compiled(b[..|b| - 1], compile),
        match compile(d.pattern)
        case None => []
        case Some(find) => [Rule(if d.category == "" then "custom" else d.category, find, d.replacement, None)]);
    }
  }

  // ---------- Growth ----------

  /** One pass turns text of length x into text of length at most p/q * x. */
  ghost predicate GrowsBy(r: Rule, p: nat, q: nat) {
    RuleOk(r) && forall text :: q * |ApplyRule(r, text)| <= p * |text|
  }

  lemma {:induction false} GainBound(r: Rule, text: string, ms: seq<Match>, i: nat, from: nat, m: nat)
    requires MatchesOk(text, ms) && i <= |ms| && from <= |text|
    requires i < |ms| ==> from <= ms[i].start
    requires forall k | i <= k < |ms| :: ms[k].start + m <= ms[k].end
    ensures m <= |r.replacement| ==> m * Gained(r, text, ms, i) <= (|r.replacement| - m) * (|text| - from)
    ensures |r.replacement| <= m ==> Gained(r, text, ms, i) <= 0
    decreases |ms| - i
  {
    if i < |ms| {
      GainBound(r, text, ms, i + 1, ms[i].end, m);
      var rest, len := Gained(r, text, ms, i + 1), ms[i].end - ms[i].start;
      assert Gained(r, text, ms, i) == rest || Gained(r, text, ms, i) == |r.replacement| - len + rest;
      if m <= |r.replacement| {
        GainStep(m, |r.replacement|, len, rest, |text| - ms[i].end, |text| - from);
      }
    } else if m <= |r.replacement| {
      NotNegative(|r.replacement| - m, |text| - from);
    }
  }

  lemma NotNegative(a: nat, b: nat)
    ensures 0 <= a * b
  {
  }

  lemma GainStep(m: nat, r: nat, len: nat, gained: int, rest: nat, all: nat)
    requires m <= len && m <= r && m * gained <= (r - m) * rest && len + rest <= all
    ensures m * (r - len + gained) <= (r - m) * all
    ensures m * gained <= (r - m) * all
  {
    assert m * (r - len) <= (r - m) * len by {
      assert m * (r - len) == m * r - m * len;
      assert (r - m) * len == r * len - m * len;
      assert m * r <= len * r;
    }
    assert m * (r - len + gained) == m * (r - len) + m * gained;
    assert (r - m) * len + (r - m) * rest == (r - m) * (len + rest);
    assert (r - m) * (len + rest) <= (r - m) * all;
    assert 0 <= (r - m) * len;
  }

  lemma MulPlus(m: int, a: int, b: int)
    ensures m * (a + b) == m * a + m * b
  {
  }

  /** A rule whose matches have at least m characters stretches text by at most the
      ratio of its replacement to m, and not at all if the replacement is no longer. */
  lemma PassGrowth(r: Rule, m: nat)
    requires 0 < m && AtLeast(r.find, m)
    ensures |r.replacement| <= m ==> GrowsBy(r, 1, 1)
    ensures m <= |r.replacement| ==> GrowsBy(r, |r.replacement|, m)
  {
    assert RuleOk(r);
    forall text
      ensures |r.replacement| <= m ==> |ApplyRule(r, text)| <= |text|
      ensures m <= |r.replacement| ==> m * |ApplyRule(r, text)| <= |r.replacement| * |text|
    {
      PassLength(r, text);
      GainBound(r, text, r.find(text), 0, 0, m);
      if m <= |r.replacement| {
        MulPlus(m, |text|, Gained(r, text, r.find(text), 0));
      }
    }
  }

  ghost predicate RunGrowsBy(rules: seq<Rule>, p: nat, q: nat) {
    RulesOk(rules) && forall text :: q * |RunRules(rules, text).content| <= p * |text|
  }

  lemma RunGrowsCons(rules: seq<Rule>, p: nat, q: nat, r: Rule, p': nat, q': nat)
    requires RunGrowsBy(rules, p, q) && GrowsBy(r, p', q')
    ensures RunGrowsBy(rules + [r], p * p', q * q')
  {
    var all := rules + [r];
    assert all[..|all| - 1] == rules;
    forall i | 0 <= i < |all| ensures RuleOk(all[i]) { }
    forall text ensures (q * q') * |RunRules(all, text).content| <= (p * p') * |text| {
      var mid := RunRules(rules, text).content;
      var out := ApplyRule(r, mid);
      assert RunRules(all, text).content == out;
      assert q' * |out| <= p' * |mid| && q * |mid| <= p * |text|;
      Compose(q, q', p, p', |out|, |mid|, |text|);
    }
  }

  lemma Compose(q: nat, q': nat, p: nat, p': nat, z: nat, y: nat, x: nat)
    requires q' * z <= p' * y && q * y <= p * x
    ensures (q * q') * z <= (p * p') * x
  {
    assert q * (q' * z) <= q * (p' * y);
    assert q * (p' * y) == p' * (q * y);
    assert p' * (q * y) <= p' * (p * x);
    assert q * (q' * z) == (q * q') * z;
    assert p' * (p * x) == (p * p') * x;
  }

  /** Growing less is growing by any larger ratio. */
  lemma RunGrowsWeaken(rules: seq<Rule>, p: nat, q: nat, p': nat, q': nat)
    requires RunGrowsBy(rules, p, q) && q <= p && 0 < q && 0 < q' && p * q' <= p' * q
    ensures RunGrowsBy(rules, p', q')
  {
    forall text ensures q' * |RunRules(rules, text).content| <= p' * |text| {
      var y, x := |RunRules(rules, text).content|, |text|;
      assert q * y <= p * x;
      WeakenRatio(p, q, p', q', y, x);
    }
  }

  lemma WeakenRatio(p: nat, q: nat, p': nat, q': nat, y: nat, x: nat)
    requires q * y <= p * x && 0 < q && p * q' <= p' * q
    ensures q' * y <= p' * x
  {
    assert q' * (q * y) <= q' * (p * x);
    assert q' * (p * x) == (p * q') * x;
    assert (p * q') * x <= (p' * q) * x;
    assert q' * (q * y) == q * (q' * y);
    assert (p' * q) * x == q * (p' * x);
    CancelLeft(q, q' * y, p' * x);
  }

  lemma CancelLeft(q: nat, a: nat, b: nat)
    requires 0 < q && q * a <= q * b
    ensures a <= b
  {
    assert q * (a - b) <= 0;
  }

  lemma RatioOf(p: nat, q: nat, p': nat, q': nat)
    requires 0 < q <= p && 0 < q' <= p'
    ensures 0 < q * q' && p * (q * q') <= (p * p') * q
  {
    assert p * (q * q') == (p * q) * q' && (p * p') * q == (p * q) * p';
    Widen(p * q, q', p');
    Widen(q, 1, q');
  }

  lemma Widen(n: nat, a: nat, b: nat)
    requires a <= b
    ensures n * a <= n * b
  {
  }

  /** One more rule of a list, kept or not. */
  lemma KeptGrowth(all: seq<Rule>, k: nat, allowed: set<string>, p: nat, q: nat, p': nat, q': nat)
    requires k < |all| && RunGrowsBy(Kept(all[..k], allowed), p, q) && GrowsBy(all[k], p', q')
    requires 0 < q <= p && 0 < q' <= p'
    ensures RunGrowsBy(Kept(all[..k + 1], allowed), p * p', q * q')
  {
    assert all[..k + 1][..k] == all[..k];
    if all[k].category in allowed {
      RunGrowsCons(Kept(all[..k], allowed), p, q, all[k], p', q');
    } else {
      RatioOf(p, q, p', q');
      assert Kept(all[..k + 1], allowed) == Kept(all[..k], allowed);
      RunGrowsWeaken(Kept(all[..k], allowed), p, q, p * p', q * q');
    }
  }

  /** E-mail addresses (6 to 7) and national IDs (11 to 13) are all that can grow:
      numerator and denominator of the k-th default rule's growth. */
  function Stretch(k: nat): (r: (nat, nat)) {
    if k == 3 then (7, 6) else if k == 6 then (13, 11) else (1, 1)
  }

  function StretchUpTo(k: nat): (r: (nat, nat)) {
    if k <= 3 then (1, 1) else if k <= 6 then (7, 6) else (91, 66)
  }

  lemma EachDefaultGrowth(p: Patterns, k: nat)
    requires PatternsOk(p) && k < 7
    ensures GrowsBy(DefaultRules(p)[k], Stretch(k).0, Stretch(k).1)
  {
    if k == 6 { NationalIdGrowth(); } else { PassGrowth(DefaultRules(p)[k], [17, 13, 15, 6, 9, 5][k]); }
  }

  lemma NationalIdGrowth()
    ensures GrowsBy(NationalId.RULE, 13, 11)
  {
    assert AtLeast(NationalId.RULE.find, 11);
    PassGrowth(NationalId.RULE, 11);
  }

  lemma StretchProduct(k: nat)
    requires k < 7
    ensures 0 < StretchUpTo(k).1 <= StretchUpTo(k).0 && 0 < Stretch(k).1 <= Stretch(k).0
    ensures StretchUpTo(k + 1) == (StretchUpTo(k).0 * Stretch(k).0, StretchUpTo(k).1 * Stretch(k).1)
  {
  }

  lemma {:induction false} GrowthUpTo(all: seq<Rule>, allowed: set<string>, k: nat)
    requires k <= |all| <= 7 && forall i | 0 <= i < |all| :: GrowsBy(all[i], Stretch(i).0, Stretch(i).1)
    ensures RunGrowsBy(Kept(all[..k], allowed), StretchUpTo(k).0, StretchUpTo(k).1)
  {
    if k == 0 {
      assert Kept(all[..0], allowed) == [];
    } else {
      GrowthUpTo(all, allowed, k - 1);
      StretchProduct(k - 1);
      KeptGrowth(all, k - 1, allowed, StretchUpTo(k - 1).0, StretchUpTo(k - 1).1, Stretch(k - 1).0, Stretch(k - 1).1);
    }
  }

  /** Whatever categories are allowed, the default rules stretch a text by at most
      7/6 times 13/11. */
  lemma DefaultGrowth(p: Patterns, allowed: set<string>)
    requires PatternsOk(p)
    ensures RunGrowsBy(Kept(DefaultRules(p), allowed), 91, 66)
  {
    var d := DefaultRules(p);
    forall i | 0 <= i < |d| ensures GrowsBy(d[i], Stretch(i).0, Stretch(i).1) { EachDefaultGrowth(p, i); }
    GrowthUpTo(d, allowed, 7);
    assert d[..7] == d;
  }

  lemma {:induction false} KeptAll(all: seq<Rule>, allowed: set<string>)
    requires forall i | 0 <= i < |all| :: all[i].category in allowed
    ensures Kept(all, allowed) == all
    decreases |all|
  {
    if all != [] {
      KeptAll(all[..|all| - 1], allowed);
      assert all == all[..|all| - 1] + [all[|all| - 1]];
    }
  }

  lemma EngineRulesAreKept(categories: seq<string>, p: Patterns) returns (allowed: set<string>)
    ensures EngineRules(categories, p) == Kept(DefaultRules(p), allowed)
    ensures "national_id" in allowed <==> categories == [] || "national_id" in categories
  {
    var d := DefaultRules(p);
    if categories == [] {
      allowed := set i | 0 <= i < |d| :: d[i].category;
      KeptAll(d, allowed);
      assert d[6].category == "national_id";
    } else {
      allowed := set c | c in categories;
    }
  }

  /** What a whole engine does to a text, for any choice of categories and no custom
      rules: the length bound, which implies the one the repository fuzzes, and no
      national ID left when that category is on. */
  lemma EngineGuarantees(enabled: bool, categories: seq<string>, p: Patterns, text: string)
    requires PatternsOk(p)
    ensures RulesOk(EngineRules(categories, p))
    ensures
      var out := Redacted(enabled, EngineRules(categories, p), text).content;
      && 66 * |out| <= 91 * |text| && |out| <= 2 * |text| + 64
      && (enabled && (categories == [] || "national_id" in categories) ==> forall j :: !NationalId.IdAt(out, j))
  {
    var allowed := EngineRulesAreKept(categories, p);
    DefaultGrowth(p, allowed);
    var rules := EngineRules(categories, p);
    if enabled && "national_id" in allowed {
      var d := DefaultRules(p);
      assert Kept(d, allowed) == Kept(d[..6], allowed) + [NationalId.RULE];
      assert rules[|rules| - 1] == NationalId.RULE;
      NationalId.RuleIsOk();
      forall j ensures !NationalId.IdAt(Redacted(enabled, rules, text).content, j) {
        if text != "" {
          NationalId.NothingIsLeft(RunRules(rules[..|rules| - 1], text).content, j);
        }
      }
    }
  }
}
