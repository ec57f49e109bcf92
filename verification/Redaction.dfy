/** The redaction engine: an ordered list of rules, each replacing the matches of a
    pattern, and what the splicing loop computes.  A character stands for a byte. */
module Redaction {
  import opened Sequences
  import opened Wrappers

  datatype Match = Match(start: nat, end: nat)

  /** `find` stands for the compiled pattern's FindAllStringIndex. */
  datatype Rule = Rule(category: string, find: string -> seq<Match>, replacement: string, validate: Option<string -> bool>)

  datatype Result = Result(content: string, count: nat, categories: set<string>)

  /** In range, in order, not overlapping. */
  predicate MatchesOk(text: string, ms: seq<Match>) {
    && (forall i | 0 <= i < |ms| :: ms[i].start <= ms[i].end <= |text|)
    && (forall i, j | 0 <= i < j < |ms| :: ms[i].end <= ms[j].start)
  }

  /** What the pattern library promises of every pattern. */
  ghost predicate RuleOk(r: Rule) {
    forall text :: MatchesOk(text, r.find(text))
  }

  ghost predicate RulesOk(rules: seq<Rule>) {
    forall i | 0 <= i < |rules| :: RuleOk(rules[i])
  }

  predicate Accepts(r: Rule, found: string) {
    r.validate.None? || r.validate.value(found)
  }

  function Piece(r: Rule, found: string): string {
    if Accepts(r, found) then r.replacement else found
  }

  /** text[from..] read left to right, the matches from the i-th on replaced. */
  function Rewrite(r: Rule, text: string, ms: seq<Match>, i: nat, from: nat): string
    requires MatchesOk(text, ms) && i <= |ms| && from <= |text|
    requires i < |ms| ==> from <= ms[i].start
    decreases |ms| - i
  {
    if i == |ms| then text[from..]
    else
      text[from..ms[i].start] + Piece(r, text[ms[i].start..ms[i].end]) + Rewrite(r, text, ms, i + 1, ms[i].end)
  }

  /** How many of the matches from the i-th on the validator accepts. */
  function Accepted(r: Rule, text: string, ms: seq<Match>, i: nat): nat
    requires MatchesOk(text, ms) && i <= |ms|
    decreases |ms| - i
  {
    if i == |ms| then 0
    else (if Accepts(r, text[ms[i].start..ms[i].end]) then 1 else 0) + Accepted(r, text, ms, i + 1)
  }

  function ApplyRule(r: Rule, text: string): string
    requires MatchesOk(text, r.find(text))
  {
    Rewrite(r, text, r.find(text), 0, 0)
  }

  function Hits(r: Rule, text: string): nat
    requires MatchesOk(text, r.find(text))
  {
    Accepted(r, text, r.find(text), 0)
  }

  /** The rules one after another, each on the text the one before it left. */
  ghost function RunRules(rules: seq<Rule>, text: string): Result
    requires RulesOk(rules)
    decreases |rules|
  {
    if rules == [] then Result(text, 0, {})
    else
      var last := rules[|rules| - 1];
      var before := RunRules(rules[..|rules| - 1], text);
      assert RuleOk(last);
      var hits := Hits(last, before.content);
      Result(ApplyRule(last, before.content), before.count + hits,
             if hits > 0 then before.categories + {last.category} else before.categories)
  }

  ghost function Redacted(enabled: bool, rules: seq<Rule>, content: string): Result
    requires RulesOk(rules)
  {
    if !enabled || content == "" then Result(content, 0, {}) else RunRules(rules, content)
  }

  lemma Cut(text: string, from: nat, k: nat, to: nat)
    requires from <= k <= to <= |text|
    ensures text[from..to] == text[from..k] + text[k..to]
  {
  }

  /** The untouched prefix can be cut off anywhere before the next match. */
  lemma RewriteSplit(r: Rule, text: string, ms: seq<Match>, i: nat, from: nat, k: nat)
    requires MatchesOk(text, ms) && i <= |ms| && from <= k <= |text|
    requires i < |ms| ==> k <= ms[i].start
    ensures Rewrite(r, text, ms, i, from) == text[from..k] + Rewrite(r, text, ms, i, k)
  {
    if i == |ms| {
      Cut(text, from, k, |text|);
      assert text[from..|text|] == text[from..] && text[k..|text|] == text[k..];
    } else {
      Cut(text, from, k, ms[i].start);
      var head, gap := text[from..k], text[k..ms[i].start];
      var piece, rest := Piece(r, text[ms[i].start..ms[i].end]), Rewrite(r, text, ms, i + 1, ms[i].end);
      Regroup(head, gap, piece);
      Regroup(head, gap + piece, rest);
    }
  }

  // ---------- What one pass does ----------

  /** The text between the matches, one stretch more than there are matches. */
  function Gaps(text: string, ms: seq<Match>, i: nat, from: nat): (gaps: seq<string>)
    requires MatchesOk(text, ms) && i <= |ms| && from <= |text|
    requires i < |ms| ==> from <= ms[i].start
    ensures |gaps| == |ms| - i + 1
    decreases |ms| - i
  {
    if i == |ms| then [text[from..]]
    else [text[from..ms[i].start]] + Gaps(text, ms, i + 1, ms[i].end)
  }

  function Interleave(gaps: seq<string>, pieces: seq<string>): string
    requires |gaps| == |pieces| + 1
    decreases |pieces|
  {
    if pieces == [] then gaps[0] else gaps[0] + pieces[0] + Interleave(gaps[1..], pieces[1..])
  }

  function Found(text: string, ms: seq<Match>): seq<string>
    requires MatchesOk(text, ms)
  {
    seq(|ms|, i requires 0 <= i < |ms| => text[ms[i].start..ms[i].end])
  }

  function Pieces(r: Rule, found: seq<string>): seq<string> {
    seq(|found|, i requires 0 <= i < |found| => Piece(r, found[i]))
  }

  lemma InterleaveCons(gap: string, gaps: seq<string>, piece: string, pieces: seq<string>)
    requires |gaps| == |pieces| + 1
    ensures Interleave([gap] + gaps, [piece] + pieces) == gap + piece + Interleave(gaps, pieces)
  {
    assert ([gap] + gaps)[1..] == gaps && ([piece] + pieces)[1..] == pieces;
  }

  lemma Stitch(text: string, from: nat, start: nat, end: nat)
    requires from <= start <= end <= |text|
    ensures text[from..] == text[from..start] + text[start..end] + text[end..]
  {
  }

  lemma NextMatch(text: string, ms: seq<Match>, i: nat)
    requires MatchesOk(text, ms) && i < |ms|
    ensures ms[i].start <= ms[i].end <= |text| && (i + 1 < |ms| ==> ms[i].end <= ms[i + 1].start)
    ensures Found(text, ms)[i..] == [text[ms[i].start..ms[i].end]] + Found(text, ms)[i + 1..]
  {
  }

  lemma {:induction false} InterleaveFound(text: string, ms: seq<Match>, i: nat, from: nat)
    requires MatchesOk(text, ms) && i <= |ms| && from <= |text|
    requires i < |ms| ==> from <= ms[i].start
    ensures Interleave(Gaps(text, ms, i, from), Found(text, ms)[i..]) == text[from..]
    decreases |ms| - i
  {
    if i < |ms| {
      var start, end := ms[i].start, ms[i].end;
      NextMatch(text, ms, i);
      InterleaveFound(text, ms, i + 1, end);
      InterleaveCons(text[from..start], Gaps(text, ms, i + 1, end), text[start..end], Found(text, ms)[i + 1..]);
      Stitch(text, from, start, end);
    }
  }

  lemma {:induction false} InterleavePieces(r: Rule, text: string, ms: seq<Match>, i: nat, from: nat)
    requires MatchesOk(text, ms) && i <= |ms| && from <= |text|
    requires i < |ms| ==> from <= ms[i].start
    ensures Interleave(Gaps(text, ms, i, from), Pieces(r, Found(text, ms)[i..])) == Rewrite(r, text, ms, i, from)
    decreases |ms| - i
  {
    if i < |ms| {
      var start, end, rest := ms[i].start, ms[i].end, Found(text, ms)[i + 1..];
      NextMatch(text, ms, i);
      InterleavePieces(r, text, ms, i + 1, end);
      PiecesCons(r, text[start..end], rest);
      InterleaveCons(text[from..start], Gaps(text, ms, i + 1, end), Piece(r, text[start..end]), Pieces(r, rest));
    }
  }

  lemma PiecesCons(r: Rule, found: string, rest: seq<string>)
    ensures Pieces(r, [found] + rest) == [Piece(r, found)] + Pieces(r, rest)
  {
  }

  /** A pass is a simultaneous replacement: the text is its gaps interleaved with
      the matched strings, the result the same gaps interleaved with what each
      matched string becomes on its own. */
  lemma PassIsSimultaneous(r: Rule, text: string)
    requires RuleOk(r)
    ensures
      var ms := r.find(text);
      var gaps := Gaps(text, ms, 0, 0);
      && text == Interleave(gaps, Found(text, ms))
      && ApplyRule(r, text) == Interleave(gaps, Pieces(r, Found(text, ms)))
  {
    var ms := r.find(text);
    InterleaveFound(text, ms, 0, 0);
    InterleavePieces(r, text, ms, 0, 0);
    assert Found(text, ms)[0..] == Found(text, ms);
  }

  /** Which matched strings are replaced: all where the rule has no validator, else
      those the validator says yes to; and the hits are their number. */
  lemma PiecesExactly(r: Rule, text: string, k: nat)
    requires RuleOk(r) && k < |r.find(text)|
    ensures
      var found := text[r.find(text)[k].start..r.find(text)[k].end];
      Found(text, r.find(text))[k] == found && Pieces(r, Found(text, r.find(text)))[k] ==
        match r.validate
        case None => r.replacement
        case Some(valid) => if valid(found) then r.replacement else found
  {
  }

  /** The matches from the i-th on that are to be replaced, by index. */
  ghost function Replaced(r: Rule, text: string, i: nat): set<nat>
    requires RuleOk(r)
  {
    var ms := r.find(text);
    set k: nat | i <= k < |ms| && (r.validate.Some? ==> r.validate.value(text[ms[k].start..ms[k].end]))
  }

  lemma ReplacedStep(r: Rule, text: string, i: nat)
    requires RuleOk(r) && i < |r.find(text)|
    ensures
      var found := text[r.find(text)[i].start..r.find(text)[i].end];
      var replace := r.validate.Some? ==> r.validate.value(found);
      Replaced(r, text, i) == Replaced(r, text, i + 1) + (if replace then {i} else {}) && i !in Replaced(r, text, i + 1)
  {
  }

  lemma {:induction false} HitsAreReplaced(r: Rule, text: string, i: nat)
    requires RuleOk(r) && i <= |r.find(text)|
    ensures Accepted(r, text, r.find(text), i) == |Replaced(r, text, i)|
    decreases |r.find(text)| - i
  {
    if i == |r.find(text)| {
      assert Replaced(r, text, i) == {};
    } else {
      HitsAreReplaced(r, text, i + 1);
      ReplacedStep(r, text, i);
    }
  }

  /** Each piece is the replacement, or the matched string where the rule has a validator
      that says no to it. */
  ghost predicate Obeys(r: Rule, text: string, pieces: seq<string>)
    requires RuleOk(r)
  {
    var ms := r.find(text);
    && |pieces| == |ms|
    && forall k | 0 <= k < |ms| ::
         var found := text[ms[k].start..ms[k].end];
         pieces[k] == match r.validate
                      case None => r.replacement
                      case Some(valid) => if valid(found) then r.replacement else found
  }

  /** A pass in terms of the validator itself: the gaps stay, the pieces between them are
      as the validator decides, and the hits are the replacements. */
  lemma PassObeysValidator(r: Rule, text: string) returns (pieces: seq<string>)
    requires RuleOk(r)
    ensures Obeys(r, text, pieces) && ApplyRule(r, text) == Interleave(Gaps(text, r.find(text), 0, 0), pieces)
    ensures Hits(r, text) == |Replaced(r, text, 0)|
  {
    var ms := r.find(text);
    PassIsSimultaneous(r, text);
    pieces := Pieces(r, Found(text, ms));
    forall k | 0 <= k < |ms|
      ensures
        var found := text[ms[k].start..ms[k].end];
        pieces[k] == match r.validate case None => r.replacement case Some(valid) => if valid(found) then r.replacement else found
    {
      PiecesExactly(r, text, k);
    }
    HitsAreReplaced(r, text, 0);
  }

  /** A disabled engine and an empty text: nothing is done and nothing reported. */
  lemma NothingToDo(rules: seq<Rule>, text: string)
    requires RulesOk(rules)
    ensures Redacted(false, rules, text) == Result(text, 0, {})
    ensures Redacted(true, rules, "") == Result("", 0, {})
  {
  }

  /** Characters gained by the accepted matches from the i-th on; may be negative. */
  function Gained(r: Rule, text: string, ms: seq<Match>, i: nat): int
    requires MatchesOk(text, ms) && i <= |ms|
    decreases |ms| - i
  {
    if i == |ms| then 0
    else
      (if Accepts(r, text[ms[i].start..ms[i].end]) then |r.replacement| - (ms[i].end - ms[i].start) else 0)
      + Gained(r, text, ms, i + 1)
  }

  lemma {:induction false} LengthFrom(r: Rule, text: string, ms: seq<Match>, i: nat, from: nat)
    requires MatchesOk(text, ms) && i <= |ms| && from <= |text|
    requires i < |ms| ==> from <= ms[i].start
    ensures |Rewrite(r, text, ms, i, from)| == |text| - from + Gained(r, text, ms, i)
    decreases |ms| - i
  {
    if i < |ms| {
      NextMatch(text, ms, i);
      LengthFrom(r, text, ms, i + 1, ms[i].end);
      var found := text[ms[i].start..ms[i].end];
      assert |Piece(r, found)| == if Accepts(r, found) then |r.replacement| else ms[i].end - ms[i].start;
    }
  }

  /** Length is conserved up to what each replacement adds or removes. */
  lemma PassLength(r: Rule, text: string)
    requires RuleOk(r)
    ensures |ApplyRule(r, text)| == |text| + Gained(r, text, r.find(text), 0)
  {
    LengthFrom(r, text, r.find(text), 0, 0);
  }

  /** Hits are counted, and a pass without hits changes nothing. */
  lemma {:induction false} NoHitsNoChange(r: Rule, text: string, ms: seq<Match>, i: nat, from: nat)
    requires MatchesOk(text, ms) && i <= |ms| && from <= |text|
    requires i < |ms| ==> from <= ms[i].start
    requires Accepted(r, text, ms, i) == 0
    ensures Rewrite(r, text, ms, i, from) == text[from..]
    decreases |ms| - i
  {
    if i < |ms| {
      NextMatch(text, ms, i);
      NoHitsNoChange(r, text, ms, i + 1, ms[i].end);
      Stitch(text, from, ms[i].start, ms[i].end);
    }
  }

  // ---------- What a whole run reports ----------

  /** The replacements made by the k-th rule of a run. */
  ghost function HitsAt(rules: seq<Rule>, text: string, k: nat): nat
    requires RulesOk(rules) && k < |rules|
  {
    assert RuleOk(rules[k]);
    Hits(rules[k], RunRules(rules[..k], text).content)
  }

  ghost function TotalHits(rules: seq<Rule>, text: string): nat
    requires RulesOk(rules)
    decreases |rules|
  {
    if rules == [] then 0 else TotalHits(rules[..|rules| - 1], text) + HitsAt(rules, text, |rules| - 1)
  }

  lemma HitsAtPrefix(rules: seq<Rule>, text: string, k: nat)
    requires RulesOk(rules) && k < |rules| - 1
    ensures HitsAt(rules[..|rules| - 1], text, k) == HitsAt(rules, text, k)
  {
    assert rules[..|rules| - 1][..k] == rules[..k];
  }

  lemma {:induction false} HitsAreListed(rules: seq<Rule>, text: string, k: nat)
    requires RulesOk(rules) && k < |rules| && HitsAt(rules, text, k) > 0
    ensures rules[k].category in RunRules(rules, text).categories
    decreases |rules|
  {
    if k < |rules| - 1 {
      HitsAtPrefix(rules, text, k);
      HitsAreListed(rules[..|rules| - 1], text, k);
    }
  }

  lemma {:induction false} ListedAreHits(rules: seq<Rule>, text: string, c: string) returns (k: nat)
    requires RulesOk(rules) && c in RunRules(rules, text).categories
    ensures k < |rules| && rules[k].category == c && HitsAt(rules, text, k) > 0
    decreases |rules|
  {
    var n := |rules| - 1;
    if c in RunRules(rules[..n], text).categories {
      k := ListedAreHits(rules[..n], text, c);
      HitsAtPrefix(rules, text, k);
    } else {
      k := n;
    }
  }

  lemma {:induction false} CountIsTotal(rules: seq<Rule>, text: string)
    requires RulesOk(rules)
    ensures RunRules(rules, text).count == TotalHits(rules, text)
    ensures RunRules(rules, text).count > 0 <==> RunRules(rules, text).categories != {}
    ensures RunRules(rules, text).count == 0 ==> RunRules(rules, text).content == text
    decreases |rules|
  {
    if rules != [] {
      var n := |rules| - 1;
      CountIsTotal(rules[..n], text);
      assert RuleOk(rules[n]);
      var before := RunRules(rules[..n], text).content;
      if Hits(rules[n], before) == 0 {
        NoHitsNoChange(rules[n], before, rules[n].find(before), 0, 0);
      }
    }
  }

  /** The report of a run is honest: the count is the number of replacements made,
      the categories are exactly those of the rules that replaced something, one is
      positive exactly when the other is non-empty, and without replacements the
      text is untouched. */
  lemma ReportIsHonest(rules: seq<Rule>, text: string)
    requires RulesOk(rules)
    ensures
      var res := RunRules(rules, text);
      && res.count == TotalHits(rules, text)
      && (res.count > 0 <==> res.categories != {})
      && (res.count == 0 ==> res.content == text)
      && (forall c :: c in res.categories <==>
            exists k :: 0 <= k < |rules| && rules[k].category == c && HitsAt(rules, text, k) > 0)
  {
    CountIsTotal(rules, text);
    var res := RunRules(rules, text);
    forall c | c in res.categories
      ensures exists k :: 0 <= k < |rules| && rules[k].category == c && HitsAt(rules, text, k) > 0
    {
      var k := ListedAreHits(rules, text, c);
    }
    forall k | 0 <= k < |rules| && HitsAt(rules, text, k) > 0
      ensures rules[k].category in res.categories
    {
      HitsAreListed(rules, text, k);
    }
  }

  lemma RunRulesSnoc(rules: seq<Rule>, k: nat, text: string)
    requires RulesOk(rules) && k < |rules|
    ensures
      var before := RunRules(rules[..k], text);
      && RuleOk(rules[k])
      && MatchesOk(before.content, rules[k].find(before.content))
      && RunRules(rules[..k + 1], text)
         == Result(ApplyRule(rules[k], before.content), before.count + Hits(rules[k], before.content),
                   if Hits(rules[k], before.content) > 0 then before.categories + {rules[k].category} else before.categories)
  {
    assert rules[..k + 1][..k] == rules[..k];
  }

  /** The splicing loop with the matches from the i-th on done. */
  predicate Spliced(r: Rule, text: string, ms: seq<Match>, i: nat, result: string, replaced: nat)
    requires MatchesOk(text, ms)
  {
    i <= |ms| && result == Rewrite(r, text, ms, i, 0) && replaced == Accepted(r, text, ms, i)
  }

  lemma RestIsOriginal(r: Rule, text: string, ms: seq<Match>, i: nat, result: string)
    requires MatchesOk(text, ms) && i < |ms| && result == Rewrite(r, text, ms, i + 1, 0)
    ensures ms[i].end <= |result| && result[..ms[i].end] == text[..ms[i].end]
    ensures result[ms[i].end..] == Rewrite(r, text, ms, i + 1, ms[i].end)
  {
    NextMatch(text, ms, i);
    RewriteSplit(r, text, ms, i + 1, 0, ms[i].end);
  }

  /** One turn of the splicing loop: the substring it reads is still the original
      match, and what it builds is the rewriting with one more match done. */
  lemma SpliceStep(r: Rule, text: string, ms: seq<Match>, i: nat, result: string, replaced: nat)
    requires MatchesOk(text, ms) && i < |ms| && Spliced(r, text, ms, i + 1, result, replaced)
    ensures ms[i].start <= ms[i].end <= |result|
    ensures
      var found := text[ms[i].start..ms[i].end];
      && result[ms[i].start..ms[i].end] == found
      && (Accepts(r, found) ==>
            Spliced(r, text, ms, i, result[..ms[i].start] + r.replacement + result[ms[i].end..], replaced + 1))
      && (!Accepts(r, found) ==> Spliced(r, text, ms, i, result, replaced))
  {
    var start, end := ms[i].start, ms[i].end;
    RestIsOriginal(r, text, ms, i, result);
    Prefixes(result, text, start, end);
    Stitch(result, 0, start, end);
  }

  lemma Prefixes(a: string, b: string, start: nat, end: nat)
    requires start <= end <= |a| && end <= |b| && a[..end] == b[..end]
    ensures a[..start] == b[..start] && a[0..start] == b[0..start] && a[start..end] == b[start..end] && a[0..] == a
  {
    assert a[..end][..start] == a[..start] && b[..end][..start] == b[..start];
    assert a[..end][start..] == a[start..end] && b[..end][start..] == b[start..end];
  }

  class Engine {
    const enabled: bool
    const rules: seq<Rule>

    constructor (enabled: bool, rules: seq<Rule>)
      ensures this.enabled == enabled && this.rules == rules
    {
      this.enabled, this.rules := enabled, rules;
    }

    /** The inner loop: splice the matches from right to left, at the offsets they
        had in the text before the first splice. */
    method SpliceAll(rl: Rule, locs: seq<Match>, text: string) returns (result: string, replaced: nat)
      requires MatchesOk(text, locs)
      ensures result == Rewrite(rl, text, locs, 0, 0)
      ensures replaced == Accepted(rl, text, locs, 0)
    {
      result, replaced := text, 0;
      var i := |locs|;
      assert text[0..] == text;
      while i > 0
        invariant 0 <= i && Spliced(rl, text, locs, i, result, replaced)
      {
        i := i - 1;
        SpliceStep(rl, text, locs, i, result, replaced);
        var start, end := locs[i].start, locs[i].end;
        var found := result[start..end];
        if rl.validate.Some? && !rl.validate.value(found) {
          continue;
        }
        result := result[..start] + rl.replacement + result[end..];
        replaced := replaced + 1;
      }
    }

    /** The outer loop, over the rules. */
    method Redact(content: string) returns (res: Result)
      requires RulesOk(rules)
      ensures res == Redacted(enabled, rules, content)
    {
      if !enabled || content == "" {
        return Result(content, 0, {});
      }
      var result, count, seen := content, 0, {};
      for k := 0 to |rules|
        invariant Result(result, count, seen) == RunRules(rules[..k], content)
      {
        var rl := rules[k];
        RunRulesSnoc(rules, k, content);
        var locs := rl.find(result);
        if |locs| == 0 {
          continue;
        }
        var replaced;
        result, replaced := SpliceAll(rl, locs, result);
        if replaced > 0 {
          count := count + replaced;
          seen := seen + {rl.category};
        }
      }
      assert rules[..|rules|] == rules;
      return Result(result, count, seen);
    }
  }
}
