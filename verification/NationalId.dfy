/** The national-ID pattern \b\d{3}-\d{2}-\d{4}\b, concretely: where it matches,
    what FindAllStringIndex returns for it, and that one pass leaves none behind. */
module NationalId {
  import opened Wrappers
  import opened Redaction
  import opened Luhn

  const REPLACEMENT := "[NATIONAL_ID]"

  /** RE2's \w, which is ASCII only. */
  predicate IsWord(c: char) {
    IsDigit(c) || 'a' <= c <= 'z' || 'A' <= c <= 'Z' || c == '_'
  }

  predicate WordAt(s: string, i: int) {
    0 <= i < |s| && IsWord(s[i])
  }

  /** \b: exactly one side is a word character. */
  predicate Boundary(s: string, i: nat) {
    WordAt(s, i - 1) != WordAt(s, i)
  }

  predicate DigitAt(s: string, i: nat) {
    i < |s| && IsDigit(s[i])
  }

  predicate DashAt(s: string, i: nat) {
    i < |s| && s[i] == '-'
  }

  predicate Shape(s: string, i: nat) {
    && DigitAt(s, i) && DigitAt(s, i + 1) && DigitAt(s, i + 2) && DashAt(s, i + 3)
    && DigitAt(s, i + 4) && DigitAt(s, i + 5) && DashAt(s, i + 6)
    && DigitAt(s, i + 7) && DigitAt(s, i + 8) && DigitAt(s, i + 9) && DigitAt(s, i + 10)
  }

  predicate IdAt(s: string, i: nat) {
    Shape(s, i) && Boundary(s, i) && Boundary(s, i + 11)
  }

  /** Leftmost match at or after `from`. */
  function First(s: string, from: nat): (r: Option<nat>)
    ensures r.Some? ==> from <= r.value && IdAt(s, r.value) && forall i | from <= i < r.value :: !IdAt(s, i)
    ensures r.None? ==> forall i | from <= i :: !IdAt(s, i)
    decreases |s| - from
  {
    if from >= |s| then None
    else if IdAt(s, from) then Some(from)
    else First(s, from + 1)
  }

  lemma OneMoreMatch(s: string, i: nat, rest: seq<Match>)
    requires i + 11 <= |s| && MatchesOk(s, rest) && forall k | 0 <= k < |rest| :: i + 11 <= rest[k].start
    ensures MatchesOk(s, [Match(i, i + 11)] + rest)
  {
  }

  /** All matches, each search starting where the last match ended. */
  function FindFrom(s: string, from: nat): (ms: seq<Match>)
    ensures MatchesOk(s, ms) && forall i | 0 <= i < |ms| :: from <= ms[i].start
    ensures forall i | 0 <= i < |ms| :: ms[i].end == ms[i].start + 11 && IdAt(s, ms[i].start)
    decreases |s| - from
  {
    match First(s, from)
    case None => []
    case Some(i) =>
      var rest := FindFrom(s, i + 11);
      OneMoreMatch(s, i, rest);
      [Match(i, i + 11)] + rest
  }

  const RULE := Rule("national_id", (s: string) => FindFrom(s, 0), REPLACEMENT, None)

  /** The text from `from` on after the pass, written out match by match. */
  function Cleaned(s: string, from: nat): string
    requires from <= |s|
    decreases |s| - from
  {
    match First(s, from)
    case None => s[from..]
    case Some(i) => s[from..i] + REPLACEMENT + Cleaned(s, i + 11)
  }

  lemma FindFromStep(s: string, from: nat)
    requires First(s, from).Some?
    ensures
      var k := First(s, from).value;
      k + 11 <= |s| && FindFrom(s, from) == [Match(k, k + 11)] + FindFrom(s, k + 11)
  {
  }

  lemma SuffixStep(ms: seq<Match>, i: nat, first: Match, rest: seq<Match>)
    requires i <= |ms| && ms[i..] == [first] + rest
    ensures i < |ms| && ms[i] == first && ms[i + 1..] == rest
  {
    assert ms[i..][0] == first && ms[i..][1..] == rest;
  }

  lemma {:induction false} PassIsCleaned(s: string, from: nat, ms: seq<Match>, i: nat)
    requires MatchesOk(s, ms) && i <= |ms| && from <= |s| && ms[i..] == FindFrom(s, from)
    requires i < |ms| ==> from <= ms[i].start
    ensures Rewrite(RULE, s, ms, i, from) == Cleaned(s, from)
    decreases |ms| - i
  {
    if First(s, from).Some? {
      var k := First(s, from).value;
      FindFromStep(s, from);
      SuffixStep(ms, i, Match(k, k + 11), FindFrom(s, k + 11));
      NextMatch(s, ms, i);
      PassIsCleaned(s, k + 11, ms, i + 1);
    } else {
      assert |ms[i..]| == 0;
    }
  }

  /** A search may start at `from` without cutting a match in half: the text begins
      there, ends there, or goes on with a non-word character. */
  predicate CleanStart(s: string, from: nat) {
    from <= |s| && (from == 0 || !WordAt(s, from))
  }

  /** The character after a match is not a word character. */
  lemma AfterMatch(s: string, i: nat)
    requires IdAt(s, i)
    ensures CleanStart(s, i + 11)
  {
    assert IsDigit(s[i + 10]);
  }

  /** A match in a stretch read on its own is a match of the whole text. */
  lemma GapMatchIsMatch(s: string, from: nat, to: nat, j: nat)
    requires CleanStart(s, from) && from <= to <= |s|
    requires to == |s| || IdAt(s, to)
    requires IdAt(s[from..to], j)
    ensures from + j < to && IdAt(s, from + j)
  {
    var gap, p := s[from..to], from + j;
    assert forall k | 0 <= k < |gap| :: gap[k] == s[from + k];
    assert Shape(s, p);
    assert Boundary(s, p) by { if j > 0 { assert gap[j - 1] == s[p - 1]; } }
    assert Boundary(s, p + 11) by { if p + 11 < to { assert gap[j + 11] == s[p + 11]; } }
  }

  /** Hence nothing matches inside a stretch between two matches. */
  lemma GapHasNoId(s: string, from: nat, to: nat, j: nat)
    requires CleanStart(s, from) && from <= to <= |s|
    requires to == |s| || IdAt(s, to)
    requires forall i | from <= i < to :: !IdAt(s, i)
    ensures !IdAt(s[from..to], j)
  {
    if IdAt(s[from..to], j) {
      GapMatchIsMatch(s, from, to, j);
    }
  }

  lemma ReplacementIsInert()
    ensures |REPLACEMENT| == 13
    ensures forall k | 0 <= k < 13 :: !IsDigit(REPLACEMENT[k]) && REPLACEMENT[k] != '-'
    ensures !IsWord(REPLACEMENT[0]) && !IsWord(REPLACEMENT[12])
  {
  }

  /** A match in gap + replacement + rest lies in the gap or in the rest. */
  lemma MatchAvoidsReplacement(gap: string, rest: string, j: nat)
    requires IdAt(gap + REPLACEMENT + rest, j)
    ensures IdAt(gap, j) || (j >= |gap| + 13 && IdAt(rest, j - |gap| - 13))
  {
    ReplacementIsInert();
    var t := gap + REPLACEMENT + rest;
    assert forall k | 0 <= k < |gap| :: t[k] == gap[k];
    assert forall k | 0 <= k < 13 :: t[|gap| + k] == REPLACEMENT[k];
    assert forall k | 0 <= k < |rest| :: t[|gap| + 13 + k] == rest[k];
    var q := if j < |gap| then |gap| else j;
    ShapeChars(t, j, q);
    assert |gap| <= q < |gap| + 13 ==> t[q] == REPLACEMENT[q - |gap|];
    if j + 11 <= |gap| {
      assert Shape(gap, j);
      assert Boundary(gap, j + 11);
    } else {
      assert Shape(rest, j - |gap| - 13);
      assert Boundary(rest, j - |gap| - 13) by {
        if j > |gap| + 13 { assert t[j - 1] == rest[j - |gap| - 14]; }
      }
    }
  }

  lemma ShapeChars(s: string, i: nat, q: nat)
    requires Shape(s, i)
    ensures i <= q < i + 11 ==> IsDigit(s[q]) || s[q] == '-'
  {
  }

  lemma JoinHasNoId(gap: string, rest: string, j: nat)
    requires !IdAt(gap, j) && (j >= |gap| + 13 ==> !IdAt(rest, j - |gap| - 13))
    ensures !IdAt(gap + REPLACEMENT + rest, j)
  {
    if IdAt(gap + REPLACEMENT + rest, j) {
      MatchAvoidsReplacement(gap, rest, j);
    }
  }

  lemma {:induction false} CleanedHasNoId(s: string, from: nat, j: nat)
    requires CleanStart(s, from)
    ensures !IdAt(Cleaned(s, from), j)
    decreases |s| - from
  {
    match First(s, from)
    case None =>
      GapHasNoId(s, from, |s|, j);
      assert s[from..|s|] == s[from..];
    case Some(i) =>
      var gap, rest := s[from..i], Cleaned(s, i + 11);
      GapHasNoId(s, from, i, j);
      AfterMatch(s, i);
      if j >= |gap| + 13 { CleanedHasNoId(s, i + 11, j - |gap| - 13); }
      JoinHasNoId(gap, rest, j);
  }

  lemma RuleIsOk()
    ensures RuleOk(RULE)
  {
  }

  /** After one pass of the national-ID rule no word-bounded ddd-dd-dddd is left,
      whatever the text. */
  lemma NothingIsLeft(s: string, j: nat)
    requires RuleOk(RULE)
    ensures !IdAt(ApplyRule(RULE, s), j)
  {
    PassIsCleaned(s, 0, FindFrom(s, 0), 0);
    CleanedHasNoId(s, 0, j);
  }

  /** Hence a second pass finds nothing. */
  lemma PassIsIdempotent(s: string)
    requires RuleOk(RULE)
    ensures ApplyRule(RULE, ApplyRule(RULE, s)) == ApplyRule(RULE, s) && Hits(RULE, ApplyRule(RULE, s)) == 0
  {
    var t := ApplyRule(RULE, s);
    forall j ensures !IdAt(t, j) { NothingIsLeft(s, j); }
    assert First(t, 0).None?;
  }
}
