/** The check on card numbers: the loop, the Luhn formula of Annex B of
    ISO/IEC 7812-1, and what the formula catches. */
module Luhn {
  predicate IsDigit(c: char) {
    '0' <= c <= '9'
  }

  function Value(c: char): nat
    requires IsDigit(c)
  {
    c as int - '0' as int
  }

  predicate AreDigits(ds: seq<nat>) {
    forall i | 0 <= i < |ds| :: ds[i] <= 9
  }

  /** The digits of a string, separators dropped. */
  function DigitsOf(s: string): (ds: seq<nat>)
    ensures AreDigits(ds)
    decreases |s|
  {
    if s == [] then []
    else DigitsOf(s[..|s| - 1]) + if IsDigit(s[|s| - 1]) then [Value(s[|s| - 1])] else []
  }

  /** What one digit adds to the sum: itself, or the digits of its double added up. */
  function Contribution(d: nat, doubled: bool): nat {
    if doubled then (2 * d) / 10 + (2 * d) % 10 else d
  }

  /** Every second digit is doubled, counted from the right; `doubled` says whether
      the last one is. */
  function Sum(ds: seq<nat>, doubled: bool): nat {
    if ds == [] then 0
    else Sum(ds[..|ds| - 1], !doubled) + Contribution(ds[|ds| - 1], doubled)
  }

  /** The formula read from the left: a digit counts double, its double's digits added
      up, when its distance from the last digit is odd. */
  function Weighted(ds: seq<nat>): nat
    decreases |ds|
  {
    if ds == [] then 0
    else
      (if |ds| % 2 == 1 then ds[0] else if ds[0] < 5 then 2 * ds[0] else 2 * ds[0] - 9) + Weighted(ds[1..])
  }

  predicate FormulaHolds(ds: seq<nat>) {
    Sum(ds, false) % 10 == 0
  }

  predicate LuhnValid(s: string) {
    13 <= |DigitsOf(s)| <= 19 && FormulaHolds(DigitsOf(s))
  }

  lemma DigitsStep(s: string, k: nat)
    requires k < |s|
    ensures DigitsOf(s[..k + 1]) == DigitsOf(s[..k]) + if IsDigit(s[k]) then [Value(s[k])] else []
  {
    assert s[..k + 1][..k] == s[..k];
  }

  lemma SumStep(ds: seq<nat>, i: nat, doubled: bool)
    requires i < |ds|
    ensures Sum(ds[..i + 1], doubled) == Sum(ds[..i], !doubled) + Contribution(ds[i], doubled)
  {
    assert ds[..i + 1][..i] == ds[..i];
  }

  /** Subtracting nine adds up the digits of a double. */
  lemma NineOff(d: nat)
    requires d <= 9
    ensures Contribution(d, true) == if 2 * d > 9 then 2 * d - 9 else 2 * d
  {
  }

  /** luhnValid, loop by loop. */
  method CheckLuhn(s: string) returns (ok: bool)
    ensures ok <==> LuhnValid(s)
  {
    var digits: seq<nat> := [];
    for k := 0 to |s|
      invariant digits == DigitsOf(s[..k])
    {
      DigitsStep(s, k);
      if '0' <= s[k] <= '9' {
        digits := digits + [s[k] as int - '0' as int];
      }
    }
    assert s[..|s|] == s;
    if |digits| < 13 || |digits| > 19 {
      return false;
    }
    var sum, alt, i := 0, false, |digits|;
    assert digits[..|digits|] == digits;
    while i > 0
      invariant 0 <= i <= |digits|
      invariant sum + Sum(digits[..i], alt) == Sum(digits, false)
    {
      i := i - 1;
      SumStep(digits, i, alt);
      NineOff(digits[i]);
      var n := digits[i];
      if alt {
        n := n * 2;
        if n > 9 {
          n := n - 9;
        }
      }
      sum := sum + n;
      alt := !alt;
    }
    return sum % 10 == 0;
  }

  lemma {:induction false} SumFromLeft(ds: seq<nat>, doubled: bool)
    requires ds != []
    ensures Sum(ds, doubled) == Contribution(ds[0], DoubledAt(|ds|, 0, doubled)) + Sum(ds[1..], doubled)
    decreases |ds|
  {
    var n := |ds| - 1;
    if n > 0 {
      SumFromLeft(ds[..n], !doubled);
      assert ds[..n][1..] == ds[1..][..n - 1] && ds[1..][n - 1] == ds[n];
      DoubledInPrefix(n, 0, doubled);
    }
  }

  /** The loop's sum is the formula's, digit by digit from the left. */
  lemma {:induction false} SumIsWeighted(ds: seq<nat>)
    requires AreDigits(ds)
    ensures Sum(ds, false) == Weighted(ds)
    decreases |ds|
  {
    if ds != [] {
      SumFromLeft(ds, false);
      SumIsWeighted(ds[1..]);
      NineOff(ds[0]);
    }
  }

  /** Separators do not matter. */
  lemma {:induction false} SeparatorsIgnored(a: string, sep: string, b: string)
    requires forall i | 0 <= i < |sep| :: !IsDigit(sep[i])
    ensures LuhnValid(a + sep + b) <==> LuhnValid(a + b)
  {
    DigitsConcat(a, sep);
    DigitsConcat(a + sep, b);
    DigitsConcat(a, b);
    NoDigits(sep);
    assert DigitsOf(a) + [] == DigitsOf(a);
  }

  lemma {:induction false} DigitsConcat(a: string, b: string)
    ensures DigitsOf(a + b) == DigitsOf(a) + DigitsOf(b)
    decreases |b|
  {
    if b == [] {
      assert a + b == a;
    } else {
      assert (a + b)[..|a + b| - 1] == a + b[..|b| - 1];
      DigitsConcat(a, b[..|b| - 1]);
    }
  }

  lemma {:induction false} NoDigits(s: string)
    requires forall i | 0 <= i < |s| :: !IsDigit(s[i])
    ensures DigitsOf(s) == []
    decreases |s|
  {
    if s != [] { NoDigits(s[..|s| - 1]); }
  }

  /** Whether the digit at position i is doubled. */
  predicate DoubledAt(n: nat, i: nat, doubled: bool)
    requires i < n
  {
    doubled == ((n - 1 - i) % 2 == 0)
  }

  lemma DoubledInPrefix(n: nat, i: nat, doubled: bool)
    requires i < n
    ensures DoubledAt(n, i, !doubled) == DoubledAt(n + 1, i, doubled)
  {
  }

  lemma SumSnoc(ds: seq<nat>, d: nat, doubled: bool)
    ensures Sum(ds + [d], doubled) == Sum(ds, !doubled) + Contribution(d, doubled)
  {
    assert (ds + [d])[..|ds|] == ds;
  }

  /** Changing one digit changes the sum by the difference of its contributions. */
  lemma {:induction false} SumUpdate(ds: seq<nat>, doubled: bool, i: nat, d: nat)
    requires i < |ds|
    ensures Sum(ds[i := d], doubled) - Contribution(d, DoubledAt(|ds|, i, doubled))
         == Sum(ds, doubled) - Contribution(ds[i], DoubledAt(|ds|, i, doubled))
    decreases |ds|
  {
    var n := |ds| - 1;
    var before, last := ds[..n], ds[n];
    assert ds == before + [last];
    SumSnoc(before, last, doubled);
    if i == n {
      assert ds[i := d] == before + [d];
      SumSnoc(before, d, doubled);
    } else {
      assert ds[i := d] == before[i := d] + [last];
      SumSnoc(before[i := d], last, doubled);
      SumUpdate(before, !doubled, i, d);
      DoubledInPrefix(n, i, doubled);
    }
  }

  lemma ContributionsDiffer(d: nat, e: nat, doubled: bool)
    requires d <= 9 && e <= 9 && d != e
    ensures Contribution(d, doubled) <= 9 && Contribution(e, doubled) <= 9
    ensures Contribution(d, doubled) != Contribution(e, doubled)
  {
  }

  function Substituted(ds: seq<nat>, i: nat, d: nat): seq<nat>
    requires i < |ds|
  {
    ds[i := d]
  }

  function Swapped(ds: seq<nat>, i: nat): seq<nat>
    requires i + 1 < |ds|
  {
    ds[i := ds[i + 1]][i + 1 := ds[i]]
  }

  lemma DifferenceShows(x: nat, y: nat, a: nat, b: nat)
    requires x - a == y - b && a <= 9 && b <= 9 && a != b && y % 10 == 0
    ensures x % 10 != 0
  {
  }

  /** Every substitution of a single digit is detected. */
  lemma SubstitutionDetected(ds: seq<nat>, i: nat, d: nat)
    requires AreDigits(ds) && i < |ds| && d <= 9 && d != ds[i] && FormulaHolds(ds)
    ensures !FormulaHolds(Substituted(ds, i, d))
  {
    var p := DoubledAt(|ds|, i, false);
    SumUpdate(ds, false, i, d);
    ContributionsDiffer(d, ds[i], p);
    DifferenceShows(Sum(Substituted(ds, i, d), false), Sum(ds, false), Contribution(d, p), Contribution(ds[i], p));
  }

  lemma NeighboursAlternate(n: nat, i: nat)
    requires i + 1 < n
    ensures DoubledAt(n, i + 1, false) == !DoubledAt(n, i, false)
  {
  }

  lemma SumSwapped(ds: seq<nat>, i: nat)
    requires i + 1 < |ds|
    ensures
      var p := DoubledAt(|ds|, i, false);
      Sum(Swapped(ds, i), false) - Sum(ds, false)
        == (Contribution(ds[i + 1], p) - Contribution(ds[i], p)) + (Contribution(ds[i], !p) - Contribution(ds[i + 1], !p))
  {
    var mid := Substituted(ds, i, ds[i + 1]);
    NeighboursAlternate(|ds|, i);
    SumUpdate(ds, false, i, ds[i + 1]);
    SumUpdate(mid, false, i + 1, ds[i]);
    assert mid[i + 1] == ds[i + 1] && Swapped(ds, i) == mid[i + 1 := ds[i]];
  }

  predicate ZeroNine(d: nat, e: nat) {
    (d == 0 && e == 9) || (d == 9 && e == 0)
  }

  /** Exactly the transpositions of 0 and 9 (and of equal digits) escape. */
  lemma TranspositionDetected(ds: seq<nat>, i: nat)
    requires AreDigits(ds) && i + 1 < |ds| && FormulaHolds(ds)
    ensures FormulaHolds(Swapped(ds, i)) <==> ds[i] == ds[i + 1] || ZeroNine(ds[i], ds[i + 1])
  {
    SumSwapped(ds, i);
    SwapDifference(ds[i], ds[i + 1], DoubledAt(|ds|, i, false));
    SameResidue(Sum(Swapped(ds, i), false), Sum(ds, false));
  }

  lemma SameResidue(x: nat, y: nat)
    requires y % 10 == 0
    ensures x % 10 == 0 <==> (x - y) % 10 == 0
  {
  }

  lemma SwapDifference(d: nat, e: nat, p: bool)
    requires d <= 9 && e <= 9
    ensures ((Contribution(e, p) - Contribution(d, p)) + (Contribution(d, !p) - Contribution(e, !p))) % 10 == 0
       <==> d == e || ZeroNine(d, e)
  {
    DoubleMinusSelf(d);
    DoubleMinusSelf(e);
  }

  lemma DoubleMinusSelf(d: nat)
    requires d <= 9
    ensures Contribution(d, true) - d == if d <= 4 then d else d - 9
  {
  }

  function CheckDigit(payload: seq<nat>): (d: nat)
    ensures d <= 9
  {
    (10 - Sum(payload, true) % 10) % 10
  }

  lemma Complement(x: nat, e: nat)
    requires e <= 9
    ensures (x + e) % 10 == 0 <==> e == (10 - x % 10) % 10
  {
    var q, r := x / 10, x % 10;
    assert x + e == 10 * q + (r + e);
  }

  /** Every payload has exactly one completing check digit. */
  lemma CheckDigitExists(payload: seq<nat>, e: nat)
    requires e <= 9
    ensures FormulaHolds(payload + [e]) <==> e == CheckDigit(payload)
  {
    SumSnoc(payload, e, false);
    Complement(Sum(payload, true), e);
  }

  function Char(d: nat): char
    requires d <= 9
  {
    '0' + d as char
  }

  function Text(ds: seq<nat>): string
    requires AreDigits(ds)
  {
    seq(|ds|, i requires 0 <= i < |ds| => Char(ds[i]))
  }

  lemma {:induction false} DigitsOfText(ds: seq<nat>)
    requires AreDigits(ds)
    ensures DigitsOf(Text(ds)) == ds
    decreases |ds|
  {
    if ds != [] {
      var n := |ds| - 1;
      DigitsOfText(ds[..n]);
      assert Text(ds)[..n] == Text(ds[..n]);
      assert ds == ds[..n] + [ds[n]];
    }
  }

  /** The three guarantees, on the strings the validator sees. */
  lemma CardChecks(ds: seq<nat>)
    requires AreDigits(ds)
    ensures 13 <= |ds| <= 19 && LuhnValid(Text(ds)) ==>
      && (forall i, d | 0 <= i < |ds| && 0 <= d <= 9 && d != ds[i] :: !LuhnValid(Text(Substituted(ds, i, d))))
      && (forall i | 0 <= i < |ds| - 1 ::
            LuhnValid(Text(Swapped(ds, i))) <==> ds[i] == ds[i + 1] || ZeroNine(ds[i], ds[i + 1]))
    ensures 12 <= |ds| <= 18 ==>
      exists d :: 0 <= d <= 9 && LuhnValid(Text(ds + [d])) && forall e | 0 <= e <= 9 && LuhnValid(Text(ds + [e])) :: e == d
  {
    DigitsOfText(ds);
    if 13 <= |ds| <= 19 && LuhnValid(Text(ds)) {
      forall i, d | 0 <= i < |ds| && 0 <= d <= 9 && d != ds[i] ensures !LuhnValid(Text(Substituted(ds, i, d))) {
        SubstitutionDetected(ds, i, d);
        DigitsOfText(Substituted(ds, i, d));
      }
      forall i | 0 <= i < |ds| - 1
        ensures LuhnValid(Text(Swapped(ds, i))) <==> ds[i] == ds[i + 1] || ZeroNine(ds[i], ds[i + 1])
      {
        TranspositionDetected(ds, i);
        DigitsOfText(Swapped(ds, i));
      }
    }
    if 12 <= |ds| <= 18 {
      UniqueCheckDigit(ds);
    }
  }

  lemma CheckedPayload(ds: seq<nat>, d: nat)
    requires AreDigits(ds) && 12 <= |ds| <= 18 && d <= 9
    ensures AreDigits(ds + [d]) && (LuhnValid(Text(ds + [d])) <==> FormulaHolds(ds + [d]))
  {
    DigitsOfText(ds + [d]);
  }

  lemma UniqueCheckDigit(ds: seq<nat>)
    requires AreDigits(ds) && 12 <= |ds| <= 18
    ensures exists d :: 0 <= d <= 9 && LuhnValid(Text(ds + [d])) && forall e | 0 <= e <= 9 && LuhnValid(Text(ds + [e])) :: e == d
  {
    var d := CheckDigit(ds);
    forall e | 0 <= e <= 9 ensures LuhnValid(Text(ds + [e])) <==> e == d {
      CheckedPayload(ds, e);
      CheckDigitExists(ds, e);
    }
    assert LuhnValid(Text(ds + [d]));
  }
}
