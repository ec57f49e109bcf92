/** White space in UTF-8, and trimming it off.  A character stands for a byte. */
module WhiteSpace {
  import opened Sequences

  /** The UTF-8 encoding of one white space character. */
  predicate IsSpace(w: string) {
    || (|w| == 1 && w[0] in "\t\n\U{0B}\U{0C}\r ")
    || (|w| == 2 && w[0] == '\U{C2}' && w[1] in "\U{85}\U{A0}")
    || (|w| == 3 && w[0] == '\U{E1}' && w[1] == '\U{9A}' && w[2] == '\U{80}')
    || (|w| == 3 && w[0] == '\U{E2}' && w[1] == '\U{80}' && ('\U{80}' <= w[2] <= '\U{8A}' || w[2] in "\U{A8}\U{A9}\U{AF}"))
    || (|w| == 3 && w[0] == '\U{E2}' && w[1] == '\U{81}' && w[2] == '\U{9F}')
    || (|w| == 3 && w[0] == '\U{E3}' && w[1] == '\U{80}' && w[2] == '\U{80}')
  }

  predicate SpaceFirst(s: string, n: nat) {
    n <= |s| && IsSpace(s[..n])
  }

  predicate SpaceLast(s: string, n: nat) {
    n <= |s| && IsSpace(s[|s| - n..])
  }

  function TrimLeft(s: string): string
    decreases |s|
  {
    if SpaceFirst(s, 1) then TrimLeft(s[1..])
    else if SpaceFirst(s, 2) then TrimLeft(s[2..])
    else if SpaceFirst(s, 3) then TrimLeft(s[3..])
    else s
  }

  function TrimRight(s: string): string
    decreases |s|
  {
    if SpaceLast(s, 1) then TrimRight(s[..|s| - 1])
    else if SpaceLast(s, 2) then TrimRight(s[..|s| - 2])
    else if SpaceLast(s, 3) then TrimRight(s[..|s| - 3])
    else s
  }

  /** strings.TrimSpace. */
  function TrimSpace(s: string): string {
    TrimRight(TrimLeft(s))
  }

  /** White space characters and nothing else. */
  ghost predicate AllSpace(s: string)
    decreases |s|
  {
    s == "" || exists n: nat :: 0 < n && SpaceFirst(s, n) && AllSpace(s[n..])
  }

  lemma SlicesOfConcat(a: string, b: string, n: nat)
    requires n <= |a|
    ensures (a + b)[..n] == a[..n] && (a + b)[n..] == a[n..] + b
  {
  }

  lemma {:induction false} SpaceJoin(a: string, b: string)
    requires AllSpace(a) && AllSpace(b)
    ensures AllSpace(a + b)
    decreases |a|
  {
    if a == "" {
      assert a + b == b;
    } else {
      var n: nat :| 0 < n && SpaceFirst(a, n) && AllSpace(a[n..]);
      SlicesOfConcat(a, b, n);
      SpaceJoin(a[n..], b);
      assert SpaceFirst(a + b, n);
    }
  }

  lemma OneSpace(w: string)
    requires IsSpace(w)
    ensures AllSpace(w)
  {
    assert w[..|w|] == w && w[|w|..] == "";
    assert SpaceFirst(w, |w|);
  }

  /** Which white space stands first or last, if any. */
  function FirstSpace(s: string): (n: nat)
    ensures n <= |s| && (n > 0 ==> SpaceFirst(s, n))
    ensures n == 0 <==> TrimLeft(s) == s && forall k: nat :: !SpaceFirst(s, k)
    ensures n > 0 ==> TrimLeft(s) == TrimLeft(s[n..])
  {
    if SpaceFirst(s, 1) then 1 else if SpaceFirst(s, 2) then 2 else if SpaceFirst(s, 3) then 3 else 0
  }

  function LastSpace(s: string): (n: nat)
    ensures n <= |s| && (n > 0 ==> SpaceLast(s, n))
    ensures n == 0 <==> TrimRight(s) == s && forall k: nat :: !SpaceLast(s, k)
    ensures n > 0 ==> TrimRight(s) == TrimRight(s[..|s| - n])
  {
    if SpaceLast(s, 1) then 1 else if SpaceLast(s, 2) then 2 else if SpaceLast(s, 3) then 3 else 0
  }

  lemma SplitAt(s: string, k: nat)
    requires k <= |s|
    ensures s == s[..k] + s[k..]
  {
  }

  lemma {:induction false} TrimLeftCuts(s: string) returns (l: string)
    ensures s == l + TrimLeft(s) && AllSpace(l)
    ensures forall k: nat :: !SpaceFirst(TrimLeft(s), k)
    decreases |s|
  {
    var n := FirstSpace(s);
    l := "";
    if n > 0 {
      var first, after := s[..n], s[n..];
      SplitAt(s, n);
      var rest := TrimLeftCuts(after);
      OneSpace(first);
      SpaceJoin(first, rest);
      Regroup(first, rest, TrimLeft(after));
      l := first + rest;
    }
  }

  lemma {:induction false} TrimRightCuts(s: string) returns (r: string)
    ensures s == TrimRight(s) + r && AllSpace(r)
    ensures forall k: nat :: !SpaceLast(TrimRight(s), k)
    decreases |s|
  {
    var n := LastSpace(s);
    r := "";
    if n > 0 {
      var before, last := s[..|s| - n], s[|s| - n..];
      SplitAt(s, |s| - n);
      var rest := TrimRightCuts(before);
      OneSpace(last);
      SpaceJoin(rest, last);
      Regroup(TrimRight(before), rest, last);
      r := rest + last;
    }
  }

  lemma PrefixSpace(t: string, r: string, k: nat)
    requires SpaceFirst(t, k)
    ensures SpaceFirst(t + r, k)
  {
    assert (t + r)[..k] == t[..k];
  }

  lemma TrimmedEnds(s: string, k: nat)
    ensures !SpaceFirst(TrimSpace(s), k) && !SpaceLast(TrimSpace(s), k)
  {
    var l := TrimLeftCuts(s);
    var r := TrimRightCuts(TrimLeft(s));
    if SpaceFirst(TrimSpace(s), k) { PrefixSpace(TrimSpace(s), r, k); }
  }

  lemma TrimmedParts(s: string) returns (l: string, r: string)
    ensures s == l + TrimSpace(s) + r && AllSpace(l) && AllSpace(r)
  {
    l := TrimLeftCuts(s);
    r := TrimRightCuts(TrimLeft(s));
    Regroup(l, TrimSpace(s), r);
  }

  /** Trimming takes white space off both ends and nothing else. */
  lemma TrimmedExactly(s: string)
    ensures exists l: string, r: string :: s == l + TrimSpace(s) + r && AllSpace(l) && AllSpace(r)
    ensures forall k: nat :: !SpaceFirst(TrimSpace(s), k) && !SpaceLast(TrimSpace(s), k)
  {
    var l, r := TrimmedParts(s);
    forall k: nat ensures !SpaceFirst(TrimSpace(s), k) && !SpaceLast(TrimSpace(s), k) {
      TrimmedEnds(s, k);
    }
  }

  lemma TrimmedAwayIsSpace(s: string)
    requires TrimSpace(s) == ""
    ensures AllSpace(s)
  {
    var l := TrimLeftCuts(s);
    var r := TrimRightCuts(TrimLeft(s));
    assert TrimLeft(s) == r;
    SpaceJoin(l, r);
  }

  /** Nothing is left after trimming exactly when there was only white space. */
  lemma BlankExactly(s: string)
    ensures TrimSpace(s) == "" <==> AllSpace(s)
  {
    if TrimSpace(s) == "" {
      TrimmedAwayIsSpace(s);
    }
    if AllSpace(s) {
      AllSpaceTrims(s);
    }
  }

  lemma {:induction false} AllSpaceTrims(s: string)
    requires AllSpace(s)
    ensures TrimSpace(s) == ""
    decreases |s|
  {
    if s != "" {
      var n: nat :| 0 < n && SpaceFirst(s, n) && AllSpace(s[n..]);
      OneWayToStart(s, n);
      AllSpaceTrims(s[n..]);
    }
  }

  /** No white space encoding is the beginning of another. */
  lemma OneWayToStart(s: string, n: nat)
    requires SpaceFirst(s, n)
    ensures n == FirstSpace(s) && TrimLeft(s) == TrimLeft(s[n..])
  {
    var k := FirstSpace(s);
    assert s[..n][0] == s[..k][0] == s[0];
  }
}
