/** Relaying an OpenAI stream: every scanned line goes out again with an LF, and the
    text deltas are counted on the way. */
module StreamRelay {
  import opened Sequences
  import opened Wrappers
  import opened EventStream

  function RelayLines(lines: seq<string>): string
    decreases |lines|
  {
    if lines == [] then "" else RelayLines(lines[..|lines| - 1]) + lines[|lines| - 1] + "\n"
  }

  /** What the client is sent when every write succeeds. */
  function Relay(b: string): string {
    RelayLines(ScanLines(b))
  }

  lemma {:induction false} RelayLinesConcat(a: seq<string>, b: seq<string>)
    ensures RelayLines(a + b) == RelayLines(a) + RelayLines(b)
    decreases |b|
  {
    if b == [] {
      assert a + b == a;
    } else {
      assert (a + b)[..|a + b| - 1] == a + b[..|b| - 1];
      RelayLinesConcat(a, b[..|b| - 1]);
    }
  }

  lemma RelayLinesCons(line: string, rest: seq<string>)
    ensures RelayLines([line] + rest) == line + "\n" + RelayLines(rest)
  {
    assert [line][..0] == [];
    assert RelayLines([line]) == line + "\n";
    RelayLinesConcat([line], rest);
  }

  // ---------- Meaning ----------

  /** Two CRs that the scanner would treat as a CR and half a CRLF: right before an
      LF, or at the very end. */
  predicate CrPair(b: string, k: nat) {
    k + 2 <= |b| && b[k] == CR && b[k + 1] == CR && (k + 2 == |b| || b[k + 2] == LF)
  }

  ghost predicate NoCrPair(b: string) {
    forall k: nat :: !CrPair(b, k)
  }

  /** The consumer's lines with the pending data, if any, made a last line. */
  function Completed(l: Lines): Lines {
    if l.pending == "" then l else Terminated(l)
  }

  /** The first scanned line: its bytes, what the scanner makes of them, the rest. */
  lemma FirstLine(b: string) returns (raw: string, rest: string)
    requires b != "" && IndexOf(b, LF) < |b|
    ensures b == raw + [LF] + rest && LF !in raw && |rest| < |b|
    ensures IndexOf(b, LF) < MAX_LINE ==> (FitsScanner(b) <==> FitsScanner(rest)) && Relay(b) == DropCR(raw) + [LF] + Relay(rest)
    ensures NoCrPair(b) <==> NoCrPair(rest) && Raw(DropCR(raw))
  {
    var i := IndexOf(b, LF);
    raw, rest := b[..i], b[i + 1..];
    assert b == raw + [LF] + rest;
    RelayLinesCons(DropCR(raw), ScanLines(rest));
    PairsSplit(raw, rest);
  }

  lemma PairsSplit(raw: string, rest: string)
    requires LF !in raw
    ensures NoCrPair(raw + [LF] + rest) <==> NoCrPair(rest) && Raw(DropCR(raw))
  {
    var b := raw + [LF] + rest;
    var n := |raw| + 1;
    assert forall k | 0 <= k < |raw| :: b[k] == raw[k] && raw[k] in raw;
    assert forall k | 0 <= k < |rest| :: b[n + k] == rest[k];
    assert b[|raw|] == LF;
    assert forall c | c in DropCR(raw) :: c in raw;
    forall k: nat ensures CrPair(rest, k) <==> CrPair(b, n + k) {
    }
    if |raw| >= 2 {
      assert CrPair(b, |raw| - 2) <==> !Raw(DropCR(raw));
    }
    forall k: nat | CrPair(b, k) ensures !NoCrPair(rest) || !Raw(DropCR(raw)) {
      if k >= n {
        assert CrPair(rest, k - n) <==> CrPair(b, n + (k - n));
      } else {
        assert k + 2 == |raw|;
      }
    }
  }

  lemma DropCrCases(raw: string)
    ensures raw == DropCR(raw) || raw == DropCR(raw) + [CR]
  {
  }

  /** A terminated line reads the same before and after the relay. */
  lemma SameLine(raw: string)
    requires Raw(DropCR(raw))
    ensures StreamLines(raw + [LF]) == StreamLines(DropCR(raw) + [LF])
  {
    DropCrCases(raw);
    RawLine(DropCR(raw), [LF]);
    RawLine(DropCR(raw), [CR, LF]);
    assert DropCR(raw) + [CR] + [LF] == DropCR(raw) + [CR, LF];
  }

  lemma LastLine(b: string)
    requires b != "" && IndexOf(b, LF) == |b| && FitsScanner(b)
    ensures Relay(b) == DropCR(b) + [LF] && LF !in b
    ensures NoCrPair(b) <==> Raw(DropCR(b))
  {
    assert b[..|b|] == b;
    assert ScanLines(b) == [DropCR(b)] + [];
    RelayLinesCons(DropCR(b), []);
    PairAtEnd(b);
  }

  lemma PairAtEnd(b: string)
    requires LF !in b
    ensures NoCrPair(b) <==> Raw(DropCR(b))
  {
    assert forall c | c in DropCR(b) :: c in b;
    if |b| >= 2 {
      assert CrPair(b, |b| - 2) <==> !Raw(DropCR(b));
    }
    assert forall i | 0 <= i < |b| :: b[i] in b;
  }

  lemma JoinCompleted(x: Lines, y: Lines)
    requires x.pending == ""
    ensures Completed(Join(x, y)) == Join(x, Completed(y))
  {
    assert x.done + (y.done + [y.pending]) == x.done + y.done + [y.pending];
  }

  lemma {:induction false} RelayKeepsLines(b: string)
    requires FitsScanner(b) && NoCrPair(b)
    ensures StreamLines(Relay(b)) == Completed(StreamLines(b))
    decreases |b|
  {
    if b == "" {
    } else if IndexOf(b, LF) == |b| {
      LastLine(b);
      DropCrCases(b);
      RawLine(DropCR(b), [LF]);
      RawLine(DropCR(b), [CR]);
    } else {
      var raw, rest := FirstLine(b);
      RelayKeepsLines(rest);
      SameLine(raw);
      LinesAfterLf(raw + [LF], rest);
      LinesAfterLf(DropCR(raw) + [LF], Relay(rest));
      JoinCompleted(StreamLines(raw + [LF]), StreamLines(rest));
    }
  }

  // ---------- ... and exactly when ----------

  function LineCount(l: Lines): nat {
    |Completed(l).done|
  }

  /** In front of a line end, CR CR makes one line more than CR. */
  lemma {:induction false} ExtraLine(e: string)
    requires LF !in e
    ensures LineCount(StreamLines(e + [CR, CR, LF])) == LineCount(StreamLines(e + [CR, LF])) + 1
    ensures LineCount(StreamLines(e + [CR, CR])) == LineCount(StreamLines(e + [CR, LF])) + 1
    ensures StreamLines(e + [CR, LF]).pending == "" && StreamLines(e + [CR, LF]).done != []
    ensures StreamLines(e + [CR, CR, LF]).pending == "" && StreamLines(e + [CR, CR]).pending == ""
    ensures StreamLines(e + [CR, CR]).done != [] && StreamLines(e + [CR, CR, LF]).done != []
    decreases |e|
  {
    var x, y, z := [CR, CR, LF], [CR, LF], [CR, CR];
    if e == "" {
      assert e + x == x && e + y == y && e + z == z;
      assert x[1..] == y && y[2..] == "" && z[1..] == [CR] && [CR][1..] == "";
      assert StreamLines(y) == Lines([""], "") && StreamLines([CR]) == Lines([""], "");
    } else {
      assert e[0] in e;
      assert forall c | c in e[1..] :: c in e;
      assert (e + x)[1..] == e[1..] + x && (e + y)[1..] == e[1..] + y && (e + z)[1..] == e[1..] + z;
      ExtraLine(e[1..]);
      if e[0] == CR && |e| > 1 {
        assert e[1] in e;
      }
    }
  }

  lemma FewerLines(raw: string)
    requires LF !in raw && !Raw(DropCR(raw))
    ensures LineCount(StreamLines(DropCR(raw) + [LF])) < LineCount(StreamLines(raw + [LF]))
    ensures LineCount(StreamLines(DropCR(raw) + [LF])) < LineCount(StreamLines(raw))
  {
    assert forall c | c in DropCR(raw) :: c in raw;
    assert |raw| >= 2 && raw[|raw| - 1] == CR && raw[|raw| - 2] == CR;
    var e := raw[..|raw| - 2];
    ExtraLine(e);
    assert raw == e + [CR, CR];
    assert raw + [LF] == e + [CR, CR, LF];
    assert DropCR(raw) + [LF] == e + [CR, LF];
  }

  lemma JoinCount(x: Lines, y: Lines)
    requires x.pending == ""
    ensures LineCount(Join(x, y)) == LineCount(x) + LineCount(y)
  {
  }

  lemma SomeLine(b: string)
    requires b != ""
    ensures LineCount(StreamLines(b)) > 0
  {
  }

  /** The relay never makes lines, and loses some to every CR CR at a line end and to
      every line that is too long. */
  lemma {:induction false} RelayNeverAddsLines(b: string)
    ensures LineCount(StreamLines(Relay(b))) <= LineCount(StreamLines(b))
    ensures !FitsScanner(b) || !NoCrPair(b) ==> LineCount(StreamLines(Relay(b))) < LineCount(StreamLines(b))
    decreases |b|
  {
    if b == "" {
    } else if IndexOf(b, LF) >= MAX_LINE {
      SomeLine(b);
    } else if IndexOf(b, LF) == |b| {
      LastLine(b);
      if NoCrPair(b) { RelayKeepsLines(b); } else { FewerLines(b); }
    } else {
      var raw, rest := FirstLine(b);
      RelayNeverAddsLines(rest);
      if Raw(DropCR(raw)) { SameLine(raw); } else { FewerLines(raw); }
      LinesAfterLf(raw + [LF], rest);
      LinesAfterLf(DropCR(raw) + [LF], Relay(rest));
      JoinCount(StreamLines(raw + [LF]), StreamLines(rest));
      JoinCount(StreamLines(DropCR(raw) + [LF]), StreamLines(Relay(rest)));
    }
  }

  /** The relay hands the consumer the same lines exactly when every line fits the
      scanner and no CR CR stands where a line ends. */
  lemma RelayExact(b: string)
    ensures StreamLines(Relay(b)) == Completed(StreamLines(b)) <==> FitsScanner(b) && NoCrPair(b)
  {
    RelayNeverAddsLines(b);
    if FitsScanner(b) && NoCrPair(b) { RelayKeepsLines(b); }
  }

  /** The relay preserves meaning: the consumer dispatches the same events, and if
      the stream ends with a line end it is left in the same state altogether. */
  lemma RelayPreservesEvents(b: string)
    requires FitsScanner(b) && NoCrPair(b)
    ensures Events(Relay(b)) == Events(b)
    ensures StreamLines(b).pending == "" ==> Parse(Relay(b)) == Parse(b)
  {
    RelayKeepsLines(b);
    if StreamLines(b).pending != "" {
      PendingIsSilent(StreamLines(b).done, StreamLines(b).pending);
    }
  }

  lemma FeedAllSnoc(p: Parser, lines: seq<string>, last: string)
    ensures FeedAll(p, lines + [last]) == Feed(FeedAll(p, lines), last)
  {
    assert (lines + [last])[..|lines|] == lines;
  }

  lemma FirstLineIsSilent(line: string)
    ensures Feed(FRESH, line).events == []
  {
    if line != "" { NoDispatch(FRESH, line); }
  }

  /** One more line that is not empty dispatches nothing more. */
  lemma PendingIsSilent(done: seq<string>, pending: string)
    requires pending != ""
    ensures FeedAll(FRESH, StripBom(done + [pending])).events == FeedAll(FRESH, StripBom(done)).events
  {
    if done == [] {
      var line := StripBom([pending])[0];
      assert done + [pending] == [pending] && StripBom([pending]) == [] + [line];
      FeedAllSnoc(FRESH, [], line);
      FirstLineIsSilent(line);
    } else {
      assert StripBom(done + [pending]) == StripBom(done) + [pending];
      FeedAllSnoc(FRESH, StripBom(done), pending);
      NoDispatch(FeedAll(FRESH, StripBom(done)), pending);
    }
  }

  lemma CrPairRelayed()
    ensures Relay("data" + [CR, CR, LF]) == "data" + [CR, LF]
  {
    var raw := "data" + [CR, CR];
    assert LF !in raw;
    RelayFirst(raw, "");
    assert raw + [LF] + "" == "data" + [CR, CR, LF];
    assert DropCR(raw) == "data" + [CR];
    assert "data" + [CR] + [LF] + Relay("") == "data" + [CR, LF];
  }

  lemma DataLines()
    ensures StreamLines("data" + [CR, CR, LF]).done == ["data", ""]
    ensures StreamLines("data" + [CR, LF]).done == ["data"]
  {
    assert [CR, CR, LF][1..] == [CR, LF] && [CR, LF][2..] == "";
    assert StreamLines([CR, LF]) == Lines([""], "");
    assert StreamLines([CR, CR, LF]) == Lines(["", ""], "");
    PlainPrefix("data", [CR, CR, LF]);
    PlainPrefix("data", [CR, LF]);
    assert "data" + "" == "data";
  }

  lemma DataFields()
    ensures FeedAll(FRESH, ["data"]).events == []
    ensures FeedAll(FRESH, ["data", ""]).events == [StreamEvent("message", "", "")]
  {
    assert IndexOf("data", ':') == 4 by { assert ':' !in "data"; }
    var p := Feed(FRESH, "data");
    assert p == FRESH.(data := "\n");
    FeedAllSnoc(FRESH, [], "data");
    FeedAllSnoc(FRESH, ["data"], "");
    assert ["data", ""] == ["data"] + [""] && [] + ["data"] == ["data"];
  }

  /** With CR CR before an LF an event can be lost. */
  lemma CrPairLosesEvent()
    ensures
      var b := "data" + [CR, CR, LF];
      FitsScanner(b) && !NoCrPair(b) && Events(b) == [StreamEvent("message", "", "")] && Events(Relay(b)) == []
  {
    var b := "data" + [CR, CR, LF];
    IndexOfIs(b, LF, 6);
    assert b[7..] == "";
    assert CrPair(b, 4);
    CrPairRelayed();
    DataLines();
    DataFields();
  }

  /** A line that is too long silently ends the stream: nothing from it on is sent. */
  lemma {:induction false} LongLineEndsStream(a: string, long: string, rest: string)
    requires a != "" ==> a[|a| - 1] == LF
    requires FitsScanner(a) && LF !in long && |long| >= MAX_LINE && (rest != "" ==> rest[0] == LF)
    ensures Relay(a + long + rest) == Relay(a)
    decreases |a|
  {
    if a == "" {
      assert a + long + rest == long + rest;
      LongFirst(long, rest);
    } else {
      var raw, tail := CompleteLine(a);
      LongLineEndsStream(tail, long, rest);
      RelayFirst(raw, tail);
      RelayFirst(raw, tail + long + rest);
      Regroup(raw + [LF], tail, long);
      Regroup(raw + [LF], tail + long, rest);
    }
  }

  lemma CompleteLine(a: string) returns (raw: string, tail: string)
    requires a != "" && a[|a| - 1] == LF && FitsScanner(a)
    ensures a == raw + [LF] + tail && LF !in raw && |raw| < MAX_LINE && |tail| < |a|
    ensures FitsScanner(tail) && (tail != "" ==> tail[|tail| - 1] == LF)
  {
    var i := IndexOf(a, LF);
    assert i < |a|;
    raw, tail := a[..i], a[i + 1..];
  }

  lemma LongFirst(long: string, rest: string)
    requires LF !in long && |long| >= MAX_LINE
    ensures ScanLines(long + rest) == [] && Relay(long + rest) == ""
  {
    LateIndex(long, rest);
  }

  lemma IndexOfRaw(raw: string, rest: string)
    requires LF !in raw
    ensures IndexOf(raw + [LF] + rest, LF) == |raw|
  {
    var b := raw + [LF] + rest;
    assert forall k | 0 <= k < |raw| :: b[k] == raw[k] && raw[k] in raw;
    IndexOfIs(b, LF, |raw|);
  }

  lemma RelayFirst(raw: string, rest: string)
    requires LF !in raw && |raw| < MAX_LINE
    ensures ScanLines(raw + [LF] + rest) == [DropCR(raw)] + ScanLines(rest)
    ensures Relay(raw + [LF] + rest) == DropCR(raw) + [LF] + Relay(rest)
  {
    var b := raw + [LF] + rest;
    IndexOfRaw(raw, rest);
    assert b[..|raw|] == raw && b[|raw| + 1..] == rest;
    RelayLinesCons(DropCR(raw), ScanLines(rest));
  }

  lemma LateIndex(long: string, rest: string)
    requires LF !in long
    ensures IndexOf(long + rest, LF) >= |long|
  {
    var b := long + rest;
    assert forall k | 0 <= k < |long| :: b[k] == long[k] && long[k] in long;
  }

  lemma IndexOfIs(s: string, c: char, i: nat)
    requires i < |s| && s[i] == c && forall k | 0 <= k < i :: s[k] != c
    ensures IndexOf(s, c) == i
  {
  }
}
