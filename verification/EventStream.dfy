/** Text streams of events: how a Go line scanner cuts bytes into lines, and how an
    event-stream consumer does (sections 9.2.5 and 9.2.6 of the WHATWG HTML
    standard).  A character stands for a byte. */
module EventStream {
  import opened Wrappers

  const CR := '\r'
  const LF := '\n'

  /** Position of the first c, or the length when there is none. */
  function IndexOf(s: string, c: char): (i: nat)
    ensures i <= |s| && (i < |s| ==> s[i] == c) && forall k | 0 <= k < i :: s[k] != c
    decreases |s|
  {
    if s == "" || s[0] == c then 0 else 1 + IndexOf(s[1..], c)
  }

  // ---------- The line scanner ----------

  /** bufio.Scanner gives up on a line of this many bytes. */
  const MAX_LINE: nat := 65536

  function DropCR(s: string): string {
    if s != "" && s[|s| - 1] == CR then s[..|s| - 1] else s
  }

  /** The lines a scanner yields: split on LF, one trailing CR dropped, a final
      unterminated line kept, nothing after a line that is too long. */
  function ScanLines(b: string): seq<string>
    decreases |b|
  {
    if b == "" then []
    else
      var i := IndexOf(b, LF);
      if i >= MAX_LINE then []
      else [DropCR(b[..i])] + ScanLines(if i < |b| then b[i + 1..] else "")
  }

  predicate FitsScanner(b: string)
    decreases |b|
  {
    b == "" ||
    var i := IndexOf(b, LF);
    i < MAX_LINE && (i < |b| ==> FitsScanner(b[i + 1..]))
  }

  // ---------- The event-stream consumer ----------

  /** Terminated lines, and the pending data after the last of them. */
  datatype Lines = Lines(done: seq<string>, pending: string)

  predicate IsEol(c: char) {
    c == CR || c == LF
  }

  function EndLine(l: Lines): Lines {
    Lines([""] + l.done, l.pending)
  }

  function Prepend(c: char, l: Lines): Lines {
    if l.done == [] then Lines([], [c] + l.pending)
    else Lines([[c] + l.done[0]] + l.done[1..], l.pending)
  }

  /** CRLF, LF and CR each end a line; every other character belongs to one. */
  function StreamLines(b: string): Lines
    decreases |b|
  {
    if b == "" then Lines([], "")
    else if b[0] == CR && |b| > 1 && b[1] == LF then EndLine(StreamLines(b[2..]))
    else if IsEol(b[0]) then EndLine(StreamLines(b[1..]))
    else Prepend(b[0], StreamLines(b[1..]))
  }

  datatype StreamEvent = StreamEvent(kind: string, data: string, lastEventId: string)

  /** The three buffers, the reconnection time, and what has been dispatched. */
  datatype Parser = Parser(kind: string, data: string, id: string, retry: Option<string>, events: seq<StreamEvent>)

  const FRESH := Parser("", "", "", None, [])

  predicate AllDigits(s: string) {
    s != "" && forall i | 0 <= i < |s| :: '0' <= s[i] <= '9'
  }

  function Field(p: Parser, name: string, value: string): Parser {
    if name == "event" then p.(kind := value)
    else if name == "data" then p.(data := p.data + value + "\n")
    else if name == "id" then (if '\0' in value then p else p.(id := value))
    else if name == "retry" then (if AllDigits(value) then p.(retry := Some(value)) else p)
    else p
  }

  function Dispatch(p: Parser): Parser {
    if p.data == "" then p.(kind := "")
    else
      var e := StreamEvent(if p.kind == "" then "message" else p.kind, p.data[..|p.data| - 1], p.id);
      p.(kind := "", data := "", events := p.events + [e])
  }

  function Feed(p: Parser, line: string): Parser {
    if line == "" then Dispatch(p)
    else
      var i := IndexOf(line, ':');
      if i == 0 then p
      else if i == |line| then Field(p, line, "")
      else
        var value := line[i + 1..];
        Field(p, line[..i], if value != "" && value[0] == ' ' then value[1..] else value)
  }

  function FeedAll(p: Parser, lines: seq<string>): Parser
    decreases |lines|
  {
    if lines == [] then p else Feed(FeedAll(p, lines[..|lines| - 1]), lines[|lines| - 1])
  }

  /** The byte order mark, as UTF-8 bytes. */
  const BOM := ['\U{EF}', '\U{BB}', '\U{BF}']

  /** One leading byte order mark is ignored. */
  function StripBom(lines: seq<string>): seq<string> {
    if lines != [] && BOM <= lines[0] then [lines[0][3..]] + lines[1..] else lines
  }

  function Parse(b: string): Parser {
    FeedAll(FRESH, StripBom(StreamLines(b).done))
  }

  /** What the consumer sees; pending data at the end of the stream is discarded. */
  function Events(b: string): seq<StreamEvent> {
    Parse(b).events
  }

  lemma {:induction false} FeedAllConcat(p: Parser, a: seq<string>, b: seq<string>)
    ensures FeedAll(p, a + b) == FeedAll(FeedAll(p, a), b)
    decreases |b|
  {
    if b == [] {
      assert a + b == a;
    } else {
      assert (a + b)[..|a + b| - 1] == a + b[..|b| - 1];
      FeedAllConcat(p, a, b[..|b| - 1]);
    }
  }

  /** Only an empty line dispatches. */
  lemma NoDispatch(p: Parser, line: string)
    requires line != ""
    ensures Feed(p, line).events == p.events
  {
  }

  // ---------- Cutting concatenations ----------

  /** The lines of x, then those of y. */
  function Join(x: Lines, y: Lines): Lines {
    Lines(x.done + y.done, y.pending)
  }

  /** The pending data made a line. */
  function Terminated(l: Lines): Lines {
    Lines(l.done + [l.pending], "")
  }

  lemma PrependJoin(c: char, x: Lines, y: Lines)
    requires x.done != []
    ensures Prepend(c, Join(x, y)) == Join(Prepend(c, x), y)
  {
    assert (x.done + y.done)[1..] == x.done[1..] + y.done;
  }

  lemma EndLineJoin(x: Lines, y: Lines)
    ensures EndLine(Join(x, y)) == Join(EndLine(x), y)
  {
    assert [""] + (x.done + y.done) == [""] + x.done + y.done;
  }

  lemma PrependTerminated(c: char, l: Lines)
    ensures Prepend(c, Terminated(l)) == Terminated(Prepend(c, l))
  {
    if l.done != [] {
      assert (l.done + [l.pending])[1..] == l.done[1..] + [l.pending];
    }
  }

  lemma EndLineTerminated(l: Lines)
    ensures EndLine(Terminated(l)) == Terminated(EndLine(l))
  {
    assert [""] + (l.done + [l.pending]) == [""] + l.done + [l.pending];
  }

  /** After an LF the consumer starts afresh. */
  lemma {:induction false} LinesAfterLf(a: string, t: string)
    requires a != "" && a[|a| - 1] == LF
    ensures StreamLines(a).pending == "" && StreamLines(a).done != []
    ensures StreamLines(a + t) == Join(StreamLines(a), StreamLines(t))
    decreases |a|
  {
    var n := if a[0] == CR && a[1] == LF then 2 else 1;
    assert (a + t)[n..] == a[n..] + t;
    if |a| == n {
      assert a[n..] == "" && "" + t == t;
      EndLineJoin(StreamLines(""), StreamLines(t));
      assert Join(StreamLines(""), StreamLines(t)) == StreamLines(t);
    } else {
      LinesAfterLf(a[n..], t);
      EndLineJoin(StreamLines(a[n..]), StreamLines(t));
      PrependJoin(a[0], StreamLines(a[n..]), StreamLines(t));
    }
  }

  /** A raw line: no LF, and not ending in a CR. */
  predicate Raw(r: string) {
    LF !in r && (r != "" ==> r[|r| - 1] != CR)
  }

  lemma RawTail(r: string)
    requires Raw(r) && r != ""
    ensures Raw(r[1..]) && r[0] != LF && (r[0] == CR ==> |r| > 1 && r[1] != LF)
  {
    assert r[0] in r;
    assert |r| > 1 ==> r[1] in r;
    assert forall c | c in r[1..] :: c in r;
  }

  /** However a raw line ends, it reads the same: as the lines it contains, with the
      pending data made a line. */
  lemma {:induction false} RawLine(r: string, eol: string)
    requires Raw(r) && (eol == [LF] || eol == [CR, LF] || eol == [CR])
    ensures StreamLines(r + eol) == Terminated(StreamLines(r))
    ensures r != "" ==> StreamLines(r).pending != ""
    decreases |r|
  {
    if r == "" {
      assert r + eol == eol;
      assert eol[|eol|..] == "";
    } else {
      RawTail(r);
      assert (r + eol)[1..] == r[1..] + eol;
      RawLine(r[1..], eol);
      EndLineTerminated(StreamLines(r[1..]));
      PrependTerminated(r[0], StreamLines(r[1..]));
    }
  }

  predicate NoEol(s: string) {
    forall k | 0 <= k < |s| :: !IsEol(s[k])
  }

  /** Text without line ends belongs to the first line of what follows it. */
  lemma {:induction false} PlainPrefix(w: string, t: string)
    requires NoEol(w)
    ensures
      var l := StreamLines(t);
      StreamLines(w + t) == if l.done == [] then Lines([], w + l.pending) else Lines([w + l.done[0]] + l.done[1..], l.pending)
    decreases |w|
  {
    if w == "" {
      var l := StreamLines(t);
      assert w + t == t && w + l.pending == l.pending;
      if l.done != [] {
        assert w + l.done[0] == l.done[0];
        assert l.done == [l.done[0]] + l.done[1..];
      }
    } else {
      PlainPrefix(w[1..], t);
      PlainChar(w[0], w[1..] + t);
      assert [w[0]] + (w[1..] + t) == w + t;
      var l := StreamLines(t);
      if l.done == [] {
        assert [w[0]] + (w[1..] + l.pending) == w + l.pending;
      } else {
        assert [w[0]] + (w[1..] + l.done[0]) == w + l.done[0];
      }
    }
  }

  lemma PlainChar(c: char, t: string)
    requires !IsEol(c)
    ensures StreamLines([c] + t) == Prepend(c, StreamLines(t))
  {
    assert ([c] + t)[1..] == t;
  }

  /** A plain line and an LF. */
  lemma PlainLine(w: string, t: string)
    requires NoEol(w)
    ensures StreamLines(w + [LF] + t) == Lines([w] + StreamLines(t).done, StreamLines(t).pending)
  {
    PlainPrefix(w, [LF] + t);
    assert ([LF] + t)[1..] == t;
    assert w + [LF] + t == w + ([LF] + t);
    assert w + "" == w;
    assert ([""] + StreamLines(t).done)[1..] == StreamLines(t).done;
  }
}
