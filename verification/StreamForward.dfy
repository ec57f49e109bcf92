/** The two streaming loops: the OpenAI relay and the Anthropic translator, writing
    to a client that may go away. */
module StreamForward {
  import opened Sequences
  import opened Wrappers
  import opened EventStream
  import opened StreamRelay
  import TokenCount

  function Clip(capacity: Option<nat>, s: string): string {
    if capacity.Some? && capacity.value < |s| then s[..capacity.value] else s
  }

  /** The client connection.  A connection that fails for good accepts some number of
      bytes in all; a write that does not fit delivers what still fits and fails. */
  class Sink {
    const capacity: Option<nat>
    var body: string

    constructor (capacity: Option<nat>)
      ensures this.capacity == capacity && body == "" && Valid()
    {
      this.capacity, body := capacity, "";
    }

    predicate Valid()
      reads this
    {
      capacity.Some? ==> |body| <= capacity.value
    }

    method Write(s: string) returns (ok: bool)
      requires Valid()
      modifies this
      ensures Valid() && body == Clip(capacity, old(body) + s)
      ensures ok <==> body == old(body) + s
    {
      if capacity.Some? && capacity.value < |body| + |s| {
        body := body + s[..capacity.value - |body|];
        assert body == (old(body) + s)[..capacity.value];
        return false;
      }
      body := body + s;
      return true;
    }
  }

  predicate Fits(capacity: Option<nat>, s: string) {
    capacity.Some? ==> |s| <= capacity.value
  }

  /** What has been cut off stays cut off. */
  lemma ClipOfPrefix(capacity: Option<nat>, a: string, b: string)
    requires !Fits(capacity, a)
    ensures Clip(capacity, a + b) == Clip(capacity, a)
  {
  }

  // ---------- OpenAI ----------

  /** A decoded JSON value. */
  datatype Json = JNull | JBool(b: bool) | JNumber(n: real) | JString(s: string) | JArray(items: seq<Json>) | JObject(fields: map<string, Json>)

  type Decoder = string -> Option<Json>

  /** choices[0].delta.content, when the chunk has that shape. */
  function DeltaContent(chunk: Json): Option<string> {
    if !chunk.JObject? || "choices" !in chunk.fields then None
    else
      var choices := chunk.fields["choices"];
      if !choices.JArray? || choices.items == [] || !choices.items[0].JObject? then None
      else
        var choice := choices.items[0].fields;
        if "delta" !in choice || !choice["delta"].JObject? then None
        else
          var delta := choice["delta"].fields;
          if "content" in delta && delta["content"].JString? then Some(delta["content"].s) else None
  }

  /** The text a data line contributes, if it decodes to a chunk that carries some. */
  function LineText(decode: Decoder, line: string): Option<string> {
    if !("data: " <= line) || line[6..] == "[DONE]" then None
    else match decode(line[6..])
      case None => None
      case Some(chunk) => DeltaContent(chunk)
  }

  function StreamTexts(decode: Decoder, lines: seq<string>): seq<string>
    decreases |lines|
  {
    if lines == [] then []
    else
      var t := LineText(decode, lines[|lines| - 1]);
      StreamTexts(decode, lines[..|lines| - 1]) + if t.Some? then [t.value] else []
  }

  /** How many whole lines reach the client. */
  function LinesSent(capacity: Option<nat>, lines: seq<string>): (n: nat)
    ensures n <= |lines| && Fits(capacity, RelayLines(lines[..n]))
    ensures n < |lines| ==> !Fits(capacity, RelayLines(lines[..n + 1]))
    decreases |lines|
  {
    if lines == [] then 0
    else
      var m := LinesSent(capacity, lines[..|lines| - 1]);
      assert lines[..|lines| - 1][..m] == lines[..m];
      if m < |lines| - 1 then
        assert lines[..|lines| - 1][..m + 1] == lines[..m + 1];
        m
      else
        assert lines[..|lines|] == lines;
        if Fits(capacity, RelayLines(lines)) then |lines| else m
  }

  function AtLeastOne(n: nat): nat {
    if n == 0 then 1 else n
  }

  lemma SentIs(capacity: Option<nat>, lines: seq<string>, n: nat)
    requires n <= |lines| && Fits(capacity, RelayLines(lines[..n]))
    requires n < |lines| ==> !Fits(capacity, RelayLines(lines[..n + 1]))
    ensures LinesSent(capacity, lines) == n
  {
    var m := LinesSent(capacity, lines);
    if m < n {
      PrefixFits(capacity, lines, m + 1, n);
    } else if n < m {
      PrefixFits(capacity, lines, n + 1, m);
    }
  }

  lemma PrefixFits(capacity: Option<nat>, lines: seq<string>, m: nat, n: nat)
    requires m <= n <= |lines| && Fits(capacity, RelayLines(lines[..n]))
    ensures Fits(capacity, RelayLines(lines[..m]))
  {
    assert lines[..n] == lines[..m] + lines[m..n];
    RelayLinesConcat(lines[..m], lines[m..n]);
  }

  /** The first write that fails settles what the client gets. */
  lemma WriteFailed(capacity: Option<nat>, lines: seq<string>, k: nat)
    requires k < |lines| && Fits(capacity, RelayLines(lines[..k])) && !Fits(capacity, RelayLines(lines[..k + 1]))
    ensures Clip(capacity, RelayLines(lines[..k + 1])) == Clip(capacity, RelayLines(lines))
    ensures LinesSent(capacity, lines) == k
  {
    assert lines == lines[..k + 1] + lines[k + 1..];
    RelayLinesConcat(lines[..k + 1], lines[k + 1..]);
    ClipOfPrefix(capacity, RelayLines(lines[..k + 1]), RelayLines(lines[k + 1..]));
    SentIs(capacity, lines, k);
  }

  function TokensIn(text: Option<string>): nat {
    if text.Some? then |text.value| / 4 else 0
  }

  lemma RelayLinesStep(lines: seq<string>, k: nat)
    requires k < |lines|
    ensures RelayLines(lines[..k + 1]) == RelayLines(lines[..k]) + (lines[k] + "\n")
  {
    assert lines[..k + 1][..k] == lines[..k];
    assert RelayLines(lines[..k]) + (lines[k] + "\n") == RelayLines(lines[..k]) + lines[k] + "\n";
  }

  lemma StreamTokensStep(decode: Decoder, lines: seq<string>, k: nat)
    requires k < |lines|
    ensures TokenCount.Quarters(StreamTexts(decode, lines[..k + 1]))
         == TokenCount.Quarters(StreamTexts(decode, lines[..k])) + TokensIn(LineText(decode, lines[k]))
  {
    assert lines[..k + 1][..k] == lines[..k];
    var before, t := StreamTexts(decode, lines[..k]), LineText(decode, lines[k]);
    if t.Some? {
      assert (before + [t.value])[..|before|] == before;
    } else {
      assert before + [] == before;
    }
  }

  method ForwardOpenAIStream(upstream: string, decode: Decoder, w: Sink) returns (outTok: nat)
    requires w.Valid() && w.body == ""
    modifies w
    ensures w.Valid() && w.body == Clip(w.capacity, Relay(upstream))
    ensures
      var lines := ScanLines(upstream);
      outTok == AtLeastOne(TokenCount.Quarters(StreamTexts(decode, lines[..LinesSent(w.capacity, lines)])))
  {
    outTok := 0;
    var lines := ScanLines(upstream);
    var k := 0;
    while k < |lines|
      invariant 0 <= k <= |lines|
      invariant w.Valid() && w.body == RelayLines(lines[..k]) && Fits(w.capacity, w.body)
      invariant outTok == TokenCount.Quarters(StreamTexts(decode, lines[..k]))
    {
      var line := lines[k];
      RelayLinesStep(lines, k);
      StreamTokensStep(decode, lines, k);
      var ok := w.Write(line + "\n");
      if !ok {
        WriteFailed(w.capacity, lines, k);
        break;
      }
      k := k + 1;
      if "data: " <= line {
        var data := line[6..];
        if data == "[DONE]" {
          continue;
        }
        var chunk := decode(data);
        if chunk.Some? {
          outTok := outTok + TokensIn(DeltaContent(chunk.value));
        }
      }
    }
    if k == |lines| {
      assert lines[..|lines|] == lines;
      SentIs(w.capacity, lines, k);
    }
    if outTok == 0 {
      outTok := 1;
    }
  }

  /** The tokens counted against the text the client got. */
  lemma OpenAITokenBound(decode: Decoder, lines: seq<string>)
    ensures
      var texts := StreamTexts(decode, lines);
      var counted := TokenCount.Quarters(texts);
      counted <= |TokenCount.Concat(texts)| / 4 <= counted + 3 * |texts| / 4
  {
    TokenCount.StreamedVersusBuffered(StreamTexts(decode, lines));
  }

  // ---------- Anthropic ----------

  datatype Upstream = Upstream(kind: string, text: string)

  /** One chunk in OpenAI's shape. */
  datatype Chunk = Chunk(id: string, created: nat, model: string, content: string)

  /** The JSON library, as far as the translator needs it: what it encodes it can
      decode again, on one line, and the end marker is not JSON. */
  datatype Codec = Codec(encode: Chunk -> string, decode: string -> Option<Chunk>, decodeUpstream: string -> Option<Upstream>)

  ghost predicate CodecOk(j: Codec) {
    && (forall c :: j.decode(j.encode(c)) == Some(c) && NoEol(j.encode(c)))
    && j.decode("[DONE]").None?
  }

  /** The text of a line that is a content_block_delta with something in it. */
  function DeltaText(j: Codec, line: string): Option<string> {
    if !("data: " <= line) then None
    else match j.decodeUpstream(line[6..])
      case None => None
      case Some(e) => if e.kind == "content_block_delta" && e.text != "" then Some(e.text) else None
  }

  function DeltaTexts(j: Codec, lines: seq<string>): seq<string>
    decreases |lines|
  {
    if lines == [] then []
    else
      var t := DeltaText(j, lines[|lines| - 1]);
      DeltaTexts(j, lines[..|lines| - 1]) + if t.Some? then [t.value] else []
  }

  /** The chunks for a list of texts; `stamps` says what the clock showed. */
  function Chunks(id: string, model: string, stamps: nat -> nat, texts: seq<string>): seq<Chunk> {
    seq(|texts|, i requires 0 <= i < |texts| => Chunk(id, stamps(i), model, texts[i]))
  }

  function DataFrame(data: string): string {
    "data: " + data + "\n\n"
  }

  function Frames(j: Codec, chunks: seq<Chunk>): string
    decreases |chunks|
  {
    if chunks == [] then "" else Frames(j, chunks[..|chunks| - 1]) + DataFrame(j.encode(chunks[|chunks| - 1]))
  }

  function Translation(j: Codec, chunks: seq<Chunk>): string {
    Frames(j, chunks) + DataFrame("[DONE]")
  }

  lemma {:induction false} FramesConcat(j: Codec, a: seq<Chunk>, b: seq<Chunk>)
    ensures Frames(j, a + b) == Frames(j, a) + Frames(j, b)
    decreases |b|
  {
    if b == [] {
      assert a + b == a;
    } else {
      assert (a + b)[..|a + b| - 1] == a + b[..|b| - 1];
      FramesConcat(j, a, b[..|b| - 1]);
    }
  }

  lemma ChunksSnoc(id: string, model: string, stamps: nat -> nat, texts: seq<string>, text: string)
    ensures Chunks(id, model, stamps, texts + [text]) == Chunks(id, model, stamps, texts) + [Chunk(id, stamps(|texts|), model, text)]
  {
  }

  lemma {:induction false} TextsMonotone(j: Codec, lines: seq<string>, k: nat)
    requires k <= |lines|
    ensures DeltaTexts(j, lines[..k]) <= DeltaTexts(j, lines)
    decreases |lines|
  {
    if k < |lines| {
      assert lines[..|lines| - 1][..k] == lines[..k];
      TextsMonotone(j, lines[..|lines| - 1], k);
    } else {
      assert lines[..k] == lines;
    }
  }

  /** The chunks of some texts begin with the chunks of the first of them. */
  lemma FramesOfPrefix(j: Codec, id: string, model: string, stamps: nat -> nat, a: seq<string>, texts: seq<string>) returns (tail: string)
    requires a <= texts
    ensures Frames(j, Chunks(id, model, stamps, texts)) == Frames(j, Chunks(id, model, stamps, a)) + tail
  {
    var all, some := Chunks(id, model, stamps, texts), Chunks(id, model, stamps, a);
    assert all == some + all[|some|..];
    FramesConcat(j, some, all[|some|..]);
    tail := Frames(j, all[|some|..]);
  }

  lemma DeltaTextsStep(j: Codec, lines: seq<string>, k: nat)
    requires k < |lines|
    ensures DeltaTexts(j, lines[..k + 1]) == DeltaTexts(j, lines[..k]) + if DeltaText(j, lines[k]).Some? then [DeltaText(j, lines[k]).value] else []
  {
    assert lines[..k + 1][..k] == lines[..k];
  }

  lemma FramesStep(j: Codec, id: string, model: string, stamps: nat -> nat, texts: seq<string>, text: string)
    ensures Frames(j, Chunks(id, model, stamps, texts + [text]))
         == Frames(j, Chunks(id, model, stamps, texts)) + DataFrame(j.encode(Chunk(id, stamps(|texts|), model, text)))
    ensures TokenCount.Quarters(texts + [text]) == TokenCount.Quarters(texts) + |text| / 4
  {
    var before, chunk := Chunks(id, model, stamps, texts), Chunk(id, stamps(|texts|), model, text);
    ChunksSnoc(id, model, stamps, texts, text);
    assert (before + [chunk])[..|before|] == before;
    assert (texts + [text])[..|texts|] == texts;
  }

  /** A frame that does not fit settles what the client gets. */
  lemma FrameFailed(capacity: Option<nat>, j: Codec, id: string, model: string, stamps: nat -> nat, some: seq<string>, all: seq<string>)
    requires some <= all && !Fits(capacity, Frames(j, Chunks(id, model, stamps, some)))
    ensures Clip(capacity, Frames(j, Chunks(id, model, stamps, all))) == Clip(capacity, Frames(j, Chunks(id, model, stamps, some)))
  {
    var tail := FramesOfPrefix(j, id, model, stamps, some, all);
    ClipOfPrefix(capacity, Frames(j, Chunks(id, model, stamps, some)), tail);
  }

  lemma ClipTwice(capacity: Option<nat>, a: string, b: string)
    ensures Clip(capacity, Clip(capacity, a) + b) == Clip(capacity, a + b)
  {
  }

  /** The part of the loop that looks at one line. */
  method ReadDelta(j: Codec, line: string) returns (text: Option<string>)
    ensures text == DeltaText(j, line)
  {
    assert "event:" <= line ==> line[0] == 'e';
    if line == "" || "event:" <= line {
      return None;
    }
    if !("data: " <= line) {
      return None;
    }
    var evt := j.decodeUpstream(line[6..]);
    if evt.None? {
      return None;
    }
    if evt.value.kind != "content_block_delta" || evt.value.text == "" {
      return None;
    }
    return Some(evt.value.text);
  }

  /** The first n texts are written or, the last of them, attempted: all there are,
      or all up to the first whose frame does not fit any more.  Their tokens count. */
  predicate Attempted(capacity: Option<nat>, j: Codec, id: string, model: string, stamps: nat -> nat, texts: seq<string>, n: nat) {
    && n <= |texts|
    && (n > 0 ==> Fits(capacity, Frames(j, Chunks(id, model, stamps, texts[..n - 1]))))
    && (n < |texts| ==> !Fits(capacity, Frames(j, Chunks(id, model, stamps, texts[..n]))))
  }

  lemma AttemptFailed(capacity: Option<nat>, j: Codec, id: string, model: string, stamps: nat -> nat, some: seq<string>, next: string, all: seq<string>)
    requires some + [next] <= all && Fits(capacity, Frames(j, Chunks(id, model, stamps, some)))
    requires !Fits(capacity, Frames(j, Chunks(id, model, stamps, some + [next])))
    ensures Attempted(capacity, j, id, model, stamps, all, |some| + 1) && all[..|some| + 1] == some + [next]
  {
    assert all[..|some|] == some && all[..|some| + 1] == some + [next];
  }

  lemma AttemptComplete(capacity: Option<nat>, j: Codec, id: string, model: string, stamps: nat -> nat, texts: seq<string>)
    requires Fits(capacity, Frames(j, Chunks(id, model, stamps, texts)))
    ensures Attempted(capacity, j, id, model, stamps, texts, |texts|) && texts[..|texts|] == texts
  {
    if texts != [] {
      var _ := FramesOfPrefix(j, id, model, stamps, texts[..|texts| - 1], texts);
    }
  }

  /** The translating loop. */
  method TranslateLines(lines: seq<string>, j: Codec, id: string, model: string, stamps: nat -> nat, w: Sink) returns (outTok: nat)
    requires w.Valid() && w.body == ""
    modifies w
    ensures w.Valid()
    ensures w.body == Clip(w.capacity, Frames(j, Chunks(id, model, stamps, DeltaTexts(j, lines))))
    ensures exists n: nat :: Attempted(w.capacity, j, id, model, stamps, DeltaTexts(j, lines), n)
                        && outTok == TokenCount.Quarters(DeltaTexts(j, lines)[..n])
  {
    outTok := 0;
    var sent := 0;
    var k := 0;
    ghost var texts: seq<string> := [];
    while k < |lines|
      invariant 0 <= k <= |lines|
      invariant texts == DeltaTexts(j, lines[..k]) && sent == |texts|
      invariant w.Valid() && w.body == Frames(j, Chunks(id, model, stamps, texts)) && Fits(w.capacity, w.body)
      invariant outTok == TokenCount.Quarters(texts)
    {
      DeltaTextsStep(j, lines, k);
      var text := ReadDelta(j, lines[k]);
      k := k + 1;
      if text.None? {
        assert texts + [] == texts;
        continue;
      }
      outTok := outTok + |text.value| / 4;
      FramesStep(j, id, model, stamps, texts, text.value);
      ghost var before := texts;
      texts := texts + [text.value];
      var ok := w.Write(DataFrame(j.encode(Chunk(id, stamps(sent), model, text.value))));
      if !ok {
        TextsMonotone(j, lines, k);
        FrameFailed(w.capacity, j, id, model, stamps, texts, DeltaTexts(j, lines));
        AttemptFailed(w.capacity, j, id, model, stamps, before, text.value, DeltaTexts(j, lines));
        return;
      }
      sent := sent + 1;
    }
    assert lines[..|lines|] == lines;
    AttemptComplete(w.capacity, j, id, model, stamps, texts);
  }

  /** The translator.  Whenever the client stops accepting bytes, what it got is a
      prefix of the full translation. */
  method ForwardAnthropicStream(upstream: string, j: Codec, id: string, model: string, stamps: nat -> nat, w: Sink) returns (outTok: nat)
    requires w.Valid() && w.body == ""
    modifies w
    ensures w.Valid()
    ensures w.body == Clip(w.capacity, Translation(j, Chunks(id, model, stamps, DeltaTexts(j, ScanLines(upstream)))))
    ensures
      var texts := DeltaTexts(j, ScanLines(upstream));
      exists n: nat :: Attempted(w.capacity, j, id, model, stamps, texts, n) && outTok == AtLeastOne(TokenCount.Quarters(texts[..n]))
  {
    outTok := TranslateLines(ScanLines(upstream), j, id, model, stamps, w);
    ClipTwice(w.capacity, Frames(j, Chunks(id, model, stamps, DeltaTexts(j, ScanLines(upstream)))), DataFrame("[DONE]"));
    var _ := w.Write(DataFrame("[DONE]"));
    if outTok == 0 {
      outTok := 1;
    }
  }

  // ---------- What the client sees ----------

  /** One message event per chunk. */
  function MessageEvents(j: Codec, chunks: seq<Chunk>, lastId: string): seq<StreamEvent> {
    seq(|chunks|, i requires 0 <= i < |chunks| => StreamEvent("message", j.encode(chunks[i]), lastId))
  }

  lemma FrameText(data: string, t: string)
    ensures DataFrame(data) + t == ("data: " + data) + [LF] + ([LF] + t)
  {
    assert "data: " + data + "\n\n" == "data: " + data + [LF] + [LF];
  }

  lemma BlankLine(t: string)
    ensures StreamLines([LF] + t) == Lines([""] + StreamLines(t).done, StreamLines(t).pending)
  {
    assert ([LF] + t)[1..] == t;
  }

  lemma TwoLines(a: string, b: string, rest: seq<string>)
    ensures [a] + ([b] + rest) == [a, b] + rest
  {
  }

  /** A data frame is two lines for the consumer, and one event. */
  lemma FrameLines(data: string, t: string)
    requires NoEol(data)
    ensures StreamLines(DataFrame(data) + t) == Lines(["data: " + data, ""] + StreamLines(t).done, StreamLines(t).pending)
  {
    FrameText(data, t);
    PlainLine("data: " + data, [LF] + t);
    BlankLine(t);
    TwoLines("data: " + data, "", StreamLines(t).done);
  }

  lemma FrameEvent(p: Parser, data: string)
    requires p.kind == "" && p.data == ""
    ensures FeedAll(p, ["data: " + data, ""]) == p.(events := p.events + [StreamEvent("message", data, p.id)])
  {
    var line := "data: " + data;
    DataField(p, data);
    assert [line, ""] == ([] + [line]) + [""];
    FeedAllSnoc(p, [], line);
    FeedAllSnoc(p, [] + [line], "");
    assert (data + "\n")[..|data|] == data;
    assert "" + data + "\n" == data + "\n";
  }

  lemma DataField(p: Parser, data: string)
    ensures Feed(p, "data: " + data) == p.(data := p.data + data + "\n")
  {
    var line := "data: " + data;
    assert IndexOf(line, ':') == 4 by { IndexOfIs(line, ':', 4); }
    assert line[..4] == "data" && line[5..] == " " + data && (" " + data)[1..] == data;
  }

  lemma MessageEventsSnoc(j: Codec, chunks: seq<Chunk>, lastId: string)
    requires chunks != []
    ensures MessageEvents(j, chunks, lastId)
         == MessageEvents(j, chunks[..|chunks| - 1], lastId) + [StreamEvent("message", j.encode(chunks[|chunks| - 1]), lastId)]
  {
  }

  lemma AppendEvents(p: Parser, a: seq<StreamEvent>, b: seq<StreamEvent>)
    ensures p.(events := p.events + a).events + b == p.events + (a + b)
  {
  }

  lemma {:induction false} FramesEvents(j: Codec, p: Parser, chunks: seq<Chunk>, t: string)
    requires CodecOk(j) && p.kind == "" && p.data == ""
    ensures FeedAll(p, StreamLines(Frames(j, chunks) + t).done)
         == FeedAll(p.(events := p.events + MessageEvents(j, chunks, p.id)), StreamLines(t).done)
    decreases |chunks|
  {
    if chunks == [] {
      assert Frames(j, chunks) + t == t;
      assert MessageEvents(j, chunks, p.id) == [];
      assert p.events + [] == p.events;
    } else {
      var before := chunks[..|chunks| - 1];
      var data := j.encode(chunks[|chunks| - 1]);
      var p1 := p.(events := p.events + MessageEvents(j, before, p.id));
      Regroup(Frames(j, before), DataFrame(data), t);
      FramesEvents(j, p, before, DataFrame(data) + t);
      LastFrameEvent(p1, data, t);
      AppendEvents(p, MessageEvents(j, before, p.id), [StreamEvent("message", data, p.id)]);
      MessageEventsSnoc(j, chunks, p.id);
    }
  }

  lemma LastFrameEvent(p: Parser, data: string, t: string)
    requires NoEol(data) && p.kind == "" && p.data == ""
    ensures FeedAll(p, StreamLines(DataFrame(data) + t).done)
         == FeedAll(p.(events := p.events + [StreamEvent("message", data, p.id)]), StreamLines(t).done)
  {
    FrameLines(data, t);
    FeedAllConcat(p, ["data: " + data, ""], StreamLines(t).done);
    FrameEvent(p, data);
  }

  lemma NoBom(b: string)
    requires b != "" && b[0] == 'd'
    ensures StripBom(StreamLines(b).done) == StreamLines(b).done
  {
    FirstChar(b);
    assert BOM[0] != 'd';
  }

  lemma FirstChar(b: string)
    requires b != "" && !IsEol(b[0])
    ensures var lines := StreamLines(b).done; lines != [] ==> lines[0] != "" && lines[0][0] == b[0]
  {
  }

  lemma TranslationFeed(j: Codec, chunks: seq<Chunk>)
    requires CodecOk(j)
    ensures FeedAll(FRESH, StreamLines(Translation(j, chunks)).done).events
         == MessageEvents(j, chunks, "") + [StreamEvent("message", "[DONE]", "")]
  {
    var tail := DataFrame("[DONE]");
    var p' := FRESH.(events := FRESH.events + MessageEvents(j, chunks, ""));
    FramesEvents(j, FRESH, chunks, tail);
    assert tail + "" == tail;
    LastFrameEvent(p', "[DONE]", "");
    assert FRESH.events + MessageEvents(j, chunks, "") == MessageEvents(j, chunks, "");
  }

  /** An event-stream consumer reads the translation as one message per chunk, then
      the end marker, and nothing else. */
  lemma TranslationEvents(j: Codec, chunks: seq<Chunk>)
    requires CodecOk(j)
    ensures Events(Translation(j, chunks)) == MessageEvents(j, chunks, "") + [StreamEvent("message", "[DONE]", "")]
  {
    TranslationFeed(j, chunks);
    FramesStart(j, chunks, DataFrame("[DONE]"));
    NoBom(Translation(j, chunks));
  }

  lemma {:induction false} FramesStart(j: Codec, chunks: seq<Chunk>, tail: string)
    requires tail != "" && tail[0] == 'd'
    ensures (Frames(j, chunks) + tail)[0] == 'd'
    decreases |chunks|
  {
    if chunks != [] {
      FramesStart(j, chunks[..|chunks| - 1], DataFrame(j.encode(chunks[|chunks| - 1])) + tail);
      assert Frames(j, chunks) + tail == Frames(j, chunks[..|chunks| - 1]) + (DataFrame(j.encode(chunks[|chunks| - 1])) + tail);
    }
  }

  /** The text a consumer reassembles: the contents of the events that decode. */
  function Reassembled(j: Codec, events: seq<StreamEvent>): seq<string>
    decreases |events|
  {
    if events == [] then []
    else
      var c := j.decode(events[|events| - 1].data);
      Reassembled(j, events[..|events| - 1]) + if c.Some? then [c.value.content] else []
  }

  lemma {:induction false} MessagesDecode(j: Codec, chunks: seq<Chunk>)
    requires CodecOk(j)
    ensures Reassembled(j, MessageEvents(j, chunks, "")) == seq(|chunks|, i requires 0 <= i < |chunks| => chunks[i].content)
    decreases |chunks|
  {
    if chunks != [] {
      var n := |chunks| - 1;
      MessagesDecode(j, chunks[..n]);
      assert MessageEvents(j, chunks, "")[..n] == MessageEvents(j, chunks[..n], "");
    }
  }

  /** Translation preserves text: the consumer reassembles exactly the non-empty
      deltas of the upstream, in order, and sees the end marker exactly once, last. */
  lemma TranslationPreservesText(j: Codec, upstream: string, id: string, model: string, stamps: nat -> nat)
    requires CodecOk(j)
    ensures
      var texts := DeltaTexts(j, ScanLines(upstream));
      var events := Events(Translation(j, Chunks(id, model, stamps, texts)));
      && Reassembled(j, events) == texts
      && |events| == |texts| + 1 && events[|texts|].data == "[DONE]"
      && (forall i | 0 <= i < |texts| ::
            events[i].data != "[DONE]"
            && exists c :: j.decode(events[i].data) == Some(c)
                 && c.id == id && c.model == model && c.content == texts[i] && c.created == stamps(i))
  {
    var texts := DeltaTexts(j, ScanLines(upstream));
    var chunks := Chunks(id, model, stamps, texts);
    TranslationEvents(j, chunks);
    MessagesDecode(j, chunks);
    var messages := MessageEvents(j, chunks, "");
    var events := messages + [StreamEvent("message", "[DONE]", "")];
    assert events[..|messages|] == messages;
    assert seq(|chunks|, i requires 0 <= i < |chunks| => chunks[i].content) == texts;
    forall i | 0 <= i < |texts|
      ensures
        events[i].data != "[DONE]"
        && exists c :: j.decode(events[i].data) == Some(c)
             && c.id == id && c.model == model && c.content == texts[i] && c.created == stamps(i)
    {
      assert j.decode(j.encode(chunks[i])) == Some(chunks[i]);
    }
  }

  // ---------- From the provider's events ----------

  /** The provider frames an event as an event line and a data line. */
  datatype Sent = Sent(name: string, payload: string)

  function Render(eol: string, sent: seq<Sent>): string
    decreases |sent|
  {
    if sent == [] then ""
    else "event: " + sent[0].name + eol + ("data: " + sent[0].payload) + eol + eol + Render(eol, sent[1..])
  }

  function SentText(j: Codec, e: Sent): Option<string> {
    match j.decodeUpstream(e.payload)
    case None => None
    case Some(u) => if u.kind == "content_block_delta" && u.text != "" then Some(u.text) else None
  }

  function SentTexts(j: Codec, sent: seq<Sent>): seq<string>
    decreases |sent|
  {
    if sent == [] then []
    else (if SentText(j, sent[0]).Some? then [SentText(j, sent[0]).value] else []) + SentTexts(j, sent[1..])
  }

  predicate Framed(e: Sent) {
    NoEol(e.name) && NoEol(e.payload) && |e.name| + 8 < MAX_LINE && |e.payload| + 7 < MAX_LINE
  }

  lemma {:induction false} DeltaTextsConcat(j: Codec, a: seq<string>, b: seq<string>)
    ensures DeltaTexts(j, a + b) == DeltaTexts(j, a) + DeltaTexts(j, b)
    decreases |b|
  {
    if b == [] {
      assert a + b == a;
    } else {
      assert (a + b)[..|a + b| - 1] == a + b[..|b| - 1];
      DeltaTextsConcat(j, a, b[..|b| - 1]);
    }
  }

  lemma PlainRaw(line: string)
    requires NoEol(line)
    ensures LF !in line && LF !in line + [CR] && DropCR(line) == line && DropCR(line + [CR]) == line
  {
    assert line != "" ==> !IsEol(line[|line| - 1]);
  }

  lemma ScanLf(line: string, t: string)
    requires NoEol(line) && |line| + 1 < MAX_LINE
    ensures ScanLines(line + ([LF] + t)) == [line] + ScanLines(t)
  {
    PlainRaw(line);
    Regroup(line, [LF], t);
    RelayFirst(line, t);
  }

  lemma CrlfText(line: string, t: string)
    ensures line + ([CR, LF] + t) == line + [CR] + [LF] + t
  {
  }

  lemma ScanCrlf(line: string, t: string)
    requires NoEol(line) && |line| + 1 < MAX_LINE
    ensures ScanLines(line + ([CR, LF] + t)) == [line] + ScanLines(t)
  {
    PlainRaw(line);
    CrlfText(line, t);
    RelayFirst(line + [CR], t);
  }

  /** The scanner takes a plain line off either line ending. */
  lemma ScanPlain(line: string, eol: string, t: string)
    requires NoEol(line) && |line| + 1 < MAX_LINE && (eol == [LF] || eol == [CR, LF])
    ensures ScanLines(line + (eol + t)) == [line] + ScanLines(t)
  {
    if eol == [LF] { ScanLf(line, t); } else { ScanCrlf(line, t); }
  }

  lemma RegroupSix(a: string, b: string, c: string, d: string, e: string, f: string)
    ensures a + b + c + d + e + f == a + (b + (c + (d + ("" + (e + f)))))
  {
  }

  lemma ThreeLines(a: string, b: string, c: string, rest: seq<string>)
    ensures [a] + ([b] + ([c] + rest)) == [a, b, c] + rest
  {
  }

  lemma ScanThree(l1: string, l2: string, l3: string, eol: string, t: string)
    requires NoEol(l1) && |l1| + 1 < MAX_LINE && NoEol(l2) && |l2| + 1 < MAX_LINE && NoEol(l3) && |l3| + 1 < MAX_LINE
    requires eol == [LF] || eol == [CR, LF]
    ensures ScanLines(l1 + (eol + (l2 + (eol + (l3 + (eol + t)))))) == [l1] + ([l2] + ([l3] + ScanLines(t)))
  {
    var t3 := l3 + (eol + t);
    var t2 := l2 + (eol + t3);
    ScanPlain(l1, eol, t2);
    ScanPlain(l2, eol, t3);
    ScanPlain(l3, eol, t);
  }

  lemma ScanEvent(eol: string, e: Sent, t: string)
    requires Framed(e) && (eol == [LF] || eol == [CR, LF])
    ensures ScanLines("event: " + e.name + eol + ("data: " + e.payload) + eol + eol + t)
         == ["event: " + e.name, "data: " + e.payload, ""] + ScanLines(t)
  {
    var l1, l2 := "event: " + e.name, "data: " + e.payload;
    RegroupSix(l1, eol, l2, eol, eol, t);
    ScanThree(l1, l2, "", eol, t);
    ThreeLines(l1, l2, "", ScanLines(t));
  }

  lemma EventTexts(j: Codec, e: Sent)
    ensures DeltaTexts(j, ["event: " + e.name, "data: " + e.payload, ""]) == if SentText(j, e).Some? then [SentText(j, e).value] else []
  {
    var l1, l2 := "event: " + e.name, "data: " + e.payload;
    assert [l1, l2, ""] == ([l1] + [l2]) + [""];
    DeltaTextsConcat(j, [l1] + [l2], [""]);
    DeltaTextsConcat(j, [l1], [l2]);
    assert [l1][..0] == [] && [l2][..0] == [] && [""][..0] == [];
    assert l1[0] == 'e' && l2[6..] == e.payload;
  }

  /** Whatever events the provider sends, framed with LF or CRLF, the translator
      picks out exactly their texts. */
  lemma {:induction false} ProviderTextsArrive(j: Codec, eol: string, sent: seq<Sent>)
    requires (eol == [LF] || eol == [CR, LF]) && forall e | e in sent :: Framed(e)
    ensures DeltaTexts(j, ScanLines(Render(eol, sent))) == SentTexts(j, sent)
    decreases |sent|
  {
    if sent != [] {
      var e := sent[0];
      ProviderTextsArrive(j, eol, sent[1..]);
      ScanEvent(eol, e, Render(eol, sent[1..]));
      EventTexts(j, e);
      DeltaTextsConcat(j, ["event: " + e.name, "data: " + e.payload, ""], ScanLines(Render(eol, sent[1..])));
    }
  }

  // ---------- From an OpenAI provider's chunks ----------

  /** The chunk is an object whose first choice is an object whose delta is an object with
      the content t; other fields and other choices are whatever they are. */
  predicate Carries(chunk: Json, t: string) {
    && chunk.JObject? && "choices" in chunk.fields
    && chunk.fields["choices"].JArray? && |chunk.fields["choices"].items| > 0
    && chunk.fields["choices"].items[0].JObject? && "delta" in chunk.fields["choices"].items[0].fields
    && chunk.fields["choices"].items[0].fields["delta"].JObject?
    && "content" in chunk.fields["choices"].items[0].fields["delta"].fields
    && chunk.fields["choices"].items[0].fields["delta"].fields["content"] == JString(t)
  }

  lemma ContentExactly(chunk: Json, t: string)
    ensures DeltaContent(chunk) == Some(t) <==> Carries(chunk, t)
  {
  }

  /** What the provider sends: payloads that carry a text, and others. */
  datatype Item = Text(text: string, payload: string) | Noise(payload: string)

  ghost predicate ItemOk(decode: Decoder, item: Item) {
    && NoEol(item.payload) && |item.payload| + 7 < MAX_LINE
    && match item
       case Text(text, payload) => payload != "[DONE]" && decode(payload).Some? && Carries(decode(payload).value, text)
       case Noise(payload) => payload == "[DONE]" || decode(payload).None? || forall t :: !Carries(decode(payload).value, t)
  }

  function RenderItems(eol: string, items: seq<Item>): string
    decreases |items|
  {
    if items == [] then "" else "data: " + items[0].payload + eol + eol + RenderItems(eol, items[1..])
  }

  function TextsIn(items: seq<Item>): seq<string>
    decreases |items|
  {
    if items == [] then [] else (if items[0].Text? then [items[0].text] else []) + TextsIn(items[1..])
  }

  lemma {:induction false} StreamTextsConcat(decode: Decoder, a: seq<string>, b: seq<string>)
    ensures StreamTexts(decode, a + b) == StreamTexts(decode, a) + StreamTexts(decode, b)
    decreases |b|
  {
    if b == [] {
      assert a + b == a;
    } else {
      var text := LineText(decode, b[|b| - 1]);
      PrefixOfConcat(a, b);
      StreamTextsConcat(decode, a, b[..|b| - 1]);
      Regroup(StreamTexts(decode, a), StreamTexts(decode, b[..|b| - 1]), if text.Some? then [text.value] else []);
    }
  }

  lemma ItemText(decode: Decoder, item: Item)
    requires ItemOk(decode, item)
    ensures LineText(decode, "data: " + item.payload) == if item.Text? then Some(item.text) else None
  {
    var payload := item.payload;
    assert ("data: " + payload)[6..] == payload;
    if payload != "[DONE]" && decode(payload).Some? {
      var chunk := decode(payload).value;
      var found := DeltaContent(chunk);
      if item.Text? {
        ContentExactly(chunk, item.text);
      } else if found.Some? {
        ContentExactly(chunk, found.value);
      }
    }
  }

  lemma ItemTexts(decode: Decoder, item: Item)
    requires ItemOk(decode, item)
    ensures StreamTexts(decode, ["data: " + item.payload, ""]) == if item.Text? then [item.text] else []
  {
    var line := "data: " + item.payload;
    ItemText(decode, item);
    assert [line, ""] == [line] + [""];
    StreamTextsConcat(decode, [line], [""]);
    assert [line][..0] == [] && [""][..0] == [];
  }

  lemma RegroupFour(a: string, b: string, t: string)
    ensures a + b + b + t == a + (b + ("" + (b + t)))
  {
  }

  lemma ScanItem(eol: string, payload: string, t: string)
    requires NoEol(payload) && |payload| + 7 < MAX_LINE && (eol == [LF] || eol == [CR, LF])
    ensures ScanLines("data: " + payload + eol + eol + t) == ["data: " + payload, ""] + ScanLines(t)
  {
    RegroupFour("data: " + payload, eol, t);
    ScanPlain("data: " + payload, eol, "" + (eol + t));
    ScanPlain("", eol, t);
    TwoLines("data: " + payload, "", ScanLines(t));
  }

  lemma ItemArrives(decode: Decoder, eol: string, item: Item, t: string)
    requires ItemOk(decode, item) && (eol == [LF] || eol == [CR, LF])
    ensures StreamTexts(decode, ScanLines("data: " + item.payload + eol + eol + t))
         == (if item.Text? then [item.text] else []) + StreamTexts(decode, ScanLines(t))
  {
    ScanItem(eol, item.payload, t);
    ItemTexts(decode, item);
    StreamTextsConcat(decode, ["data: " + item.payload, ""], ScanLines(t));
  }

  lemma {:induction false} ItemsArrive(decode: Decoder, eol: string, items: seq<Item>)
    requires (eol == [LF] || eol == [CR, LF]) && forall i | 0 <= i < |items| :: ItemOk(decode, items[i])
    ensures StreamTexts(decode, ScanLines(RenderItems(eol, items))) == TextsIn(items)
    decreases |items|
  {
    if items != [] {
      ItemsArrive(decode, eol, items[1..]);
      ItemArrives(decode, eol, items[0], RenderItems(eol, items[1..]));
    }
  }

  lemma {:induction false} TextsInSnoc(items: seq<Item>, last: Item)
    ensures TextsIn(items + [last]) == TextsIn(items) + if last.Text? then [last.text] else []
    decreases |items|
  {
    if items == [] {
      assert [] + [last] == [last];
      assert [last][1..] == [];
    } else {
      assert (items + [last])[0] == items[0] && (items + [last])[1..] == items[1..] + [last];
      TextsInSnoc(items[1..], last);
    }
  }

  /** Whatever chunks an OpenAI provider sends before the end marker, framed with LF or
      CRLF, the relay counts exactly the texts in choices[0].delta.content: a quarter of
      each, and at least one token in all. */
  lemma OpenAITextsArrive(decode: Decoder, eol: string, items: seq<Item>)
    requires (eol == [LF] || eol == [CR, LF]) && forall item | item in items :: ItemOk(decode, item)
    ensures
      var lines := ScanLines(RenderItems(eol, items + [Noise("[DONE]")]));
      && StreamTexts(decode, lines) == TextsIn(items)
      && LinesSent(None, lines) == |lines|
      && var total := TokenCount.Quarters(TextsIn(items));
         AtLeastOne(TokenCount.Quarters(StreamTexts(decode, lines[..LinesSent(None, lines)]))) == if total > 1 then total else 1
  {
    var all := items + [Noise("[DONE]")];
    forall i | 0 <= i < |all| ensures ItemOk(decode, all[i]) {
      if i < |items| { assert all[i] == items[i] && items[i] in items; }
    }
    ItemsArrive(decode, eol, all);
    TextsInSnoc(items, Noise("[DONE]"));
    var lines := ScanLines(RenderItems(eol, all));
    assert lines[..|lines|] == lines;
    SentIs(None, lines, |lines|);
  }
}
