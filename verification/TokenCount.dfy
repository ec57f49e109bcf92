/** Token estimates: a quarter of the bytes, rounded down per piece. */
module TokenCount {
  import opened Sequences
  import opened WhiteSpace

  function Concat(chunks: seq<string>): string
    decreases |chunks|
  {
    if chunks == [] then "" else Concat(chunks[..|chunks| - 1]) + chunks[|chunks| - 1]
  }

  /** Each piece rounded down on its own. */
  function Quarters(chunks: seq<string>): nat
    decreases |chunks|
  {
    if chunks == [] then 0 else Quarters(chunks[..|chunks| - 1]) + |chunks[|chunks| - 1]| / 4
  }

  lemma {:induction false} QuartersRemainder(chunks: seq<string>)
    ensures 4 * Quarters(chunks) <= |Concat(chunks)| <= 4 * Quarters(chunks) + 3 * |chunks|
    decreases |chunks|
  {
    if chunks != [] { QuartersRemainder(chunks[..|chunks| - 1]); }
  }

  /** Counting piecewise, as a stream does, never exceeds counting the whole text, as
      a buffered answer does, and falls short by at most three quarters a piece. */
  lemma StreamedVersusBuffered(chunks: seq<string>)
    ensures Quarters(chunks) <= |Concat(chunks)| / 4 <= Quarters(chunks) + 3 * |chunks| / 4
  {
    QuartersRemainder(chunks);
  }

  function Copies(k: nat, piece: string): (r: seq<string>)
    ensures |r| == k
  {
    if k == 0 then [] else Copies(k - 1, piece) + [piece]
  }

  lemma {:induction false} CopiesCount(k: nat, piece: string)
    requires 3 <= |piece| <= 4
    ensures Quarters(Copies(k, piece)) == if |piece| == 4 then k else 0
    ensures |Concat(Copies(k, piece))| == if |piece| == 4 then 4 * k else 3 * k
  {
    if k > 0 {
      CopiesCount(k - 1, piece);
      assert Copies(k, piece)[..k - 1] == Copies(k - 1, piece);
    }
  }

  /** Both ends of the bound are reached, for every number of pieces. */
  lemma BoundsAttained(k: nat)
    ensures exists chunks: seq<string> :: |chunks| == k && |Concat(chunks)| / 4 == Quarters(chunks)
    ensures exists chunks: seq<string> :: |chunks| == k && |Concat(chunks)| / 4 == Quarters(chunks) + 3 * k / 4
  {
    CopiesCount(k, "abcd");
    CopiesCount(k, "abc");
    assert |Copies(k, "abcd")| == k && |Copies(k, "abc")| == k;
    assert |Concat(Copies(k, "abcd"))| / 4 == Quarters(Copies(k, "abcd"));
    assert |Concat(Copies(k, "abc"))| / 4 == Quarters(Copies(k, "abc")) + 3 * k / 4;
  }

  /** A message's content: plain text, parts of which some carry text, or any other
      JSON value, which is used in its encoding. */
  datatype Part = TextPart(text: string) | OtherPart
  datatype Content = Plain(text: string) | Parts(parts: seq<Part>) | Other(encoded: string)
  datatype Message = Message(role: string, content: Content)

  function PartTexts(parts: seq<Part>): seq<string>
    decreases |parts|
  {
    if parts == [] then []
    else PartTexts(parts[..|parts| - 1]) + if parts[|parts| - 1].TextPart? then [parts[|parts| - 1].text] else []
  }

  function TextOf(c: Content): string {
    match c
    case Plain(text) => text
    case Parts(parts) => Concat(PartTexts(parts))
    case Other(encoded) => encoded
  }

  lemma {:induction false} PartTextsConcat(a: seq<Part>, b: seq<Part>)
    ensures PartTexts(a + b) == PartTexts(a) + PartTexts(b)
    decreases |b|
  {
    if b == [] {
      assert a + b == a;
    } else {
      var last := b[|b| - 1];
      PrefixOfConcat(a, b);
      PartTextsConcat(a, b[..|b| - 1]);
      Regroup(PartTexts(a), PartTexts(b[..|b| - 1]), if last.TextPart? then [last.text] else []);
    }
  }

  lemma {:induction false} ConcatConcat(a: seq<string>, b: seq<string>)
    ensures Concat(a + b) == Concat(a) + Concat(b) && Quarters(a + b) == Quarters(a) + Quarters(b)
    decreases |b|
  {
    if b == [] {
      assert a + b == a;
    } else {
      PrefixOfConcat(a, b);
      ConcatConcat(a, b[..|b| - 1]);
      Regroup(Concat(a), Concat(b[..|b| - 1]), b[|b| - 1]);
    }
  }

  /** The text of parts is put together in their order, from the texts alone. */
  lemma PartsExactly(a: seq<Part>, b: seq<Part>, text: string)
    ensures TextOf(Parts(a + b)) == TextOf(Parts(a)) + TextOf(Parts(b))
    ensures TextOf(Parts([TextPart(text)])) == text && TextOf(Parts([OtherPart])) == ""
  {
    PartTextsConcat(a, b);
    ConcatConcat(PartTexts(a), PartTexts(b));
    assert [TextPart(text)][..0] == [] && [OtherPart][..0] == [];
    assert PartTexts([TextPart(text)]) == [text] && PartTexts([OtherPart]) == [];
    ConcatSnoc([], text);
    assert [] + [text] == [text];
  }

  /** The piecewise count adds up piece by piece, a quarter of each rounded down. */
  lemma QuartersExactly(a: seq<string>, b: seq<string>, piece: string)
    ensures Quarters(a + b) == Quarters(a) + Quarters(b) && Quarters([piece]) == |piece| / 4 && Quarters([]) == 0
  {
    ConcatConcat(a, b);
    assert [piece][..0] == [];
  }

  method MessageText(c: Content) returns (text: string)
    ensures text == TextOf(c)
  {
    match c
    case Plain(t) => return t;
    case Other(encoded) => return encoded;
    case Parts(parts) =>
      text := "";
      for k := 0 to |parts|
        invariant text == Concat(PartTexts(parts[..k]))
      {
        assert parts[..k + 1][..k] == parts[..k];
        match parts[k]
        case TextPart(t) =>
          assert (PartTexts(parts[..k]) + [t])[..|PartTexts(parts[..k])|] == PartTexts(parts[..k]);
          text := text + t;
        case OtherPart =>
          assert PartTexts(parts[..k + 1]) == PartTexts(parts[..k]);
      }
      assert parts[..|parts|] == parts;
  }

  function Texts(msgs: seq<Message>): seq<string> {
    seq(|msgs|, i requires 0 <= i < |msgs| => TextOf(msgs[i].content))
  }

  method EstimateTokens(msgs: seq<Message>) returns (n: nat)
    ensures n == if Quarters(Texts(msgs)) < 1 then 1 else Quarters(Texts(msgs))
  {
    n := 0;
    for k := 0 to |msgs|
      invariant n == Quarters(Texts(msgs[..k]))
    {
      assert Texts(msgs[..k + 1])[..k] == Texts(msgs[..k]);
      var text := MessageText(msgs[k].content);
      n := n + |text| / 4;
    }
    assert msgs[..|msgs|] == msgs;
    if n < 1 {
      n := 1;
    }
  }

  /** The prompt estimate never exceeds a quarter of the whole prompt, unless the prompt
      is too short for one token, and falls short by at most three quarters a message. */
  lemma EstimateBound(msgs: seq<Message>)
    ensures
      var total := |Concat(Texts(msgs))|;
      var n := if Quarters(Texts(msgs)) < 1 then 1 else Quarters(Texts(msgs));
      && (n <= total / 4 <==> total >= 4)
      && total / 4 <= n + 3 * |msgs| / 4
  {
    QuartersRemainder(Texts(msgs));
    StreamedVersusBuffered(Texts(msgs));
  }

  datatype Turn = Turn(role: string, content: string)

  /** The system texts, each followed by a newline. */
  function SystemLines(msgs: seq<Message>): string
    decreases |msgs|
  {
    if msgs == [] then ""
    else
      var m := msgs[|msgs| - 1];
      SystemLines(msgs[..|msgs| - 1]) + if m.role == "system" then TextOf(m.content) + "\n" else ""
  }

  function Turns(msgs: seq<Message>): seq<Turn>
    decreases |msgs|
  {
    if msgs == [] then []
    else
      var m := msgs[|msgs| - 1];
      Turns(msgs[..|msgs| - 1])
      + if m.role == "system" then [] else [Turn(if m.role == "assistant" then "assistant" else "user", TextOf(m.content))]
  }

  method SplitAnthropicMessages(msgs: seq<Message>) returns (system: string, out: seq<Turn>)
    ensures system == TrimSpace(SystemLines(msgs))
    ensures out == Turns(msgs)
  {
    system, out := "", [];
    for k := 0 to |msgs|
      invariant system == SystemLines(msgs[..k]) && out == Turns(msgs[..k])
    {
      assert msgs[..k + 1][..k] == msgs[..k];
      var text := MessageText(msgs[k].content);
      if msgs[k].role == "system" {
        system := system + text + "\n";
        assert SystemLines(msgs[..k]) + (text + "\n") == SystemLines(msgs[..k]) + text + "\n";
        continue;
      }
      var role := msgs[k].role;
      if role != "assistant" {
        role := "user";
      }
      out := out + [Turn(role, text)];
    }
    assert msgs[..|msgs|] == msgs;
    system := TrimSpace(system);
  }

  function Contents(turns: seq<Turn>): seq<string> {
    seq(|turns|, i requires 0 <= i < |turns| => turns[i].content)
  }

  lemma ConcatSnoc(chunks: seq<string>, last: string)
    ensures Concat(chunks + [last]) == Concat(chunks) + last
  {
    assert (chunks + [last])[..|chunks|] == chunks;
  }

  /** The messages for which p holds, in order. */
  function Select(msgs: seq<Message>, p: Message -> bool): seq<Message>
    decreases |msgs|
  {
    if msgs == [] then []
    else Select(msgs[..|msgs| - 1], p) + if p(msgs[|msgs| - 1]) then [msgs[|msgs| - 1]] else []
  }

  predicate IsSystem(m: Message) {
    m.role == "system"
  }

  predicate IsOther(m: Message) {
    !IsSystem(m)
  }

  lemma {:induction false} SelectPartitions(msgs: seq<Message>)
    ensures multiset(msgs) == multiset(Select(msgs, IsSystem)) + multiset(Select(msgs, IsOther))
    decreases |msgs|
  {
    if msgs != [] {
      assert msgs == msgs[..|msgs| - 1] + [msgs[|msgs| - 1]];
      SelectPartitions(msgs[..|msgs| - 1]);
    }
  }

  lemma TextsSnoc(msgs: seq<Message>, m: Message)
    ensures Texts(msgs + [m]) == Texts(msgs) + [TextOf(m.content)]
  {
  }

  lemma ContentsSnoc(turns: seq<Turn>, t: Turn)
    ensures Contents(turns + [t]) == Contents(turns) + [t.content]
  {
  }

  lemma {:induction false} TurnsAreOthers(msgs: seq<Message>)
    ensures
      var others := Select(msgs, IsOther);
      && Contents(Turns(msgs)) == Texts(others)
      && |Turns(msgs)| == |others|
      && forall i | 0 <= i < |others| :: Turns(msgs)[i].role == if others[i].role == "assistant" then "assistant" else "user"
    decreases |msgs|
  {
    if msgs != [] {
      var before, m := msgs[..|msgs| - 1], msgs[|msgs| - 1];
      TurnsAreOthers(before);
      if m.role == "system" {
        assert Turns(msgs) == Turns(before) && Select(msgs, IsOther) == Select(before, IsOther);
      } else {
        ContentsSnoc(Turns(before), Turn(if m.role == "assistant" then "assistant" else "user", TextOf(m.content)));
        TextsSnoc(Select(before, IsOther), m);
      }
    }
  }

  function WithNewlines(texts: seq<string>): seq<string> {
    seq(|texts|, i requires 0 <= i < |texts| => texts[i] + "\n")
  }

  lemma LinesSnoc(texts: seq<string>, text: string)
    ensures Concat(WithNewlines(texts + [text])) == Concat(WithNewlines(texts)) + (text + "\n")
  {
    assert WithNewlines(texts + [text]) == WithNewlines(texts) + [text + "\n"];
    ConcatSnoc(WithNewlines(texts), text + "\n");
  }

  lemma {:induction false} SystemLinesAreSystem(msgs: seq<Message>)
    ensures SystemLines(msgs) == Concat(WithNewlines(Texts(Select(msgs, IsSystem))))
    decreases |msgs|
  {
    if msgs != [] {
      var before, m := msgs[..|msgs| - 1], msgs[|msgs| - 1];
      SystemLinesAreSystem(before);
      if m.role == "system" {
        TextsSnoc(Select(before, IsSystem), m);
        LinesSnoc(Texts(Select(before, IsSystem)), TextOf(m.content));
      } else {
        assert SystemLines(msgs) == SystemLines(before) && Select(msgs, IsSystem) == Select(before, IsSystem);
      }
    }
  }

  lemma {:induction false} SelectHolds(msgs: seq<Message>, p: Message -> bool)
    ensures forall m | m in Select(msgs, p) :: p(m)
    decreases |msgs|
  {
    if msgs != [] { SelectHolds(msgs[..|msgs| - 1], p); }
  }

  /** Splitting conserves the texts: those of the system messages become the lines of the
      system text, those of all other messages the turns, each in order and in its role,
      and every message is one or the other. */
  lemma SplitConserves(msgs: seq<Message>)
    ensures
      var systems, others := Select(msgs, IsSystem), Select(msgs, IsOther);
      && multiset(msgs) == multiset(systems) + multiset(others)
      && (forall m | m in systems :: m.role == "system") && (forall m | m in others :: m.role != "system")
      && SystemLines(msgs) == Concat(WithNewlines(Texts(systems)))
      && Contents(Turns(msgs)) == Texts(others) && |Turns(msgs)| == |others|
      && forall i | 0 <= i < |others| :: Turns(msgs)[i].role == if others[i].role == "assistant" then "assistant" else "user"
  {
    SelectPartitions(msgs);
    SelectHolds(msgs, IsSystem);
    SelectHolds(msgs, IsOther);
    SystemLinesAreSystem(msgs);
    TurnsAreOthers(msgs);
  }

  lemma {:induction false} TurnsConcat(a: seq<Message>, b: seq<Message>)
    ensures Turns(a + b) == Turns(a) + Turns(b)
    decreases |b|
  {
    if b == [] {
      assert a + b == a;
    } else {
      var before, m := b[..|b| - 1], b[|b| - 1];
      PrefixOfConcat(a, b);
      TurnsConcat(a, before);
      Regroup(Turns(a), Turns(before),
        if m.role == "system" then [] else [Turn(if m.role == "assistant" then "assistant" else "user", TextOf(m.content))]);
    }
  }

  lemma {:induction false} SystemLinesConcat(a: seq<Message>, b: seq<Message>)
    ensures SystemLines(a + b) == SystemLines(a) + SystemLines(b)
    decreases |b|
  {
    if b == [] {
      assert a + b == a;
    } else {
      var before, m := b[..|b| - 1], b[|b| - 1];
      PrefixOfConcat(a, b);
      SystemLinesConcat(a, before);
      Regroup(SystemLines(a), SystemLines(before), if m.role == "system" then TextOf(m.content) + "\n" else "");
    }
  }

  /** Splitting goes message by message: order is kept on both sides. */
  lemma SplitConcat(a: seq<Message>, b: seq<Message>)
    ensures Turns(a + b) == Turns(a) + Turns(b)
    ensures SystemLines(a + b) == SystemLines(a) + SystemLines(b)
  {
    TurnsConcat(a, b);
    SystemLinesConcat(a, b);
  }
}
