/** Redaction of a whole request: the messages are rewritten in place, one by one. */
module ChatRedaction {
  import R = Redaction
  import RedactionRules
  import NationalId
  import opened TokenCount

  /** JSON encoding of content that is a list of parts. */
  type Marshal = Content -> string

  function AsString(marshal: Marshal, c: Content): string {
    match c
    case Plain(text) => text
    case Parts(_) => marshal(c)
    case Other(encoded) => encoded
  }

  // ---------- Merging category lists ----------

  predicate NoDuplicates(s: seq<string>) {
    forall i, j | 0 <= i < j < |s| :: s[i] != s[j]
  }

  /** The new categories in the order in which they first appear. */
  method MergeCategories(existing: seq<string>, add: seq<string>) returns (merged: seq<string>)
    ensures existing <= merged
    ensures forall c :: c in merged <==> c in existing || c in add
    ensures NoDuplicates(existing) ==> NoDuplicates(merged)
    ensures NoDuplicates(merged[|existing|..]) && forall c | c in merged[|existing|..] :: c !in existing && c in add
  {
    merged := existing;
    var seen := set c | c in existing;
    for k := 0 to |add|
      invariant existing <= merged && seen == set c | c in merged
      invariant forall c :: c in merged <==> c in existing || c in add[..k]
      invariant NoDuplicates(existing) ==> NoDuplicates(merged)
      invariant NoDuplicates(merged[|existing|..])
      invariant forall c | c in merged[|existing|..] :: c !in existing && c in add[..k]
    {
      assert add[..k + 1] == add[..k] + [add[k]];
      if add[k] !in seen {
        assert (merged + [add[k]])[|existing|..] == merged[|existing|..] + [add[k]];
        merged := merged + [add[k]];
        seen := seen + {add[k]};
      }
    }
    assert add[..|add|] == add;
  }

  ghost predicate Lists(l: seq<string>, categories: set<string>) {
    NoDuplicates(l) && forall c :: c in l <==> c in categories
  }

  lemma ListsOneMore(l: seq<string>, categories: set<string>, c: string)
    requires Lists(l, categories) && c !in categories
    ensures Lists(l + [c], categories + {c})
  {
    assert c !in l;
  }

  /** A result lists its categories in an order that the language does not fix. */
  method Listing(categories: set<string>) returns (l: seq<string>)
    ensures Lists(l, categories)
  {
    l := [];
    var rest := categories;
    while rest != {}
      invariant rest <= categories && Lists(l, categories - rest)
      decreases |rest|
    {
      var c :| c in rest;
      ListsOneMore(l, categories - rest, c);
      assert categories - rest + {c} == categories - (rest - {c});
      l := l + [c];
      rest := rest - {c};
    }
    assert categories - rest == categories;
  }

  // ---------- What redaction makes of a request ----------

  ghost function Report(rules: seq<R.Rule>, marshal: Marshal, m: Message): R.Result
    requires R.RulesOk(rules)
  {
    R.Redacted(true, rules, AsString(marshal, m.content))
  }

  ghost function RedactedMessage(rules: seq<R.Rule>, marshal: Marshal, m: Message): Message
    requires R.RulesOk(rules)
  {
    var got := Report(rules, marshal, m);
    if got.count > 0 then m.(content := Plain(got.content)) else m
  }

  ghost function RedactedMessages(rules: seq<R.Rule>, marshal: Marshal, msgs: seq<Message>): seq<Message>
    requires R.RulesOk(rules)
  {
    seq(|msgs|, i requires 0 <= i < |msgs| => RedactedMessage(rules, marshal, msgs[i]))
  }

  ghost function TotalCount(rules: seq<R.Rule>, marshal: Marshal, msgs: seq<Message>): nat
    requires R.RulesOk(rules)
    decreases |msgs|
  {
    if msgs == [] then 0
    else TotalCount(rules, marshal, msgs[..|msgs| - 1]) + Report(rules, marshal, msgs[|msgs| - 1]).count
  }

  ghost function AllCategories(rules: seq<R.Rule>, marshal: Marshal, msgs: seq<Message>): set<string>
    requires R.RulesOk(rules)
    decreases |msgs|
  {
    if msgs == [] then {}
    else AllCategories(rules, marshal, msgs[..|msgs| - 1]) + Report(rules, marshal, msgs[|msgs| - 1]).categories
  }

  lemma ReportAgrees(rules: seq<R.Rule>, marshal: Marshal, m: Message)
    requires R.RulesOk(rules)
    ensures
      var got := Report(rules, marshal, m);
      (got.count > 0 <==> got.categories != {}) && (got.count == 0 ==> got.content == AsString(marshal, m.content))
  {
    var text := AsString(marshal, m.content);
    if text != "" { R.ReportIsHonest(rules, text); }
  }

  /** What a request was redacted to, and what is reported about it. */
  ghost predicate RedactedTo(redactor: R.Engine?, marshal: Marshal, before: seq<Message>, after: seq<Message>,
                             count: nat, categories: seq<string>)
    requires redactor != null ==> R.RulesOk(redactor.rules)
  {
    if redactor == null || !redactor.enabled then after == before && count == 0 && categories == []
    else
      && after == RedactedMessages(redactor.rules, marshal, before)
      && count == TotalCount(redactor.rules, marshal, before)
      && NoDuplicates(categories)
      && forall c :: c in categories <==> c in AllCategories(redactor.rules, marshal, before)
  }

  /** The loop after i messages. */
  ghost predicate Halfway(rules: seq<R.Rule>, marshal: Marshal, before: seq<Message>, now: seq<Message>, i: nat, count: nat, categories: seq<string>)
    requires R.RulesOk(rules) && i <= |before|
  {
    && now == RedactedMessages(rules, marshal, before[..i]) + before[i..]
    && count == TotalCount(rules, marshal, before[..i])
    && NoDuplicates(categories)
    && forall c :: c in categories <==> c in AllCategories(rules, marshal, before[..i])
  }

  lemma RedactedSnoc(rules: seq<R.Rule>, marshal: Marshal, msgs: seq<Message>, m: Message)
    requires R.RulesOk(rules)
    ensures RedactedMessages(rules, marshal, msgs + [m]) == RedactedMessages(rules, marshal, msgs) + [RedactedMessage(rules, marshal, m)]
  {
  }

  lemma TotalsSnoc(rules: seq<R.Rule>, marshal: Marshal, msgs: seq<Message>, m: Message)
    requires R.RulesOk(rules)
    ensures TotalCount(rules, marshal, msgs + [m]) == TotalCount(rules, marshal, msgs) + Report(rules, marshal, m).count
    ensures AllCategories(rules, marshal, msgs + [m]) == AllCategories(rules, marshal, msgs) + Report(rules, marshal, m).categories
  {
    assert (msgs + [m])[..|msgs|] == msgs;
  }

  lemma Overwrite<X>(done: seq<X>, rest: seq<X>, x: X)
    requires rest != []
    ensures (done + rest)[|done|] == rest[0] && (done + rest)[|done| := x] == done + [x] + rest[1..]
  {
  }

  lemma OneMore(rules: seq<R.Rule>, marshal: Marshal, before: seq<Message>, now: seq<Message>, i: nat)
    requires R.RulesOk(rules) && i < |before| && now == RedactedMessages(rules, marshal, before[..i]) + before[i..]
    ensures now[i] == before[i]
    ensures now[i := RedactedMessage(rules, marshal, before[i])] == RedactedMessages(rules, marshal, before[..i + 1]) + before[i + 1..]
    ensures TotalCount(rules, marshal, before[..i + 1]) == TotalCount(rules, marshal, before[..i]) + Report(rules, marshal, before[i]).count
    ensures AllCategories(rules, marshal, before[..i + 1]) == AllCategories(rules, marshal, before[..i]) + Report(rules, marshal, before[i]).categories
  {
    assert before[..i + 1] == before[..i] + [before[i]] && before[i..][1..] == before[i + 1..];
    RedactedSnoc(rules, marshal, before[..i], before[i]);
    TotalsSnoc(rules, marshal, before[..i], before[i]);
    Overwrite(RedactedMessages(rules, marshal, before[..i]), before[i..], RedactedMessage(rules, marshal, before[i]));
  }

  lemma HalfwayStarts(rules: seq<R.Rule>, marshal: Marshal, before: seq<Message>)
    requires R.RulesOk(rules)
    ensures Halfway(rules, marshal, before, before, 0, 0, [])
  {
    assert before[..0] == [] && before[0..] == before;
    assert RedactedMessages(rules, marshal, []) == [];
    assert [] + before == before;
  }

  lemma HalfwayHead(rules: seq<R.Rule>, marshal: Marshal, before: seq<Message>, now: seq<Message>, i: nat, count: nat, categories: seq<string>)
    requires R.RulesOk(rules) && i < |before| && Halfway(rules, marshal, before, now, i, count, categories)
    ensures |now| == |before| && now[i] == before[i]
  {
    OneMore(rules, marshal, before, now, i);
  }

  lemma HalfwayEnds(rules: seq<R.Rule>, marshal: Marshal, before: seq<Message>, now: seq<Message>, count: nat, categories: seq<string>)
    requires R.RulesOk(rules) && Halfway(rules, marshal, before, now, |before|, count, categories)
    ensures now == RedactedMessages(rules, marshal, before) && count == TotalCount(rules, marshal, before)
    ensures NoDuplicates(categories) && forall c :: c in categories <==> c in AllCategories(rules, marshal, before)
  {
    assert before[..|before|] == before && before[|before|..] == [];
    assert RedactedMessages(rules, marshal, before) + [] == RedactedMessages(rules, marshal, before);
  }

  /** One more message done: rewritten if it had hits, its categories merged. */
  lemma HalfwayStep(rules: seq<R.Rule>, marshal: Marshal, before: seq<Message>, now: seq<Message>, i: nat, count: nat,
                    categories: seq<string>, merged: seq<string>)
    requires R.RulesOk(rules) && i < |before| && Halfway(rules, marshal, before, now, i, count, categories)
    requires NoDuplicates(merged)
    requires forall c :: c in merged <==> c in categories || c in Report(rules, marshal, before[i]).categories
    ensures now[i] == before[i]
    ensures Halfway(rules, marshal, before, now[i := RedactedMessage(rules, marshal, before[i])], i + 1,
                    count + Report(rules, marshal, before[i]).count, merged)
  {
    OneMore(rules, marshal, before, now, i);
  }

  method ApplyRedaction(redactor: R.Engine?, marshal: Marshal, messages: array<Message>) returns (count: nat, categories: seq<string>)
    requires redactor != null ==> R.RulesOk(redactor.rules)
    modifies messages
    ensures RedactedTo(redactor, marshal, old(messages[..]), messages[..], count, categories)
  {
    count, categories := 0, [];
    if redactor == null || !redactor.enabled {
      return;
    }
    ghost var before := messages[..];
    ghost var rules := redactor.rules;
    HalfwayStarts(rules, marshal, before);
    for i := 0 to messages.Length
      invariant Halfway(rules, marshal, before, messages[..], i, count, categories)
    {
      HalfwayHead(rules, marshal, before, messages[..], i, count, categories);
      ReportAgrees(rules, marshal, before[i]);
      ghost var now, had := messages[..], categories;
      var text := AsString(marshal, messages[i].content);
      var got := redactor.Redact(text);
      if got.count > 0 {
        messages[i] := messages[i].(content := Plain(got.content));
        var listed := Listing(got.categories);
        categories := MergeCategories(categories, listed);
      }
      HalfwayStep(rules, marshal, before, now, i, count, had, categories);
      count := count + got.count;
      assert messages[..] == now[i := RedactedMessage(rules, marshal, before[i])];
    }
    HalfwayEnds(rules, marshal, before, messages[..], count, categories);
  }

  /** Nothing is counted exactly when nothing is listed, and then nothing changed. */
  lemma {:induction false} NothingCounted(rules: seq<R.Rule>, marshal: Marshal, msgs: seq<Message>)
    requires R.RulesOk(rules)
    ensures TotalCount(rules, marshal, msgs) == 0 <==> AllCategories(rules, marshal, msgs) == {}
    ensures TotalCount(rules, marshal, msgs) == 0 ==> forall m | m in msgs :: RedactedMessage(rules, marshal, m) == m
    decreases |msgs|
  {
    if msgs != [] {
      var n := |msgs| - 1;
      assert msgs == msgs[..n] + [msgs[n]];
      NothingCounted(rules, marshal, msgs[..n]);
      ReportAgrees(rules, marshal, msgs[n]);
    }
  }

  /** Count, order and roles stay; messages without a hit stay altogether, and the
      request stays as it was exactly when nothing is reported. */
  lemma RedactionKeepsShape(rules: seq<R.Rule>, marshal: Marshal, msgs: seq<Message>)
    requires R.RulesOk(rules)
    ensures
      var out := RedactedMessages(rules, marshal, msgs);
      && |out| == |msgs| && (forall i | 0 <= i < |msgs| :: out[i].role == msgs[i].role)
      && (forall i | 0 <= i < |msgs| && Report(rules, marshal, msgs[i]).count == 0 :: out[i] == msgs[i])
      && (TotalCount(rules, marshal, msgs) == 0 ==> out == msgs)
      && (TotalCount(rules, marshal, msgs) == 0 <==> AllCategories(rules, marshal, msgs) == {})
  {
    NothingCounted(rules, marshal, msgs);
  }

  /** What the caller of the redaction gets: every message's searched string is what the
      engine makes of it, in a message that is untouched when there was no hit and plain
      text when there was; the counts and categories reported are those of the engine,
      message by message. */
  lemma RewrittenExactly(redactor: R.Engine, marshal: Marshal, before: seq<Message>, after: seq<Message>, count: nat, categories: seq<string>,
                         i: nat)
    requires R.RulesOk(redactor.rules) && redactor.enabled && i < |before|
    requires RedactedTo(redactor, marshal, before, after, count, categories)
    ensures |after| == |before| && after[i].role == before[i].role
    ensures
      var out := R.Redacted(true, redactor.rules, AsString(marshal, before[i].content));
      && AsString(marshal, after[i].content) == out.content
      && (out.count > 0 ==> after[i].content == Plain(out.content))
      && (out.count == 0 ==> after[i] == before[i])
  {
    ReportAgrees(redactor.rules, marshal, before[i]);
  }

  /** A switched-off or missing redactor changes and reports nothing. */
  lemma OffExactly(redactor: R.Engine?, marshal: Marshal, before: seq<Message>, after: seq<Message>, count: nat, categories: seq<string>)
    requires redactor != null ==> R.RulesOk(redactor.rules) && !redactor.enabled
    requires RedactedTo(redactor, marshal, before, after, count, categories)
    ensures after == before && count == 0 && categories == []
  {
  }

  /** The reported totals, built up one message at a time from the engine's results. */
  lemma TotalsExactly(rules: seq<R.Rule>, marshal: Marshal, msgs: seq<Message>, m: Message)
    requires R.RulesOk(rules)
    ensures TotalCount(rules, marshal, []) == 0 && AllCategories(rules, marshal, []) == {}
    ensures
      var out := R.Redacted(true, rules, AsString(marshal, m.content));
      && TotalCount(rules, marshal, msgs + [m]) == TotalCount(rules, marshal, msgs) + out.count
      && AllCategories(rules, marshal, msgs + [m]) == AllCategories(rules, marshal, msgs) + out.categories
  {
    TotalsSnoc(rules, marshal, msgs, m);
  }

  /** With the default rules, no message of the rewritten request holds a national ID
      in the string that was searched: the text itself for plain content. */
  lemma RedactedRequestIsClean(categories: seq<string>, p: RedactionRules.Patterns, marshal: Marshal, msgs: seq<Message>, i: nat, j: nat)
    requires RedactionRules.PatternsOk(p) && (categories == [] || "national_id" in categories)
    requires i < |msgs|
    ensures R.RulesOk(RedactionRules.EngineRules(categories, p))
    ensures
      var m := RedactedMessages(RedactionRules.EngineRules(categories, p), marshal, msgs)[i];
      !NationalId.IdAt(AsString(marshal, m.content), j) && (m.content.Plain? ==> !NationalId.IdAt(TextOf(m.content), j))
  {
    var text := AsString(marshal, msgs[i].content);
    RedactionRules.EngineGuarantees(true, categories, p, text);
    ReportAgrees(RedactionRules.EngineRules(categories, p), marshal, msgs[i]);
  }

  // ---------- When the text itself is clean ----------

  ghost predicate HasId(s: string) {
    exists j: nat :: NationalId.IdAt(s, j)
  }

  /** Exactly when the text of a rewritten message still holds a national ID: it is
      structured content whose text held one and whose encoding had no hit at all. */
  lemma TextKeepsIdExactly(categories: seq<string>, p: RedactionRules.Patterns, marshal: Marshal, m: Message)
    requires RedactionRules.PatternsOk(p) && (categories == [] || "national_id" in categories)
    ensures R.RulesOk(RedactionRules.EngineRules(categories, p))
    ensures
      var rules := RedactionRules.EngineRules(categories, p);
      HasId(TextOf(RedactedMessage(rules, marshal, m).content)) <==>
        m.content.Parts? && HasId(TextOf(m.content)) && Report(rules, marshal, m).count == 0
  {
    var text := AsString(marshal, m.content);
    var rules := RedactionRules.EngineRules(categories, p);
    RedactionRules.EngineGuarantees(true, categories, p, text);
    ReportAgrees(rules, marshal, m);
    assert !HasId(Report(rules, marshal, m).content);
  }

  /** With the national-ID rule alone there is a hit exactly when the string searched
      holds an ID: the text keeps one exactly when it is that of structured content, holds
      one, and the encoding holds none. */
  lemma HitExactly(p: RedactionRules.Patterns, marshal: Marshal, m: Message)
    requires RedactionRules.PatternsOk(p)
    ensures RedactionRules.EngineRules(["national_id"], p) == [NationalId.RULE] && R.RulesOk([NationalId.RULE])
    ensures Report([NationalId.RULE], marshal, m).count == 0 <==> !HasId(AsString(marshal, m.content))
    ensures HasId(TextOf(RedactedMessage([NationalId.RULE], marshal, m).content)) <==>
      m.content.Parts? && HasId(TextOf(m.content)) && !HasId(marshal(m.content))
  {
    NationalId.RuleIsOk();
    RedactionRules.OneRuleEngine("national_id", p, 6);
    TextKeepsIdExactly(["national_id"], p, marshal, m);
    var text := AsString(marshal, m.content);
    if text != "" {
      NationalHits(text);
    }
  }

  lemma NationalHits(s: string)
    requires R.RulesOk([NationalId.RULE]) && s != ""
    ensures R.Redacted(true, [NationalId.RULE], s).count == 0 <==> !HasId(s)
  {
    var rules := [NationalId.RULE];
    assert rules[..0] == [] && rules[0] == NationalId.RULE;
    assert R.RunRules(rules[..0], s) == R.Result(s, 0, {});
    assert R.RunRules(rules, s).count == R.Hits(NationalId.RULE, s);
    FoundExactly(s);
  }

  lemma FoundExactly(s: string)
    requires R.RuleOk(NationalId.RULE)
    ensures R.Hits(NationalId.RULE, s) == 0 <==> !HasId(s)
  {
    match NationalId.First(s, 0)
    case None =>
      assert NationalId.RULE.find(s) == [];
    case Some(i) =>
      assert NationalId.IdAt(s, i);
      NationalId.FindFromStep(s, 0);
      assert R.Accepts(NationalId.RULE, s[i..i + 11]);
  }

  const ESCAPED := "[{\"text\":\"\\n123-45-6789\",\"type\":\"text\"}]"
  const UNESCAPED := "\n123-45-6789"

  /** Such content exists.  The escape of a line break ends in a letter, so that an ID at
      the start of a line is not word-bounded in the encoding: the message is left as it
      was, and its text still holds the ID. */
  lemma EscapeHidesId(p: RedactionRules.Patterns, marshal: Marshal, role: string)
    requires RedactionRules.PatternsOk(p) && marshal(Parts([TextPart(UNESCAPED)])) == ESCAPED
    ensures R.RulesOk(RedactionRules.EngineRules(["national_id"], p))
    ensures
      var m := Message(role, Parts([TextPart(UNESCAPED)]));
      var after := RedactedMessage(RedactionRules.EngineRules(["national_id"], p), marshal, m);
      after == m && HasId(TextOf(after.content))
  {
    var m := Message(role, Parts([TextPart(UNESCAPED)]));
    HitExactly(p, marshal, m);
    OneTextPart(UNESCAPED);
    NoIdInEscaped();
    IdInUnescaped();
  }

  lemma OneTextPart(text: string)
    ensures TextOf(Parts([TextPart(text)])) == text
  {
    var parts := [TextPart(text)];
    assert parts[..0] == [];
    assert PartTexts(parts) == [text];
    assert [text][..0] == [];
    assert Concat([text]) == "" + text;
  }

  lemma NoIdInEscaped()
    ensures !HasId(ESCAPED)
  {
    EscapedNowhere();
  }

  lemma EscapedNowhere()
    ensures forall j: nat :: !NationalId.IdAt(ESCAPED, j)
  {
    forall j: nat ensures !NationalId.IdAt(ESCAPED, j) {
      assert ESCAPED[11] == 'n' && ESCAPED[12] == '1';
      assert NationalId.DashAt(ESCAPED, j + 3) ==> j + 3 == 15 || j + 3 == 18;
      assert NationalId.WordAt(ESCAPED, 11) && NationalId.WordAt(ESCAPED, 12);
    }
  }

  lemma IdInUnescaped()
    ensures HasId(UNESCAPED)
  {
    assert NationalId.IdAt(UNESCAPED, 1);
  }
}
