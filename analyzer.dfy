/** The deterministic parts of the background analysis job: reading a step
    record's transcript, flattening it into conversation text, accepting or
    replacing the model's structured judgment, and the session summary's
    empty case and statistical fallback. The hosted model is a parameter:
    a function from what it is shown to what its output parses to, `None`
    when the call or the parse fails. */
module Analyzer {
  import opened Wrappers
  import opened Text

  // ---------------------------------------------------------------------
  // Transcripts
  // ---------------------------------------------------------------------

  datatype Message = Message(role: String, content: String)

  /** A stored transcript: text, or an already structured message list. */
  datatype Transcript = TextTranscript(text: String) | MessageList(messages: seq<Message>)

  /** The plaintext reading of one transcript line: the part before the
      first ": " is the role and the parts after it, rejoined with ": ",
      are the content; a line without ": " is a system message. */
  function NormalizeLine(line: String): Message {
    var parts := Split(line, ": ");
    if |parts| >= 2 then Message(Trim(parts[0]), Trim(Join(parts[1..], ": ")))
    else Message("system", Trim(line))
  }

  /** A line is cut at the first ": ": the role is the trimmed text before
      it and the content the trimmed text after it; without ": " the role
      is "system" and the content the trimmed line. */
  lemma NormalizeLineCut(line: String)
    ensures IndexOf(line, ": ").Some? ==>
      var i := IndexOf(line, ": ").value;
      NormalizeLine(line) == Message(Trim(line[..i]), Trim(line[i + 2..]))
    ensures IndexOf(line, ": ").None? ==> NormalizeLine(line) == Message("system", Trim(line))
  {
    SplitAtFirst(line, ": ");
  }

  /** The plaintext fallback of `analyzeStepRecord`: one message per
      line-feed separated line. */
  function NormalizePlaintext(text: String): (messages: seq<Message>)
    ensures |messages| == |Split(text, "\n")|
    ensures forall i :: 0 <= i < |messages| ==> messages[i] == NormalizeLine(Split(text, "\n")[i])
  {
    var lines := Split(text, "\n");
    seq(|lines|, i requires 0 <= i < |lines| => NormalizeLine(lines[i]))
  }

  /** The message list of a record: a structured transcript as it is; a text
      transcript as `JSON.parse` reads it, or, when that throws (`None`), by
      the plaintext reading. */
  function NormalizeTranscript(t: Transcript, jsonParse: String -> Option<seq<Message>>): seq<Message> {
    match t
    case MessageList(messages) => messages
    case TextTranscript(text) =>
      match jsonParse(text)
      case Some(messages) => messages
      case None => NormalizePlaintext(text)
  }

  /** "role: content" for one message. */
  function MessageLine(m: Message): String {
    m.role + ": " + m.content
  }

  /** The conversation text shown to the model: one "role: content" line per
      message, joined by line feeds. */
  function ConversationText(messages: seq<Message>): String {
    Join(seq(|messages|, i requires 0 <= i < |messages| => MessageLine(messages[i])), "\n")
  }

  /** A message that the plaintext reading gives back unchanged: no line
      feeds, no ": " inside the role, and nothing to trim. */
  predicate Plain(m: Message) {
    '\n' !in m.role && '\n' !in m.content && !Contains(m.role, ": ")
    && Trim(m.role) == m.role && Trim(m.content) == m.content
  }

  /** No ": " starts on the last character of the role, since the role is
      followed by a colon. */
  lemma NoSeparatorStraddles(m: Message)
    ensures !OccursAt(MessageLine(m), ": ", |m.role| - 1)
  {
    var s := MessageLine(m);
    var n := |m.role|;
    if n > 0 {
      assert s[n] == ':';
      assert s[n - 1..n + 1][1] == s[n];
    }
  }

  /** In "role: content" a ": " follows the role. */
  lemma SeparatorAfterRole(m: Message)
    ensures OccursAt(MessageLine(m), ": ", |m.role|)
  {
    var s := MessageLine(m);
    var n := |m.role|;
    assert s[n..n + 2] == ": ";
  }

  /** No ": " starts inside a role that holds none. */
  lemma NoSeparatorInRole(m: Message)
    requires !Contains(m.role, ": ")
    ensures forall j :: 0 <= j < |m.role| ==> !OccursAt(MessageLine(m), ": ", j)
  {
    var s := MessageLine(m);
    var n := |m.role|;
    NoSeparatorStraddles(m);
    forall j | 0 <= j < n - 1 ensures !OccursAt(s, ": ", j) {
      assert s[j..j + 2] == m.role[j..j + 2];
      assert !OccursAt(m.role, ": ", j);
    }
  }

  /** In "role: content" the first ": " is the one after the role, when the
      role holds no ": ". */
  lemma FirstSeparatorAfterRole(m: Message)
    requires !Contains(m.role, ": ")
    ensures IndexOf(MessageLine(m), ": ") == Some(|m.role|)
  {
    SeparatorAfterRole(m);
    NoSeparatorInRole(m);
  }

  /** The line of a message holds a line feed only if the message does. */
  lemma LineFeedFree(m: Message)
    requires '\n' !in m.role && '\n' !in m.content
    ensures '\n' !in MessageLine(m)
  {
  }

  /** The line of a plain message reads back as that message. */
  lemma PlainLine(m: Message)
    requires Plain(m)
    ensures NormalizeLine(MessageLine(m)) == m
  {
    var line := MessageLine(m);
    var i := |m.role|;
    FirstSeparatorAfterRole(m);
    NormalizeLineCut(line);
    assert line[..i] == m.role;
    assert line[i + 2..] == m.content;
  }

  /** Flattening a non-empty list of plain messages and reading the text back
      as a plaintext transcript gives the same messages; an empty list
      reads back as one empty `system` message. */
  lemma NormalizeFlattened(messages: seq<Message>)
    requires forall m :: m in messages ==> Plain(m)
    ensures messages != [] ==> NormalizePlaintext(ConversationText(messages)) == messages
    ensures messages == [] ==> NormalizePlaintext(ConversationText(messages)) == [Message("system", [])]
  {
    if messages == [] {
      SplitJoinEmpty('\n');
      assert Split([], ": ") == [[]];
      assert Trim([]) == [];
      return;
    }
    var lines := seq(|messages|, i requires 0 <= i < |messages| => MessageLine(messages[i]));
    forall i | 0 <= i < |messages| ensures '\n' !in lines[i] && NormalizeLine(lines[i]) == messages[i] {
      assert messages[i] in messages;
      LineFeedFree(messages[i]);
      PlainLine(messages[i]);
    }
    SplitJoin(lines, '\n');
  }

  // ---------------------------------------------------------------------
  // Per-record judgment
  // ---------------------------------------------------------------------

  /** The analysis job's view of a step record joined with its question. */
  datatype StepInput = StepInput(
    stepRecordId: String,
    preferredAnswer: Option<String>,
    transcript: Transcript,
    questionPairId: String,
    questionText: String,
    answerA: String,
    answerB: String)

  /** The fields the model's output parses to, before the schema's checks. */
  datatype RawJudgment = RawJudgment(
    winner: String,
    severity: real,
    rationale: String,
    knowledgeGaps: seq<String>,
    promptSuggestions: seq<String>)

  datatype AnalysisResult = AnalysisResult(
    winnerFlag: String,
    severityScore: real,
    rationaleDigest: String,
    knowledgeGaps: seq<String>,
    promptSuggestions: seq<String>)

  /** What the output schema admits: a winner among A, B and TIED and a
      severity in [0, 1]. */
  predicate SchemaValid(r: AnalysisResult) {
    (r.winnerFlag == "A" || r.winnerFlag == "B" || r.winnerFlag == "TIED")
    && 0.0 <= r.severityScore <= 1.0
  }

  /** The schema check of the structured-output parser: a judgment is
      accepted, field for field, exactly when the schema admits it. */
  function AcceptJudgment(raw: RawJudgment): (r: Option<AnalysisResult>)
    ensures r.Some? <==> (raw.winner == "A" || raw.winner == "B" || raw.winner == "TIED") && 0.0 <= raw.severity <= 1.0
    ensures r.Some? ==> SchemaValid(r.value)
    ensures r.Some? ==> r.value == AnalysisResult(raw.winner, raw.severity, raw.rationale, raw.knowledgeGaps, raw.promptSuggestions)
  {
    var result := AnalysisResult(raw.winner, raw.severity, raw.rationale, raw.knowledgeGaps, raw.promptSuggestions);
    if SchemaValid(result) then Some(result) else None
  }

  /** The judgment recorded when the model call or its parse fails. */
  function FallbackResult(preferredAnswer: Option<String>): AnalysisResult {
    AnalysisResult(preferredAnswer.GetOr("TIED"), 0.5, "Analysis failed due to an error.",
                   ["Analysis error"], ["Retry analysis"])
  }

  /** The fallback copies the expert's choice, or TIED without one; it has
      severity 0.5, the fixed rationale and one gap and one suggestion; and
      it passes the schema whenever the recorded choice is A, B or absent. */
  lemma FallbackShape(preferredAnswer: Option<String>)
    ensures FallbackResult(preferredAnswer).winnerFlag == if preferredAnswer.Some? then preferredAnswer.value else "TIED"
    ensures FallbackResult(preferredAnswer).severityScore == 0.5
    ensures FallbackResult(preferredAnswer).rationaleDigest == "Analysis failed due to an error."
    ensures |FallbackResult(preferredAnswer).knowledgeGaps| == 1 && |FallbackResult(preferredAnswer).promptSuggestions| == 1
    ensures preferredAnswer in {None, Some("A"), Some("B")} ==> SchemaValid(FallbackResult(preferredAnswer))
  {
  }

  /** `analyzeStepRecord`: the model sees the record and its conversation
      text; an accepted judgment is returned, anything else gives the
      fallback. */
  function AnalyzeStepRecord(record: StepInput, jsonParse: String -> Option<seq<Message>>,
                             model: (StepInput, String) -> Option<RawJudgment>): (r: AnalysisResult)
    ensures SchemaValid(r) || r == FallbackResult(record.preferredAnswer)
    ensures 0.0 <= r.severityScore <= 1.0
    ensures var raw := model(record, ConversationText(NormalizeTranscript(record.transcript, jsonParse)));
      raw.Some? && AcceptJudgment(raw.value).Some? ==> r == AcceptJudgment(raw.value).value
    ensures var raw := model(record, ConversationText(NormalizeTranscript(record.transcript, jsonParse)));
      raw.None? || AcceptJudgment(raw.value).None? ==> r == FallbackResult(record.preferredAnswer)
  {
    var conversationText := ConversationText(NormalizeTranscript(record.transcript, jsonParse));
    match model(record, conversationText)
    case None => FallbackResult(record.preferredAnswer)
    case Some(raw) =>
      match AcceptJudgment(raw)
      case Some(result) => result
      case None => FallbackResult(record.preferredAnswer)
  }

  // ---------------------------------------------------------------------
  // Frequency counts
  // ---------------------------------------------------------------------

  /** A counted gap or suggestion, `{ gap, count }` / `{ suggestion, count }`. */
  datatype Ranked = Ranked(text: String, count: nat)

  /** No text appears twice. */
  predicate DistinctTexts(entries: seq<Ranked>) {
    forall i, j :: 0 <= i < j < |entries| ==> entries[i].text != entries[j].text
  }

  /** `text` is the key of some entry. */
  predicate HasText(entries: seq<Ranked>, text: String) {
    exists k :: 0 <= k < |entries| && entries[k].text == text
  }

  /** `frequency[x] = (frequency[x] ?? 0) + 1` on a dictionary kept as its
      entries in insertion order. */
  function Bump(entries: seq<Ranked>, x: String): seq<Ranked> {
    if entries == [] then [Ranked(x, 1)]
    else if entries[0].text == x then [Ranked(x, entries[0].count + 1)] + entries[1..]
    else [entries[0]] + Bump(entries[1..], x)
  }

  /** Bumping keeps the keys and their order, adds one to the count of `x`,
      and appends `x` with count 1 when it was not a key. */
  lemma BumpSpec(entries: seq<Ranked>, x: String)
    requires DistinctTexts(entries)
    ensures var r := Bump(entries, x);
      && DistinctTexts(r)
      && |r| == (if HasText(entries, x) then |entries| else |entries| + 1)
      && (forall k :: 0 <= k < |entries| ==> r[k].text == entries[k].text)
      && (forall k :: 0 <= k < |entries| ==> r[k].count == entries[k].count + (if entries[k].text == x then 1 else 0))
      && (!HasText(entries, x) ==> r[|entries|] == Ranked(x, 1))
  {
    BumpKeys(entries, x);
    BumpCounts(entries, x);
    var r := Bump(entries, x);
    forall i, j | 0 <= i < j < |r| ensures r[i].text != r[j].text {
      if j == |entries| {
        assert entries[i].text != x;
      }
    }
  }

  /** Dropping a first entry whose key is not `x` does not change whether
      `x` is a key. */
  lemma HasTextTail(entries: seq<Ranked>, x: String)
    requires entries != [] && entries[0].text != x
    ensures HasText(entries, x) <==> HasText(entries[1..], x)
  {
    if HasText(entries, x) {
      var k :| 0 <= k < |entries| && entries[k].text == x;
      assert entries[1..][k - 1].text == x;
    }
    if HasText(entries[1..], x) {
      var k :| 0 <= k < |entries| - 1 && entries[1..][k].text == x;
      assert entries[k + 1].text == x;
    }
  }

  /** Bumping keeps every key in place and appends `x` exactly when it was
      not a key. */
  lemma {:induction false} BumpKeys(entries: seq<Ranked>, x: String)
    ensures var r := Bump(entries, x);
      && |r| == (if HasText(entries, x) then |entries| else |entries| + 1)
      && (forall k :: 0 <= k < |entries| ==> r[k].text == entries[k].text)
      && (!HasText(entries, x) ==> r[|entries|] == Ranked(x, 1))
  {
    if entries == [] {
    } else if entries[0].text == x {
      assert HasText(entries, x) by { assert entries[0].text == x; }
      forall k | 1 <= k < |entries| ensures Bump(entries, x)[k] == entries[k] {
        assert Bump(entries, x)[k] == entries[1..][k - 1];
      }
    } else {
      var tail := entries[1..];
      BumpKeys(tail, x);
      HasTextTail(entries, x);
      var r := [entries[0]] + Bump(tail, x);
      assert Bump(entries, x) == r;
      forall k | 1 <= k < |entries| ensures r[k].text == entries[k].text {
        assert r[k] == Bump(tail, x)[k - 1] && tail[k - 1] == entries[k];
      }
    }
  }

  /** With distinct keys, bumping adds one to the count of `x` only. */
  lemma {:induction false} BumpCounts(entries: seq<Ranked>, x: String)
    requires DistinctTexts(entries)
    ensures |Bump(entries, x)| >= |entries|
    ensures forall k :: 0 <= k < |entries| ==>
      Bump(entries, x)[k].count == entries[k].count + (if entries[k].text == x then 1 else 0)
  {
    if entries == [] {
    } else if entries[0].text == x {
      forall k | 1 <= k < |entries| ensures Bump(entries, x)[k] == entries[k] && entries[k].text != x {
        assert Bump(entries, x)[k] == entries[1..][k - 1];
      }
    } else {
      var tail := entries[1..];
      assert DistinctTexts(tail) by {
        forall i, j | 0 <= i < j < |tail| ensures tail[i].text != tail[j].text {
          assert tail[i] == entries[i + 1] && tail[j] == entries[j + 1];
        }
      }
      BumpCounts(tail, x);
      var r := [entries[0]] + Bump(tail, x);
      assert Bump(entries, x) == r;
      forall k | 1 <= k < |entries|
        ensures r[k].count == entries[k].count + (if entries[k].text == x then 1 else 0)
      {
        assert r[k] == Bump(tail, x)[k - 1] && tail[k - 1] == entries[k];
      }
    }
  }

  /** The dictionary after counting all of `items`. */
  function Tally(items: seq<String>): seq<Ranked> {
    if items == [] then [] else Bump(Tally(items[..|items| - 1]), items[|items| - 1])
  }

  /** The tally has one entry per distinct item, and each entry's count is
      the number of times its text occurs among the items. */
  lemma {:induction false} TallyCounts(items: seq<String>)
    ensures DistinctTexts(Tally(items))
    ensures forall k :: 0 <= k < |Tally(items)| ==> Tally(items)[k].count == multiset(items)[Tally(items)[k].text]
    ensures forall k :: 0 <= k < |Tally(items)| ==> Tally(items)[k].text in items
    ensures forall x :: x in items ==> HasText(Tally(items), x)
  {
    if items != [] {
      var init := items[..|items| - 1];
      var x := items[|items| - 1];
      assert items == init + [x];
      TallyCounts(init);
      var e := Tally(init);
      BumpSpec(e, x);
      var r := Tally(items);
      assert multiset(items) == multiset(init) + multiset{x};
      forall k | 0 <= k < |r| ensures r[k].text in items && r[k].count == multiset(items)[r[k].text] {
        if k >= |e| {
          assert !HasText(e, x) && r[k] == Ranked(x, 1);
        }
      }
      forall y | y in items ensures HasText(r, y) {
        if y == x {
          if HasText(e, x) {
            var k :| 0 <= k < |e| && e[k].text == x;
            assert r[k].text == x;
          } else {
            assert r[|e|].text == x;
          }
        } else {
          assert y in init;
          var k :| 0 <= k < |e| && e[k].text == y;
          assert r[k].text == y;
        }
      }
    }
  }

  /** The `forEach` loop that fills a frequency dictionary. */
  method CountFrequencies(items: seq<String>) returns (frequency: seq<Ranked>)
    ensures frequency == Tally(items)
  {
    frequency := [];
    for i := 0 to |items|
      invariant frequency == Tally(items[..i])
    {
      assert items[..i + 1][..i] == items[..i];
      frequency := Bump(frequency, items[i]);
    }
    assert items[..|items|] == items;
  }

  // ---------------------------------------------------------------------
  // Ranking
  // ---------------------------------------------------------------------

  /** Counts never increase along the list. */
  predicate ByCountDescending(entries: seq<Ranked>) {
    forall i, j :: 0 <= i < j < |entries| ==> entries[i].count >= entries[j].count
  }

  /** Inserts `x` in front of the first entry with a smaller count, so that
      it stays ahead of the entries that tie with it. */
  function InsertByCount(x: Ranked, sorted: seq<Ranked>): (r: seq<Ranked>)
    ensures multiset(r) == multiset(sorted) + multiset{x}
  {
    if sorted == [] then [x]
    else if x.count >= sorted[0].count then [x] + sorted
    else
      assert sorted == [sorted[0]] + sorted[1..];
      [sorted[0]] + InsertByCount(x, sorted[1..])
  }

  /** Inserting into a list ordered by descending count keeps it ordered. */
  lemma {:induction false} InsertKeepsOrder(x: Ranked, sorted: seq<Ranked>)
    requires ByCountDescending(sorted)
    ensures ByCountDescending(InsertByCount(x, sorted))
  {
    if sorted != [] && x.count < sorted[0].count {
      var rest := InsertByCount(x, sorted[1..]);
      InsertKeepsOrder(x, sorted[1..]);
      forall j | 0 <= j < |rest| ensures sorted[0].count >= rest[j].count {
        assert rest[j] in multiset(rest);
        if rest[j] != x {
          assert rest[j] in multiset(sorted[1..]);
          var k :| 0 <= k < |sorted[1..]| && sorted[1..][k] == rest[j];
          assert sorted[k + 1] == rest[j];
        }
      }
    }
  }

  /** `.sort((a, b) => b[1] - a[1])`: a stable sort by descending count. */
  function SortByCount(entries: seq<Ranked>): (r: seq<Ranked>)
    ensures multiset(r) == multiset(entries)
    ensures ByCountDescending(r)
  {
    if entries == [] then []
    else
      assert entries == [entries[0]] + entries[1..];
      var rest := SortByCount(entries[1..]);
      InsertKeepsOrder(entries[0], rest);
      InsertByCount(entries[0], rest)
  }

  /** `.slice(0, 5)`. */
  function TopFive(entries: seq<Ranked>): seq<Ranked> {
    if |entries| <= 5 then entries else entries[..5]
  }

  /** The ranked list of the statistical fallback. */
  function Ranking(items: seq<String>): seq<Ranked> {
    TopFive(SortByCount(Tally(items)))
  }

  /** In a list with distinct texts every entry occurs once. */
  lemma {:induction false} DistinctOnce(t: seq<Ranked>, y: Ranked)
    requires DistinctTexts(t)
    ensures multiset(t)[y] <= 1
  {
    if t != [] {
      assert t == [t[0]] + t[1..];
      assert DistinctTexts(t[1..]) by {
        forall i, j | 0 <= i < j < |t| - 1 ensures t[1..][i].text != t[1..][j].text {
          assert t[i + 1].text != t[j + 1].text;
        }
      }
      DistinctOnce(t[1..], y);
      if y == t[0] {
        assert y !in t[1..] by {
          forall k | 0 <= k < |t| - 1 ensures t[1..][k] != y {
            assert t[k + 1].text != t[0].text;
          }
        }
      }
    }
  }

  /** Reordering a list with distinct texts keeps the texts distinct. */
  lemma PermutationDistinct(t: seq<Ranked>, s: seq<Ranked>)
    requires DistinctTexts(t) && multiset(s) == multiset(t)
    ensures DistinctTexts(s)
  {
    forall i, j | 0 <= i < j < |s| ensures s[i].text != s[j].text {
      assert s[i] in multiset(t) && s[j] in multiset(t);
      var a :| 0 <= a < |t| && t[a] == s[i];
      var b :| 0 <= b < |t| && t[b] == s[j];
      if s[i] == s[j] {
        assert s == s[..i] + [s[i]] + s[i + 1..j] + [s[j]] + s[j + 1..];
        assert multiset(s)[s[i]] >= 2;
        DistinctOnce(t, s[i]);
      } else if a < b {
        assert t[a].text != t[b].text;
      } else {
        assert t[b].text != t[a].text;
      }
    }
  }

  /** A count table for `items`: distinct keys, each an item with its number
      of occurrences, and every item a key. */
  predicate CountsOf(t: seq<Ranked>, items: seq<String>) {
    && DistinctTexts(t)
    && (forall k :: 0 <= k < |t| ==> t[k].text in items && t[k].count == multiset(items)[t[k].text])
    && (forall x :: x in items ==> HasText(t, x))
  }

  /** The first five entries of a count table sorted by count are items
      with their true counts, in descending order and with distinct keys. */
  lemma TopEntries(t: seq<Ranked>, s: seq<Ranked>, items: seq<String>)
    requires CountsOf(t, items) && multiset(s) == multiset(t) && ByCountDescending(s)
    ensures |TopFive(s)| <= 5
    ensures ByCountDescending(TopFive(s)) && DistinctTexts(TopFive(s))
    ensures forall k :: 0 <= k < |TopFive(s)| ==>
      TopFive(s)[k].text in items && TopFive(s)[k].count == multiset(items)[TopFive(s)[k].text]
  {
    var top := TopFive(s);
    assert forall q :: 0 <= q < |top| ==> top[q] == s[q];
    PermutationDistinct(t, s);
    forall k | 0 <= k < |top| ensures top[k].text in items && top[k].count == multiset(items)[top[k].text] {
      assert s[k] in multiset(t);
      var a :| 0 <= a < |t| && t[a] == s[k];
    }
  }

  /** An item whose key is not among the first five of a count table sorted
      by count was cut off by the limit, and occurs no more often than the
      fifth. */
  lemma TopLeftOut(t: seq<Ranked>, s: seq<Ranked>, items: seq<String>, x: String)
    requires CountsOf(t, items) && multiset(s) == multiset(t) && ByCountDescending(s)
    requires x in items && !HasText(TopFive(s), x)
    ensures |TopFive(s)| == 5 && multiset(items)[x] <= TopFive(s)[4].count
  {
    var top := TopFive(s);
    var a :| 0 <= a < |t| && t[a].text == x;
    assert t[a] in multiset(s);
    var p :| 0 <= p < |s| && s[p] == t[a];
    assert forall q :: 0 <= q < |top| ==> top[q] == s[q];
    assert p >= |top|;
    assert |s| > 5 && top == s[..5];
  }

  /** The tally of `items` is a count table for them. */
  lemma TallyIsCounts(items: seq<String>)
    ensures CountsOf(Tally(items), items)
  {
    TallyCounts(items);
  }

  /** The fallback ranking holds at most five distinct items, by
      non-increasing count, each with its number of occurrences; an item
      that did not make the list occurs no more often than the fifth. */
  lemma RankingSpec(items: seq<String>)
    ensures |Ranking(items)| <= 5
    ensures ByCountDescending(Ranking(items))
    ensures DistinctTexts(Ranking(items))
    ensures forall k :: 0 <= k < |Ranking(items)| ==>
      Ranking(items)[k].text in items && Ranking(items)[k].count == multiset(items)[Ranking(items)[k].text]
    ensures forall x :: x in items && !HasText(Ranking(items), x) ==>
      |Ranking(items)| == 5 && multiset(items)[x] <= Ranking(items)[4].count
  {
    var t := Tally(items);
    var s := SortByCount(t);
    TallyIsCounts(items);
    TopEntries(t, s, items);
    forall x | x in items && !HasText(TopFive(s), x)
      ensures |TopFive(s)| == 5 && multiset(items)[x] <= TopFive(s)[4].count
    {
      TopLeftOut(t, s, items, x);
    }
  }

  // ---------------------------------------------------------------------
  // Session summary
  // ---------------------------------------------------------------------

  datatype Insights = Insights(
    questionCount: nat,
    averageSeverityScore: real,
    topKnowledgeGaps: seq<Ranked>,
    topPromptSuggestions: seq<Ranked>)

  datatype SessionSummary = SessionSummary(aggregatedInsights: Insights, overallFeedback: String)

  /** What the cross-question model call's output parses to. */
  datatype SummaryJudgment = SummaryJudgment(
    topKnowledgeGaps: seq<String>,
    crossQuestionPromptSuggestions: seq<String>,
    summary: String)

  const EmptySummary := SessionSummary(Insights(0, 0.0, [], []), "No analysis results available.")

  /** The sum of the severities. */
  function SeveritySum(results: seq<AnalysisResult>): real {
    if results == [] then 0.0 else SeveritySum(results[..|results| - 1]) + results[|results| - 1].severityScore
  }

  /** The mean severity. */
  function AverageSeverity(results: seq<AnalysisResult>): real
    requires |results| > 0
  {
    SeveritySum(results) / (|results| as real)
  }

  /** Results that each keep their severity in [0, 1], listed by index. */
  lemma ResultsBounded(results: seq<AnalysisResult>)
    requires forall k :: 0 <= k < |results| ==> 0.0 <= results[k].severityScore <= 1.0
    ensures forall r :: r in results ==> 0.0 <= r.severityScore <= 1.0
  {
  }

  /** The mean of severities in [0, 1] is in [0, 1]. */
  lemma AverageSeverityBounds(results: seq<AnalysisResult>)
    requires |results| > 0
    requires forall r :: r in results ==> 0.0 <= r.severityScore <= 1.0
    ensures 0.0 <= AverageSeverity(results) <= 1.0
  {
    SeveritySumBounds(results);
  }

  lemma {:induction false} SeveritySumBounds(results: seq<AnalysisResult>)
    requires forall r :: r in results ==> 0.0 <= r.severityScore <= 1.0
    ensures 0.0 <= SeveritySum(results) <= |results| as real
  {
    if results != [] {
      var init := results[..|results| - 1];
      assert forall r :: r in init ==> r in results;
      assert results[|results| - 1] in results;
      SeveritySumBounds(init);
    }
  }

  /** Every gap of every result, in order (`flatMap`). */
  function AllGaps(results: seq<AnalysisResult>): seq<String> {
    if results == [] then [] else AllGaps(results[..|results| - 1]) + results[|results| - 1].knowledgeGaps
  }

  /** Every suggestion of every result, in order (`flatMap`). */
  function AllSuggestions(results: seq<AnalysisResult>): seq<String> {
    if results == [] then [] else AllSuggestions(results[..|results| - 1]) + results[|results| - 1].promptSuggestions
  }

  /** Decimal digits of a count, as `${n}` writes it. */
  function NatToString(n: nat): String
    decreases n
  {
    var digit := ['0' + (n % 10) as char];
    if n < 10 then digit else NatToString(n / 10) + digit
  }

  /** The templated feedback of the statistical fallback; `toFixed(2)` is
      supplied as `fixed2`. The template opens with a line feed. */
  function FallbackFeedback(questionCount: nat, average: real, fixed2: real -> String): (feedback: String)
    ensures |feedback| > 0 && feedback[0] == '\n'
  {
    ['\n'] + FallbackLines(questionCount, average, fixed2)
  }

  /** The template after its opening line feed. */
  function FallbackLines(questionCount: nat, average: real, fixed2: real -> String): String {
    FallbackHeading + NatToString(questionCount) + FallbackAverageLabel + fixed2(average) + FallbackClosing
  }

  /** The fixed text of the template, around its two numbers. */
  const FallbackHeading: String :=
    "Interview session analysis summary (statistical aggregation):\n- Total questions analyzed: "

  const FallbackAverageLabel: String :=
    "\n- Average severity score: "

  const FallbackClosing: String :=
    "\n- Top knowledge gaps identified across questions\n- Top prompt improvement suggestions identified across questions\n"

  /** What the summary of a non-empty list of judgments holds: their count
      and mean severity, and either the model's cross-question judgment with
      every count 1 or, when that call fails, the frequency rankings of all
      gaps and suggestions with the statistical text. */
  predicate SummarizesResults(summary: SessionSummary, results: seq<AnalysisResult>,
                              summaryModel: seq<AnalysisResult> -> Option<SummaryJudgment>, fixed2: real -> String)
    requires results != []
  {
    && summary.aggregatedInsights.questionCount == |results|
    && summary.aggregatedInsights.averageSeverityScore == AverageSeverity(results)
    && (summaryModel(results).Some? ==>
          var j := summaryModel(results).value;
          && summary.overallFeedback == j.summary
          && |summary.aggregatedInsights.topKnowledgeGaps| == |j.topKnowledgeGaps|
          && (forall k :: 0 <= k < |j.topKnowledgeGaps| ==>
                summary.aggregatedInsights.topKnowledgeGaps[k] == Ranked(j.topKnowledgeGaps[k], 1))
          && |summary.aggregatedInsights.topPromptSuggestions| == |j.crossQuestionPromptSuggestions|
          && (forall k :: 0 <= k < |j.crossQuestionPromptSuggestions| ==>
                summary.aggregatedInsights.topPromptSuggestions[k] == Ranked(j.crossQuestionPromptSuggestions[k], 1)))
    && (summaryModel(results).None? ==>
          && summary.aggregatedInsights.topKnowledgeGaps == Ranking(AllGaps(results))
          && summary.aggregatedInsights.topPromptSuggestions == Ranking(AllSuggestions(results))
          && summary.overallFeedback == FallbackFeedback(|results|, AverageSeverity(results), fixed2))
  }

  /** `generateSessionSummary`: the default for no results; otherwise the
      model's cross-question judgment with every count 1 or, when that call
      fails, the statistical fallback. */
  method GenerateSessionSummary(results: seq<AnalysisResult>, summaryModel: seq<AnalysisResult> -> Option<SummaryJudgment>,
                                fixed2: real -> String)
    returns (summary: SessionSummary)
    ensures results == [] ==> summary == EmptySummary
    ensures results != [] ==> SummarizesResults(summary, results, summaryModel, fixed2)
  {
    if |results| == 0 {
      return EmptySummary;
    }
    var questionCount := |results|;
    var averageSeverityScore := AverageSeverity(results);
    var allKnowledgeGaps := AllGaps(results);
    var allPromptSuggestions := AllSuggestions(results);
    match summaryModel(results)
    case Some(parsed) =>
      var gaps := seq(|parsed.topKnowledgeGaps|, k requires 0 <= k < |parsed.topKnowledgeGaps| => Ranked(parsed.topKnowledgeGaps[k], 1));
      var suggestions := seq(|parsed.crossQuestionPromptSuggestions|,
                             k requires 0 <= k < |parsed.crossQuestionPromptSuggestions| => Ranked(parsed.crossQuestionPromptSuggestions[k], 1));
      summary := SessionSummary(Insights(questionCount, averageSeverityScore, gaps, suggestions), parsed.summary);
    case None =>
      var knowledgeGapFrequency := CountFrequencies(allKnowledgeGaps);
      var promptSuggestionFrequency := CountFrequencies(allPromptSuggestions);
      var sortedKnowledgeGaps := SortByCount(knowledgeGapFrequency);
      var sortedPromptSuggestions := SortByCount(promptSuggestionFrequency);
      summary := SessionSummary(
        Insights(questionCount, averageSeverityScore, TopFive(sortedKnowledgeGaps), TopFive(sortedPromptSuggestions)),
        FallbackFeedback(questionCount, averageSeverityScore, fixed2));
  }

  // ---------------------------------------------------------------------
  // The job, without its transaction
  // ---------------------------------------------------------------------

  /** The artifact row the job inserts for one record. */
  datatype ArtifactRow = ArtifactRow(sessionId: String, questionPairId: String, result: AnalysisResult)

  /** What the job commits: nothing at all when the session has no step
      records, otherwise one artifact per record, the summary, and the
      processed flag. */
  datatype JobOutcome =
    | NothingToAnalyze
    | Processed(artifacts: seq<ArtifactRow>, summary: SessionSummary)

  /** The job's loop over the step records: each is judged in turn, its
      result kept for the summary and its artifact row recorded. */
  method JudgeRecords(sessionId: String, stepRecords: seq<StepInput>,
                      jsonParse: String -> Option<seq<Message>>,
                      model: (StepInput, String) -> Option<RawJudgment>)
    returns (analysisResults: seq<AnalysisResult>, artifacts: seq<ArtifactRow>)
    ensures |analysisResults| == |artifacts| == |stepRecords|
    ensures forall i :: 0 <= i < |stepRecords| ==> analysisResults[i] == AnalyzeStepRecord(stepRecords[i], jsonParse, model)
    ensures forall i :: 0 <= i < |stepRecords| ==>
      artifacts[i] == ArtifactRow(sessionId, stepRecords[i].questionPairId, analysisResults[i])
  {
    analysisResults := [];
    artifacts := [];
    for i := 0 to |stepRecords|
      invariant |analysisResults| == |artifacts| == i
      invariant forall k :: 0 <= k < i ==> analysisResults[k] == AnalyzeStepRecord(stepRecords[k], jsonParse, model)
      invariant forall k :: 0 <= k < i ==> artifacts[k] == ArtifactRow(sessionId, stepRecords[k].questionPairId, analysisResults[k])
    {
      var analysis := AnalyzeStepRecord(stepRecords[i], jsonParse, model);
      artifacts := artifacts + [ArtifactRow(sessionId, stepRecords[i].questionPairId, analysis)];
      analysisResults := analysisResults + [analysis];
    }
  }

  /** The judgments of the step records, in order. */
  function Judgments(stepRecords: seq<StepInput>, jsonParse: String -> Option<seq<Message>>,
                     model: (StepInput, String) -> Option<RawJudgment>): (results: seq<AnalysisResult>)
    ensures |results| == |stepRecords|
    ensures forall i :: 0 <= i < |stepRecords| ==> 0.0 <= results[i].severityScore <= 1.0
  {
    seq(|stepRecords|, i requires 0 <= i < |stepRecords| => AnalyzeStepRecord(stepRecords[i], jsonParse, model))
  }

  /** `analyzeSession` with its database writes abstracted: records are
      judged one after the other, each giving one artifact, then the summary
      is made from all the judgments. */
  method AnalyzeSession(sessionId: String, stepRecords: seq<StepInput>,
                        jsonParse: String -> Option<seq<Message>>,
                        model: (StepInput, String) -> Option<RawJudgment>,
                        summaryModel: seq<AnalysisResult> -> Option<SummaryJudgment>,
                        fixed2: real -> String)
    returns (outcome: JobOutcome)
    ensures stepRecords == [] <==> outcome == NothingToAnalyze
    ensures outcome.Processed? ==> |outcome.artifacts| == |stepRecords|
    ensures outcome.Processed? ==> forall i :: 0 <= i < |stepRecords| ==>
      outcome.artifacts[i] == ArtifactRow(sessionId, stepRecords[i].questionPairId, AnalyzeStepRecord(stepRecords[i], jsonParse, model))
    ensures outcome.Processed? ==> outcome.summary.aggregatedInsights.questionCount == |stepRecords|
    ensures outcome.Processed? ==> 0.0 <= outcome.summary.aggregatedInsights.averageSeverityScore <= 1.0
    ensures outcome.Processed? ==>
      SummarizesResults(outcome.summary, Judgments(stepRecords, jsonParse, model), summaryModel, fixed2)
  {
    if |stepRecords| == 0 {
      return NothingToAnalyze;
    }
    var analysisResults, artifacts := JudgeRecords(sessionId, stepRecords, jsonParse, model);
    ResultsBounded(analysisResults);
    AverageSeverityBounds(analysisResults);
    assert analysisResults == Judgments(stepRecords, jsonParse, model);
    var summary := GenerateSessionSummary(analysisResults, summaryModel, fixed2);
    return Processed(artifacts, summary);
  }
}
