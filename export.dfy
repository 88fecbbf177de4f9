/** The project export service: every (session, step record) pair becomes
    one flat row, and the rows are written out as comma-separated text. */
module Export {
  import opened Wrappers
  import opened Text
  import opened Records
  import CsvImport
  import Analyzer

  /** A value of an export row: null, a string, a number (held as the text
      `String(value)` gives for it) or a boolean. */
  datatype Value = Null | Str(s: String) | Num(rendered: String) | Bool(b: bool)

  /** An interview session with what the export query includes with it.
      Timestamps are held as the text `toISOString` gives for them. */
  datatype Session = Session(
    id: String,
    interviewName: String,
    startedAt: String,
    completedAt: Option<String>,
    status: String,
    processed: bool,
    stepRecords: seq<StepRecord>,
    analysisArtifacts: seq<Artifact>,
    sessionSummary: Option<Summary>)

  datatype ExportRow = ExportRow(
    SessionID: Value,
    IntervieweeName: Value,
    StartTime: Value,
    CompletionTime: Value,
    Status: Value,
    Processed: Value,
    QuestionID: Value,
    QuestionText: Value,
    AnswerA: Value,
    AnswerB: Value,
    PreferredAnswer: Value,
    WinnerFlag: Value,
    SeverityScore: Value,
    RationaleDigest: Value,
    KnowledgeGaps: Value,
    PromptSuggestions: Value,
    SessionSummaryInsights: Value,
    SessionSummaryFeedback: Value)

  /** The keys of an export row, in the order the row object is built:
      session columns, question columns, analysis columns, summary columns. */
  const SessionHeaders: seq<String> :=
    ["SessionID", "IntervieweeName", "StartTime", "CompletionTime", "Status", "Processed"]
  const QuestionHeaders: seq<String> :=
    ["QuestionID", "QuestionText", "AnswerA", "AnswerB", "PreferredAnswer"]
  const AnalysisHeaders: seq<String> :=
    ["WinnerFlag", "SeverityScore", "RationaleDigest", "KnowledgeGaps", "PromptSuggestions"]
  const SummaryHeaders: seq<String> :=
    ["SessionSummaryInsights", "SessionSummaryFeedback"]
  const Headers: seq<String> := SessionHeaders + QuestionHeaders + AnalysisHeaders + SummaryHeaders

  /** The row's values in header order. */
  function Values(row: ExportRow): (vs: seq<Value>)
    ensures |vs| == |Headers|
  {
    [row.SessionID, row.IntervieweeName, row.StartTime, row.CompletionTime, row.Status, row.Processed,
     row.QuestionID, row.QuestionText, row.AnswerA, row.AnswerB, row.PreferredAnswer,
     row.WinnerFlag, row.SeverityScore, row.RationaleDigest, row.KnowledgeGaps, row.PromptSuggestions,
     row.SessionSummaryInsights, row.SessionSummaryFeedback]
  }

  /** A nullable string column. */
  function OrNull(s: Option<String>): Value {
    if s.Some? then Str(s.value) else Null
  }

  /** The analysis columns of `row` are those of `artifact`. */
  predicate ArtifactColumns(row: ExportRow, artifact: Artifact) {
    row.WinnerFlag == Str(artifact.winnerFlag)
    && row.SeverityScore == Num(artifact.severityText)
    && row.RationaleDigest == Str(artifact.rationaleDigest)
    && row.KnowledgeGaps == OrNull(artifact.knowledgeGapsJson)
    && row.PromptSuggestions == OrNull(artifact.promptSuggestionsJson)
  }

  /** The row for one step record of a session: session columns, question
      columns, the columns of the first artifact for the record's question
      pair, and the summary columns. */
  function MakeRow(session: Session, record: StepRecord): (row: ExportRow)
    ensures row.WinnerFlag.Null? <==> forall a :: a in session.analysisArtifacts ==> a.questionPairId != record.questionPairId
    ensures row.WinnerFlag.Null? ==>
      row.SeverityScore.Null? && row.RationaleDigest.Null? && row.KnowledgeGaps.Null? && row.PromptSuggestions.Null?
    ensures !row.WinnerFlag.Null? ==>
      exists i :: FirstMatchAt(session.analysisArtifacts, record.questionPairId, i) && ArtifactColumns(row, session.analysisArtifacts[i])
    ensures row.SessionSummaryFeedback.Null? <==> session.sessionSummary.None?
  {
    var artifact := FindArtifact(session.analysisArtifacts, record.questionPairId);
    var pair := record.questionPair;
    ExportRow(
      Str(session.id), Str(session.interviewName), Str(session.startedAt), OrNull(session.completedAt),
      Str(session.status), Bool(session.processed),
      Str(pair.questionId), Str(pair.questionText), Str(pair.answerA), Str(pair.answerB),
      OrNull(record.preferredAnswer),
      if artifact.Some? then Str(artifact.value.winnerFlag) else Null,
      if artifact.Some? then Num(artifact.value.severityText) else Null,
      if artifact.Some? then Str(artifact.value.rationaleDigest) else Null,
      if artifact.Some? then OrNull(artifact.value.knowledgeGapsJson) else Null,
      if artifact.Some? then OrNull(artifact.value.promptSuggestionsJson) else Null,
      if session.sessionSummary.Some? then OrNull(session.sessionSummary.value.aggregatedInsightsJson) else Null,
      if session.sessionSummary.Some? then Str(session.sessionSummary.value.overallFeedback) else Null)
  }

  /** The rows of one session, one per step record, in record order. */
  function SessionRows(session: Session): seq<ExportRow> {
    seq(|session.stepRecords|, j requires 0 <= j < |session.stepRecords| => MakeRow(session, session.stepRecords[j]))
  }

  /** The rows of all sessions, session after session. */
  function ExportRows(sessions: seq<Session>): seq<ExportRow> {
    if sessions == [] then []
    else ExportRows(sessions[..|sessions| - 1]) + SessionRows(sessions[|sessions| - 1])
  }

  /** How many step records the sessions hold together. */
  function TotalSteps(sessions: seq<Session>): nat {
    if sessions == [] then 0
    else TotalSteps(sessions[..|sessions| - 1]) + |sessions[|sessions| - 1].stepRecords|
  }

  /** There is one row per (session, step record): record `j` of session `i`
      is at position `TotalSteps(sessions[..i]) + j`, so rows follow session
      order and, within a session, step record order. */
  lemma {:induction false} ExportRowsLayout(sessions: seq<Session>)
    ensures |ExportRows(sessions)| == TotalSteps(sessions)
    ensures forall i, j :: 0 <= i < |sessions| && 0 <= j < |sessions[i].stepRecords| ==> RowPlaced(sessions, i, j)
  {
    RowCount(sessions);
    forall i, j | 0 <= i < |sessions| && 0 <= j < |sessions[i].stepRecords|
      ensures RowPlaced(sessions, i, j)
    {
      RowAt(sessions, i, j);
    }
  }

  /** Step record `j` of session `i` is at position `TotalSteps(sessions[..i]) + j`. */
  predicate RowPlaced(sessions: seq<Session>, i: nat, j: nat)
    requires i < |sessions| && j < |sessions[i].stepRecords|
  {
    TotalSteps(sessions[..i]) + j < |ExportRows(sessions)|
    && ExportRows(sessions)[TotalSteps(sessions[..i]) + j] == MakeRow(sessions[i], sessions[i].stepRecords[j])
  }

  lemma {:induction false} RowCount(sessions: seq<Session>)
    ensures |ExportRows(sessions)| == TotalSteps(sessions)
  {
    if sessions != [] {
      RowCount(sessions[..|sessions| - 1]);
    }
  }

  lemma {:induction false} RowAt(sessions: seq<Session>, i: int, j: int)
    requires 0 <= i < |sessions| && 0 <= j < |sessions[i].stepRecords|
    ensures TotalSteps(sessions[..i]) + j < |ExportRows(sessions)|
    ensures ExportRows(sessions)[TotalSteps(sessions[..i]) + j] == MakeRow(sessions[i], sessions[i].stepRecords[j])
  {
    var n := |sessions| - 1;
    var init := sessions[..n];
    RowCount(init);
    assert ExportRows(sessions) == ExportRows(init) + SessionRows(sessions[n]);
    if i < n {
      RowAt(init, i, j);
      assert sessions[..i] == init[..i];
    } else {
      assert sessions[..i] == init;
    }
  }

  /** The nested loops that fill `exportRows`. */
  method GenerateRows(sessions: seq<Session>) returns (exportRows: seq<ExportRow>)
    ensures exportRows == ExportRows(sessions)
  {
    exportRows := [];
    for i := 0 to |sessions|
      invariant exportRows == ExportRows(sessions[..i])
    {
      var session := sessions[i];
      ghost var before := exportRows;
      for j := 0 to |session.stepRecords|
        invariant exportRows == before + SessionRows(session)[..j]
      {
        exportRows := exportRows + [MakeRow(session, session.stepRecords[j])];
      }
      assert sessions[..i + 1][..i] == sessions[..i];
      assert SessionRows(session)[..|session.stepRecords|] == SessionRows(session);
    }
    assert sessions[..|sessions|] == sessions;
  }

  // ---------------------------------------------------------------------
  // Serialisation
  // ---------------------------------------------------------------------

  /** `value.replace(/"/g, '""')`. */
  function DoubleQuotes(s: String): (r: String)
    ensures |r| == |s| + multiset(s)['"']
  {
    if s == [] then []
    else
      assert s == [s[0]] + s[1..];
      (if s[0] == '"' then "\"\"" else [s[0]]) + DoubleQuotes(s[1..])
  }

  /** Collapses every `""` to `"`; a lone quote is malformed. */
  function UndoubleQuotes(s: String): Option<String>
    decreases |s|
  {
    if s == [] then Some([])
    else if s[0] != '"' then
      match UndoubleQuotes(s[1..])
      case Some(rest) => Some([s[0]] + rest)
      case None => None
    else if |s| >= 2 && s[1] == '"' then
      match UndoubleQuotes(s[2..])
      case Some(rest) => Some(['"'] + rest)
      case None => None
    else None
  }

  /** Collapsing doubled quotes undoes doubling them. */
  lemma {:induction false} UndoubleDouble(s: String)
    ensures UndoubleQuotes(DoubleQuotes(s)) == Some(s)
  {
    if s != [] {
      UndoubleDouble(s[1..]);
      var d := DoubleQuotes(s);
      if s[0] == '"' {
        assert d[2..] == DoubleQuotes(s[1..]);
      } else {
        assert d[1..] == DoubleQuotes(s[1..]);
      }
      assert s == [s[0]] + s[1..];
    }
  }

  /** When a string value is quoted. As written, only a comma or a quote
      calls for quotes; the corrected rule (`quoteLineFeeds`) also quotes a
      value holding a line feed. */
  predicate NeedsQuotes(s: String, quoteLineFeeds: bool) {
    ',' in s || '"' in s || (quoteLineFeeds && '\n' in s)
  }

  /** The text of one value in a data line. */
  function EscapeValue(v: Value, quoteLineFeeds: bool): (field: String)
    ensures v.Null? ==> field == []
    ensures v.Str? && !NeedsQuotes(v.s, quoteLineFeeds) ==> field == v.s
    ensures v.Str? && NeedsQuotes(v.s, quoteLineFeeds) ==>
      |field| >= 2 && field[0] == '"' && field[|field| - 1] == '"'
      && UndoubleQuotes(field[1..|field| - 1]) == Some(v.s)
  {
    match v
    case Null => []
    case Str(s) =>
      if NeedsQuotes(s, quoteLineFeeds) then
        var field := "\"" + DoubleQuotes(s) + "\"";
        assert field[1..|field| - 1] == DoubleQuotes(s);
        UndoubleDouble(s);
        field
      else s
    case Num(rendered) => rendered
    case Bool(b) => if b then "true" else "false"
  }

  /** Reading a field back: outer quotes stripped and `""` collapsed. */
  function Unescape(field: String): String {
    if |field| >= 2 && field[0] == '"' && field[|field| - 1] == '"' then
      UndoubleQuotes(field[1..|field| - 1]).GetOr(field)
    else field
  }

  /** Every string value is recovered from its escaped field. */
  lemma UnescapeEscape(s: String, quoteLineFeeds: bool)
    ensures Unescape(EscapeValue(Str(s), quoteLineFeeds)) == s
  {
  }

  /** One data line: the escaped values joined by commas. */
  function DataLine(row: ExportRow, quoteLineFeeds: bool): String {
    var vs := Values(row);
    Join(seq(|vs|, i requires 0 <= i < |vs| => EscapeValue(vs[i], quoteLineFeeds)), ",")
  }

  /** The header line. */
  function HeaderLine(): String {
    Join(Headers, ",")
  }

  /** The CSV text: the header line (the keys of the first row, none when
      there are no rows) and one line per row, joined by line feeds. */
  function ToCsv(rows: seq<ExportRow>, quoteLineFeeds: bool): (csv: String)
    ensures rows == [] ==> csv == []
  {
    var headers := if rows == [] then [] else Headers;
    Join([Join(headers, ",")] + DataLines(rows, quoteLineFeeds), "\n")
  }

  /** The data lines of the rows, in row order. */
  function DataLines(rows: seq<ExportRow>, quoteLineFeeds: bool): (lines: seq<String>)
    ensures |lines| == |rows|
    ensures forall i :: 0 <= i < |rows| ==> lines[i] == DataLine(rows[i], quoteLineFeeds)
  {
    seq(|rows|, i requires 0 <= i < |rows| => DataLine(rows[i], quoteLineFeeds))
  }

  /** `generateProjectExport` after the query, with the quoting rule as
      written (see `FallbackFeedbackBreaksLines` for what it breaks and
      `ExportRecords` for the corrected rule). */
  method GenerateProjectExport(sessions: seq<Session>) returns (csv: String)
    ensures csv == ToCsv(ExportRows(sessions), false)
  {
    var exportRows := GenerateRows(sessions);
    csv := ToCsv(exportRows, false);
  }

  /** The corrected rule differs from the rule as written only on values
      that hold a line feed: without those the two exports are identical. */
  lemma RulesAgree(rows: seq<ExportRow>)
    requires forall row, v :: row in rows && v in Values(row) ==> OneLine(v)
    ensures ToCsv(rows, false) == ToCsv(rows, true)
  {
    forall k | 0 <= k < |rows| ensures DataLine(rows[k], false) == DataLine(rows[k], true) {
      var vs := Values(rows[k]);
      forall i | 0 <= i < |vs| ensures EscapeValue(vs[i], false) == EscapeValue(vs[i], true) {
        assert vs[i] in Values(rows[k]);
        assert OneLine(vs[i]);
        if vs[i].Str? {
          assert NeedsQuotes(vs[i].s, false) == NeedsQuotes(vs[i].s, true);
        }
      }
      assert seq(|vs|, i requires 0 <= i < |vs| => EscapeValue(vs[i], false))
          == seq(|vs|, i requires 0 <= i < |vs| => EscapeValue(vs[i], true));
    }
    assert DataLines(rows, false) == DataLines(rows, true);
  }

  /** A value that holds no line feed. */
  predicate OneLine(v: Value) {
    match v
    case Str(s) => '\n' !in s
    case Num(rendered) => '\n' !in rendered
    case _ => true
  }

  /** Doubling quotes adds only quotes. */
  lemma {:induction false} DoubleQuotesAvoids(s: String, c: char)
    requires c !in s && c != '"'
    ensures c !in DoubleQuotes(s)
  {
    if s != [] {
      DoubleQuotesAvoids(s[1..], c);
    }
  }

  /** Escaping a value with no line feed adds none. */
  lemma EscapedOneLine(v: Value, quoteLineFeeds: bool)
    requires OneLine(v)
    ensures '\n' !in EscapeValue(v, quoteLineFeeds)
  {
    if v.Str? {
      DoubleQuotesAvoids(v.s, '\n');
    }
  }

  /** The data line of a row whose values hold no line feed holds none. */
  lemma DataLineOneLine(row: ExportRow, quoteLineFeeds: bool)
    requires forall v :: v in Values(row) ==> OneLine(v)
    ensures '\n' !in DataLine(row, quoteLineFeeds)
  {
    var vs := Values(row);
    var fields := seq(|vs|, i requires 0 <= i < |vs| => EscapeValue(vs[i], quoteLineFeeds));
    forall i | 0 <= i < |fields| ensures '\n' !in fields[i] {
      assert vs[i] in vs;
      EscapedOneLine(vs[i], quoteLineFeeds);
    }
    JoinAvoids(fields, ",", '\n');
  }

  /** When no value holds a line feed, the export splits at line feeds into
      the header line followed by one data line per row, in row order. */
  lemma ExportLines(rows: seq<ExportRow>, quoteLineFeeds: bool)
    requires rows != []
    requires forall row, v :: row in rows && v in Values(row) ==> OneLine(v)
    ensures Split(ToCsv(rows, quoteLineFeeds), "\n") == [HeaderLine()] + DataLines(rows, quoteLineFeeds)
  {
    var lines := [HeaderLine()] + DataLines(rows, quoteLineFeeds);
    assert ToCsv(rows, quoteLineFeeds) == Join(lines, "\n");
    HeadersPlain();
    JoinAvoids(Headers, ",", '\n');
    forall k | 0 <= k < |rows| ensures '\n' !in DataLines(rows, quoteLineFeeds)[k] {
      assert rows[k] in rows;
      DataLineOneLine(rows[k], quoteLineFeeds);
    }
    forall line | line in lines ensures '\n' !in line {
      var k :| 0 <= k < |lines| && lines[k] == line;
      if k > 0 {
        assert line == DataLines(rows, quoteLineFeeds)[k - 1];
      }
    }
    SplitJoin(lines, '\n');
  }

  // ---------------------------------------------------------------------
  // Lines and fields, as a quote-aware reader sees them
  // ---------------------------------------------------------------------

  /** How many line feeds of `s` are read while the quote flag is off: the
      record breaks a quote-aware CSV reader sees. */
  function LineFeedsOutside(s: String, inQuotes: bool): nat {
    if s == [] then 0
    else if s[0] == '"' then LineFeedsOutside(s[1..], !inQuotes)
    else if s[0] == '\n' && !inQuotes then 1 + LineFeedsOutside(s[1..], inQuotes)
    else LineFeedsOutside(s[1..], inQuotes)
  }

  /** Counting record breaks composes over concatenation. */
  lemma {:induction false} LineFeedsAppend(a: String, b: String, inQuotes: bool)
    ensures LineFeedsOutside(a + b, inQuotes)
      == LineFeedsOutside(a, inQuotes) + LineFeedsOutside(b, CsvImport.QuoteStateAfter(a, inQuotes))
  {
    if a == [] {
      assert a + b == b;
    } else {
      assert (a + b)[1..] == a[1..] + b;
      LineFeedsAppend(a[1..], b, if a[0] == '"' then !inQuotes else inQuotes);
    }
  }

  /** Both readings of `a + b`. */
  lemma ReadBoth(a: String, b: String, inQuotes: bool)
    ensures CsvImport.QuoteStateAfter(a + b, inQuotes) == CsvImport.QuoteStateAfter(b, CsvImport.QuoteStateAfter(a, inQuotes))
    ensures CsvImport.CommasOutside(a + b, inQuotes)
      == CsvImport.CommasOutside(a, inQuotes) + CsvImport.CommasOutside(b, CsvImport.QuoteStateAfter(a, inQuotes))
    ensures LineFeedsOutside(a + b, inQuotes)
      == LineFeedsOutside(a, inQuotes) + LineFeedsOutside(b, CsvImport.QuoteStateAfter(a, inQuotes))
  {
    CsvImport.ReadAppend(a, b, inQuotes);
    LineFeedsAppend(a, b, inQuotes);
  }

  /** A string free of commas (line feeds) breaks no field (record), and one
      free of quotes leaves the quote flag as it was. */
  lemma {:induction false} PlainRead(s: String, inQuotes: bool)
    ensures ',' !in s ==> CsvImport.CommasOutside(s, inQuotes) == 0
    ensures '\n' !in s ==> LineFeedsOutside(s, inQuotes) == 0
    ensures '"' !in s ==> CsvImport.QuoteStateAfter(s, inQuotes) == inQuotes
  {
    if s != [] {
      PlainRead(s[1..], if s[0] == '"' then !inQuotes else inQuotes);
    }
  }

  /** Inside quotes, a doubled-quote string breaks no field or record and
      ends inside quotes again. */
  lemma {:induction false} DoubledRead(s: String)
    ensures CsvImport.CommasOutside(DoubleQuotes(s), true) == 0
    ensures LineFeedsOutside(DoubleQuotes(s), true) == 0
    ensures CsvImport.QuoteStateAfter(DoubleQuotes(s), true)
  {
    if s != [] {
      DoubledRead(s[1..]);
      var chunk: String := if s[0] == '"' then "\"\"" else [s[0]];
      ReadBoth(chunk, DoubleQuotes(s[1..]), true);
    }
  }

  /** A quoted field breaks no field or record and ends outside quotes. */
  lemma QuotedRead(s: String)
    ensures var field := "\"" + DoubleQuotes(s) + "\"";
      CsvImport.CommasOutside(field, false) == 0 && LineFeedsOutside(field, false) == 0
      && !CsvImport.QuoteStateAfter(field, false)
  {
    DoubledRead(s);
    ReadBoth("\"", DoubleQuotes(s), false);
    ReadBoth("\"" + DoubleQuotes(s), "\"", false);
  }

  /** A value whose number text, if any, holds no comma, quote or line feed. */
  predicate PlainNumber(v: Value) {
    v.Num? ==> ',' !in v.rendered && '"' !in v.rendered && '\n' !in v.rendered
  }

  /** An escaped value is read as one field, with the quote flag off at its
      end; with the corrected rule it holds no record break either. */
  lemma EscapedRead(v: Value, quoteLineFeeds: bool)
    requires PlainNumber(v)
    ensures CsvImport.CommasOutside(EscapeValue(v, quoteLineFeeds), false) == 0
    ensures !CsvImport.QuoteStateAfter(EscapeValue(v, quoteLineFeeds), false)
    ensures quoteLineFeeds ==> LineFeedsOutside(EscapeValue(v, quoteLineFeeds), false) == 0
  {
    match v
    case Null =>
    case Str(s) =>
      if NeedsQuotes(s, quoteLineFeeds) {
        QuotedRead(s);
      } else {
        PlainRead(s, false);
      }
    case Num(rendered) =>
      PlainRead(rendered, false);
    case Bool(b) =>
      PlainRead(if b then "true" else "false", false);
  }

  /** Fields that are each read whole, joined by commas, are read as exactly
      that many fields. */
  lemma {:induction false} JoinedRead(fields: seq<String>)
    requires |fields| >= 1
    requires forall f :: f in fields ==> CsvImport.CommasOutside(f, false) == 0 && !CsvImport.QuoteStateAfter(f, false)
    ensures CsvImport.CommasOutside(Join(fields, ","), false) == |fields| - 1
    ensures !CsvImport.QuoteStateAfter(Join(fields, ","), false)
    ensures (forall f :: f in fields ==> LineFeedsOutside(f, false) == 0) ==> LineFeedsOutside(Join(fields, ","), false) == 0
  {
    assert fields[0] in fields;
    if |fields| > 1 {
      assert forall f :: f in fields[1..] ==> f in fields;
      JoinedRead(fields[1..]);
      ReadBoth(fields[0], ",", false);
      ReadBoth(fields[0] + ",", Join(fields[1..], ","), false);
    }
  }

  /** Lines that each hold no record break and end outside quotes, joined by
      line feeds, are read as exactly that many records. */
  lemma {:induction false} JoinedRecords(lines: seq<String>)
    requires |lines| >= 1
    requires forall l :: l in lines ==> LineFeedsOutside(l, false) == 0 && !CsvImport.QuoteStateAfter(l, false)
    ensures LineFeedsOutside(Join(lines, "\n"), false) == |lines| - 1
    ensures !CsvImport.QuoteStateAfter(Join(lines, "\n"), false)
  {
    assert lines[0] in lines;
    if |lines| > 1 {
      assert forall l :: l in lines[1..] ==> l in lines;
      JoinedRecords(lines[1..]);
      ReadBoth(lines[0], "\n", false);
      ReadBoth(lines[0] + "\n", Join(lines[1..], "\n"), false);
    }
  }

  /** The fields of a data line are each read whole. */
  lemma DataFieldsRead(row: ExportRow, quoteLineFeeds: bool)
    requires forall v :: v in Values(row) ==> PlainNumber(v)
    ensures var vs := Values(row);
      var fields := seq(|vs|, i requires 0 <= i < |vs| => EscapeValue(vs[i], quoteLineFeeds));
      forall f :: f in fields ==>
        CsvImport.CommasOutside(f, false) == 0 && !CsvImport.QuoteStateAfter(f, false)
        && (quoteLineFeeds ==> LineFeedsOutside(f, false) == 0)
  {
    var vs := Values(row);
    var fields := seq(|vs|, i requires 0 <= i < |vs| => EscapeValue(vs[i], quoteLineFeeds));
    forall f | f in fields
      ensures CsvImport.CommasOutside(f, false) == 0 && !CsvImport.QuoteStateAfter(f, false)
      ensures quoteLineFeeds ==> LineFeedsOutside(f, false) == 0
    {
      var i :| 0 <= i < |fields| && fields[i] == f;
      assert vs[i] in vs;
      EscapedRead(vs[i], quoteLineFeeds);
    }
  }

  /** Read by the project's own CSV line reader, every data line has as many
      cells as there are headers (number values being rendered without
      commas, quotes or line feeds). */
  lemma DataLineWidth(row: ExportRow, quoteLineFeeds: bool)
    requires forall v :: v in Values(row) ==> PlainNumber(v)
    ensures |CsvImport.LineCells(DataLine(row, quoteLineFeeds))| == |Headers|
  {
    DataFieldsRead(row, quoteLineFeeds);
    var vs := Values(row);
    JoinedRead(seq(|vs|, i requires 0 <= i < |vs| => EscapeValue(vs[i], quoteLineFeeds)));
    CsvImport.CellCount(DataLine(row, quoteLineFeeds));
  }

  /** With the corrected rule a data line holds no record break and ends
      outside quotes, whatever its values hold. */
  lemma DataLineRecord(row: ExportRow)
    requires forall v :: v in Values(row) ==> PlainNumber(v)
    ensures LineFeedsOutside(DataLine(row, true), false) == 0
    ensures !CsvImport.QuoteStateAfter(DataLine(row, true), false)
  {
    DataFieldsRead(row, true);
    var vs := Values(row);
    JoinedRead(seq(|vs|, i requires 0 <= i < |vs| => EscapeValue(vs[i], true)));
  }

  /** With the corrected rule a quote-aware reader finds exactly one record
      per row after the header record, whatever line feeds the values hold. */
  lemma ExportRecords(rows: seq<ExportRow>)
    requires rows != []
    requires forall row, v :: row in rows && v in Values(row) ==> PlainNumber(v)
    ensures LineFeedsOutside(ToCsv(rows, true), false) == |rows|
  {
    var lines := [HeaderLine()] + DataLines(rows, true);
    assert ToCsv(rows, true) == Join(lines, "\n");
    HeaderLineRead();
    forall l | l in lines ensures LineFeedsOutside(l, false) == 0 && !CsvImport.QuoteStateAfter(l, false) {
      var k :| 0 <= k < |lines| && lines[k] == l;
      if k > 0 {
        assert rows[k - 1] in rows;
        assert l == DataLine(rows[k - 1], true);
        DataLineRecord(rows[k - 1]);
      }
    }
    JoinedRecords(lines);
  }

  /** A part holding `c` puts `c` in the join. */
  lemma {:induction false} JoinKeeps(parts: seq<String>, sep: String, k: int, c: char)
    requires 0 <= k < |parts| && c in parts[k]
    ensures c in Join(parts, sep)
  {
    if |parts| > 1 {
      if k > 0 {
        JoinKeeps(parts[1..], sep, k - 1, c);
      }
    }
  }

  /** As written, a summary feedback holding a line feed leaves one in its
      row's data line, quoted or not. */
  lemma FeedbackLineFeedKept(row: ExportRow)
    requires row.SessionSummaryFeedback.Str? && '\n' in row.SessionSummaryFeedback.s
    ensures '\n' in DataLine(row, false)
  {
    var feedback := row.SessionSummaryFeedback.s;
    var vs := Values(row);
    var fields := seq(|vs|, i requires 0 <= i < |vs| => EscapeValue(vs[i], false));
    var j :| 0 <= j < |feedback| && feedback[j] == '\n';
    if NeedsQuotes(feedback, false) {
      DoubleQuotesKeeps(feedback, j);
      assert fields[17] == "\"" + DoubleQuotes(feedback) + "\"";
    }
    assert '\n' in fields[17];
    JoinKeeps(fields, ",", 17, '\n');
  }

  /** Doubling quotes keeps every character. */
  lemma {:induction false} DoubleQuotesKeeps(s: String, j: int)
    requires 0 <= j < |s|
    ensures s[j] in DoubleQuotes(s)
  {
    var chunk: String := if s[0] == '"' then "\"\"" else [s[0]];
    assert DoubleQuotes(s) == chunk + DoubleQuotes(s[1..]);
    if j == 0 {
      assert chunk[0] == s[0];
    } else {
      DoubleQuotesKeeps(s[1..], j - 1);
    }
  }

  /** As written, the fallback session feedback, which opens with a line
      feed, puts a line feed in its row's data line, so splitting the
      export at line feeds no longer gives the header and one line per row. */
  lemma FallbackFeedbackBreaksLines(session: Session, record: StepRecord, questionCount: nat, average: real, fixed2: real -> String)
    requires session.sessionSummary.Some?
    requires session.sessionSummary.value.overallFeedback == Analyzer.FallbackFeedback(questionCount, average, fixed2)
    ensures '\n' in DataLine(MakeRow(session, record), false)
    ensures Split(ToCsv([MakeRow(session, record)], false), "\n") != [HeaderLine(), DataLine(MakeRow(session, record), false)]
  {
    var row := MakeRow(session, record);
    assert row.SessionSummaryFeedback == Str(session.sessionSummary.value.overallFeedback);
    FeedbackLineFeedKept(row);
    LineNotAPiece(ToCsv([row], false), DataLine(row, false));
  }

  /** A line holding a line feed is none of the pieces of a split at line
      feeds. */
  lemma LineNotAPiece(text: String, line: String)
    requires '\n' in line
    ensures line !in Split(text, "\n")
  {
    SplitPiecesAvoid(text, '\n');
  }

  /** A name without commas, quotes or line feeds. */
  predicate PlainName(h: String) {
    ',' !in h && '"' !in h && '\n' !in h
  }

  /** Header names are plain words. */
  lemma HeadersPlain()
    ensures forall h :: h in Headers ==> PlainName(h)
  {
    SessionHeadersPlain();
    QuestionHeadersPlain();
    AnalysisHeadersPlain();
    SummaryHeadersPlain();
  }

  lemma SessionHeadersPlain()
    ensures forall h :: h in SessionHeaders ==> PlainName(h)
  {
    assert PlainName(SessionHeaders[0]);
    assert PlainName(SessionHeaders[1]);
    assert PlainName(SessionHeaders[2]);
    assert PlainName(SessionHeaders[3]);
    assert PlainName(SessionHeaders[4]);
    assert PlainName(SessionHeaders[5]);
  }

  lemma QuestionHeadersPlain()
    ensures forall h :: h in QuestionHeaders ==> PlainName(h)
  {
    assert PlainName(QuestionHeaders[0]);
    assert PlainName(QuestionHeaders[1]);
    assert PlainName(QuestionHeaders[2]);
    assert PlainName(QuestionHeaders[3]);
    assert PlainName(QuestionHeaders[4]);
  }

  lemma AnalysisHeadersPlain()
    ensures forall h :: h in AnalysisHeaders ==> PlainName(h)
  {
    assert PlainName(AnalysisHeaders[0]);
    assert PlainName(AnalysisHeaders[1]);
    assert PlainName(AnalysisHeaders[2]);
    assert PlainName(AnalysisHeaders[3]);
    assert PlainName(AnalysisHeaders[4]);
  }

  lemma SummaryHeadersPlain()
    ensures forall h :: h in SummaryHeaders ==> PlainName(h)
  {
    assert PlainName(SummaryHeaders[0]);
    assert PlainName(SummaryHeaders[1]);
  }

  /** The header line is read as one record of one field per header. */
  lemma HeaderLineRead()
    ensures CsvImport.CommasOutside(HeaderLine(), false) == |Headers| - 1
    ensures LineFeedsOutside(HeaderLine(), false) == 0
    ensures !CsvImport.QuoteStateAfter(HeaderLine(), false)
  {
    HeadersPlain();
    forall h | h in Headers
      ensures CsvImport.CommasOutside(h, false) == 0 && !CsvImport.QuoteStateAfter(h, false)
      ensures LineFeedsOutside(h, false) == 0
    {
      PlainRead(h, false);
    }
    JoinedRead(Headers);
  }

  /** The header line, read by the project's own CSV line reader, has one
      cell per header. */
  lemma HeaderLineWidth()
    ensures |CsvImport.LineCells(HeaderLine())| == |Headers|
  {
    HeaderLineRead();
    CsvImport.CellCount(HeaderLine());
  }
}
