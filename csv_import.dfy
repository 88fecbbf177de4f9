/** The `uploadCsv` procedure of the project router: the hand-written
    line/character scanner `parseCSV`, the header check and the per-row
    extraction of question pairs. Deleting and inserting rows in the store
    is not part of this model; the procedure returns the pairs it would
    insert. */
module CsvImport {
  import opened Wrappers
  import opened Text
  import opened Records

  // ---------------------------------------------------------------------
  // The character scanner of one line
  // ---------------------------------------------------------------------

  /** The scanner's variables after some prefix of a line: the quote flag,
      the fields already closed by a comma (untrimmed; the code trims each
      as it pushes it) and the field being built. */
  datatype ScanState = ScanState(inQuotes: bool, closed: seq<String>, current: String)

  /** One turn of the character loop: a quote flips the flag and is dropped,
      a comma outside quotes closes the field, anything else is appended. */
  function Step(st: ScanState, c: char): ScanState {
    if c == '"' then st.(inQuotes := !st.inQuotes)
    else if c == ',' && !st.inQuotes then ScanState(st.inQuotes, st.closed + [st.current], [])
    else st.(current := st.current + [c])
  }

  /** The scanner's state after the first `n` characters of `line`. */
  function Scan(line: String, n: nat): ScanState
    requires n <= |line|
  {
    if n == 0 then ScanState(false, [], []) else Step(Scan(line, n - 1), line[n - 1])
  }

  /** The fields of a line before trimming: the closed ones and the last. */
  function RawFields(line: String): seq<String> {
    var st := Scan(line, |line|);
    st.closed + [st.current]
  }

  /** Trims every field. */
  function TrimAll(fields: seq<String>): (cells: seq<String>)
    ensures |cells| == |fields|
    ensures forall i :: 0 <= i < |fields| ==> cells[i] == Trim(fields[i])
  {
    seq(|fields|, i requires 0 <= i < |fields| => Trim(fields[i]))
  }

  /** The row that `parseCSV` produces for one line. */
  function LineCells(line: String): seq<String> {
    TrimAll(RawFields(line))
  }

  /** Scans one line as the body of `parseCSV`'s `for (const line of lines)`
      does. */
  method ParseLine(line: String) returns (row: seq<String>)
    ensures row == LineCells(line)
  {
    row := [];
    var inQuotes := false;
    var currentValue: String := [];
    ghost var closed: seq<String> := [];
    var charIndex := 0;
    while charIndex < |line|
      invariant 0 <= charIndex <= |line|
      invariant Scan(line, charIndex) == ScanState(inQuotes, closed, currentValue)
      invariant row == TrimAll(closed)
    {
      var c := line[charIndex];
      assert Scan(line, charIndex + 1) == Step(Scan(line, charIndex), c);
      if c == '"' {
        inQuotes := !inQuotes;
      } else if c == ',' && !inQuotes {
        TrimAllSnoc(closed, currentValue);
        row := row + [Trim(currentValue)];
        closed := closed + [currentValue];
        currentValue := [];
      } else {
        currentValue := currentValue + [c];
      }
      charIndex := charIndex + 1;
    }
    assert RawFields(line) == closed + [currentValue];
    TrimAllSnoc(closed, currentValue);
    row := row + [Trim(currentValue)];
  }

  /** Trimming a list with one more field trims that field too. */
  lemma TrimAllSnoc(fields: seq<String>, last: String)
    ensures TrimAll(fields + [last]) == TrimAll(fields) + [Trim(last)]
  {
    assert forall i :: 0 <= i < |fields| ==> (fields + [last])[i] == fields[i];
  }

  // ---------------------------------------------------------------------
  // What the scanner does, stated without the scanner
  // ---------------------------------------------------------------------

  /** The quote flag after reading `s` from `inQuotes`: flipped by every
      quote character. */
  function QuoteStateAfter(s: String, inQuotes: bool): bool {
    if s == [] then inQuotes
    else QuoteStateAfter(s[1..], if s[0] == '"' then !inQuotes else inQuotes)
  }

  /** How many commas of `s` are read while the quote flag is off. */
  function CommasOutside(s: String, inQuotes: bool): nat {
    if s == [] then 0
    else if s[0] == '"' then CommasOutside(s[1..], !inQuotes)
    else if s[0] == ',' && !inQuotes then 1 + CommasOutside(s[1..], inQuotes)
    else CommasOutside(s[1..], inQuotes)
  }

  /** The characters of `s` that land in some field: all but the quote
      characters and the commas read outside quotes, in order. */
  function Kept(s: String, inQuotes: bool): String {
    if s == [] then []
    else if s[0] == '"' then Kept(s[1..], !inQuotes)
    else if s[0] == ',' && !inQuotes then Kept(s[1..], inQuotes)
    else [s[0]] + Kept(s[1..], inQuotes)
  }

  /** The three readings above compose over concatenation. */
  lemma {:induction false} ReadAppend(a: String, b: String, inQuotes: bool)
    ensures QuoteStateAfter(a + b, inQuotes) == QuoteStateAfter(b, QuoteStateAfter(a, inQuotes))
    ensures CommasOutside(a + b, inQuotes) == CommasOutside(a, inQuotes) + CommasOutside(b, QuoteStateAfter(a, inQuotes))
    ensures Kept(a + b, inQuotes) == Kept(a, inQuotes) + Kept(b, QuoteStateAfter(a, inQuotes))
  {
    if a == [] {
      assert a + b == b;
    } else {
      assert (a + b)[1..] == a[1..] + b;
      var next := if a[0] == '"' then !inQuotes else inQuotes;
      ReadAppend(a[1..], b, next);
    }
  }

  /** The concatenation of a list of strings. */
  function Concat(parts: seq<String>): String {
    if parts == [] then [] else Concat(parts[..|parts| - 1]) + parts[|parts| - 1]
  }

  /** The scanner's state after `n` characters, described by the readings:
      the flag is the quote parity, one field is closed per comma outside
      quotes, no field holds a quote, and the fields together hold exactly
      the kept characters. */
  lemma {:induction false} ScanReads(line: String, n: nat)
    requires n <= |line|
    ensures ReadsAs(Scan(line, n), line[..n])
  {
    if n > 0 {
      ScanReads(line, n - 1);
      assert line[..n] == line[..n - 1] + [line[n - 1]];
      StepReads(Scan(line, n - 1), line[..n - 1], line[n - 1]);
    }
  }

  /** The scanner's state after reading `read` agrees with the three
      readings of `read`, and no field holds a quote character. */
  predicate ReadsAs(st: ScanState, read: String) {
    && st.inQuotes == QuoteStateAfter(read, false)
    && |st.closed| == CommasOutside(read, false)
    && Concat(st.closed + [st.current]) == Kept(read, false)
    && (forall f :: f in st.closed + [st.current] ==> '"' !in f)
  }

  /** One turn of the character loop keeps that agreement. */
  lemma StepReads(st: ScanState, pre: String, c: char)
    requires ReadsAs(st, pre)
    ensures ReadsAs(Step(st, c), pre + [c])
  {
    ReadAppend(pre, [c], false);
    var fields := st.closed + [st.current];
    assert Concat(fields) == Concat(st.closed) + st.current by {
      assert fields[..|fields| - 1] == st.closed;
    }
    var st' := Step(st, c);
    if c == ',' && !st.inQuotes {
      assert st'.closed + [st'.current] == fields + [[]];
      assert (fields + [[]])[..|fields|] == fields;
    } else if c != '"' {
      assert (st'.closed + [st'.current])[..|st'.closed|] == st.closed;
    }
  }

  /** A row has one cell more than the line has commas outside quotes. */
  lemma CellCount(line: String)
    ensures |LineCells(line)| == 1 + CommasOutside(line, false)
  {
    ScanReads(line, |line|);
    assert line[..|line|] == line;
  }

  /** No cell of a row contains a quote character. */
  lemma CellsHaveNoQuotes(line: String)
    ensures forall cell :: cell in LineCells(line) ==> '"' !in cell
  {
    ScanReads(line, |line|);
    var raw := RawFields(line);
    forall i | 0 <= i < |raw| ensures '"' !in Trim(raw[i]) {
      assert raw[i] in raw;
      if '"' in Trim(raw[i]) {
        TrimKeeps(raw[i], '"');
      }
    }
  }

  /** Each cell is its untrimmed field trimmed, and the untrimmed fields
      together are exactly the line's kept characters, in order. */
  lemma CellsKeepCharacters(line: String)
    ensures |LineCells(line)| == |RawFields(line)|
    ensures forall i :: 0 <= i < |RawFields(line)| ==> LineCells(line)[i] == Trim(RawFields(line)[i])
    ensures Concat(RawFields(line)) == Kept(line, false)
  {
    ScanReads(line, |line|);
    assert line[..|line|] == line;
  }

  // ---------------------------------------------------------------------
  // The whole text
  // ---------------------------------------------------------------------

  /** The lines of the upload: the trimmed text split at line feeds. */
  function Lines(csvText: String): seq<String> {
    Split(Trim(csvText), "\n")
  }

  /** The rows `parseCSV` returns: one per line. */
  function Rows(csvText: String): seq<seq<String>> {
    var lines := Lines(csvText);
    seq(|lines|, i requires 0 <= i < |lines| => LineCells(lines[i]))
  }

  /** There is one row per line of the trimmed text, so never none; the
      lines hold no line feed and rejoin to the trimmed text. */
  lemma RowsPerLine(csvText: String)
    ensures |Rows(csvText)| == |Lines(csvText)| >= 1
    ensures forall line :: line in Lines(csvText) ==> '\n' !in line
    ensures Join(Lines(csvText), "\n") == Trim(csvText)
  {
    JoinSplit(Trim(csvText), "\n");
    SplitPiecesAvoid(Trim(csvText), '\n');
  }

  /** `parseCSV`. */
  method ParseCsv(csvText: String) returns (rows: seq<seq<String>>)
    ensures rows == Rows(csvText)
  {
    var lines := Split(Trim(csvText), "\n");
    ghost var all := Rows(csvText);
    assert |all| == |lines|;
    rows := [];
    for k := 0 to |lines|
      invariant rows == all[..k]
    {
      var row := ParseLine(lines[k]);
      assert all[..k + 1] == all[..k] + [LineCells(lines[k])];
      rows := rows + [row];
    }
    assert all[..|lines|] == all;
  }

  // ---------------------------------------------------------------------
  // Header check
  // ---------------------------------------------------------------------

  /** The columns every upload must have, in the order the error lists them. */
  const RequiredColumns: seq<String> := ["questionId", "questionText", "answerA", "answerB"]

  /** Header cell `j` is non-empty and lower-cases to `key`. */
  predicate Names(header: seq<String>, j: int, key: String) {
    0 <= j < |header| && header[j] != [] && ToLower(header[j]) == key
  }

  /** `columnMap` after the loop over the header's entries: each non-empty
      header cell, lower-cased, maps to its index, the last such index
      winning. */
  function ColumnMapOf(header: seq<String>): (columnMap: map<String, nat>)
    ensures MapsHeader(header, columnMap)
    decreases |header|
  {
    if header == [] then map[]
    else
      var m := ColumnMapOf(header[..|header| - 1]);
      var last := |header| - 1;
      ColumnMapStep(header, m);
      if header[last] != [] then m[ToLower(header[last]) := last] else m
  }

  /** `columnMap` maps exactly the keys some header cell names, each to
      the last cell naming it. */
  ghost predicate MapsHeader(header: seq<String>, columnMap: map<String, nat>) {
    && (forall key :: key in columnMap <==> exists j :: Names(header, j, key))
    && (forall key :: key in columnMap ==> Names(header, columnMap[key], key))
    && (forall key, k :: key in columnMap && columnMap[key] < k < |header| ==> !Names(header, k, key))
  }

  /** One more header cell: the map for all but the last cell, updated
      with the last cell when it is non-empty, is the map for the whole
      header. */
  lemma ColumnMapStep(header: seq<String>, m: map<String, nat>)
    requires header != [] && MapsHeader(header[..|header| - 1], m)
    ensures MapsHeader(header, if header[|header| - 1] != [] then m[ToLower(header[|header| - 1]) := |header| - 1] else m)
  {
    var init := header[..|header| - 1];
    var last := |header| - 1;
    assert forall j, key :: 0 <= j < last ==> (Names(init, j, key) <==> Names(header, j, key));
    if header[last] != [] {
      assert Names(header, last, ToLower(header[last]));
    }
  }

  /** The loop that fills `columnMap`. */
  method BuildColumnMap(header: seq<String>) returns (columnMap: map<String, nat>)
    ensures columnMap == ColumnMapOf(header)
  {
    columnMap := map[];
    for index := 0 to |header|
      invariant columnMap == ColumnMapOf(header[..index])
    {
      assert header[..index + 1][..index] == header[..index];
      var columnName := header[index];
      if columnName != [] {
        columnMap := columnMap[ToLower(columnName) := index];
      }
    }
    assert header[..|header|] == header;
  }

  /** `xs` is `ys` with some elements left out, the rest in their order. */
  predicate IsSubsequence(xs: seq<String>, ys: seq<String>)
    decreases |ys|
  {
    if xs == [] then true
    else if ys == [] then false
    else if xs[0] == ys[0] then IsSubsequence(xs[1..], ys[1..])
    else IsSubsequence(xs, ys[1..])
  }

  /** `columns.filter(col => columnMap[col.toLowerCase()] === undefined)`. */
  function FilterMissing(columns: seq<String>, columnMap: map<String, nat>): (missing: seq<String>)
    ensures forall c :: c in missing <==> c in columns && ToLower(c) !in columnMap
    ensures IsSubsequence(missing, columns)
  {
    if columns == [] then []
    else
      var rest := FilterMissing(columns[1..], columnMap);
      if ToLower(columns[0]) !in columnMap then [columns[0]] + rest else rest
  }

  /** `missingColumns`. */
  function MissingColumns(columnMap: map<String, nat>): seq<String> {
    FilterMissing(RequiredColumns, columnMap)
  }

  // ---------------------------------------------------------------------
  // Rows to question pairs
  // ---------------------------------------------------------------------

  /** A question pair as `uploadCsv` would create it. */
  datatype NewPair = NewPair(
    questionId: String,
    questionText: String,
    answerA: String,
    answerB: String,
    order: nat)

  /** `row[index] ?? ""`. */
  function CellAt(row: seq<String>, index: nat): String {
    if index < |row| then row[index] else []
  }

  /** The cell of `row` under the lower-cased column `key`, or under the
      fallback position when the header lacks it (`columnMap[key] ?? n`). */
  function Field(row: seq<String>, columnMap: map<String, nat>, key: String, fallback: nat): String {
    CellAt(row, if key in columnMap then columnMap[key] else fallback)
  }

  function QuestionIdOf(row: seq<String>, columnMap: map<String, nat>): String {
    Field(row, columnMap, "questionid", 0)
  }

  function QuestionTextOf(row: seq<String>, columnMap: map<String, nat>): String {
    Field(row, columnMap, "questiontext", 1)
  }

  function AnswerAOf(row: seq<String>, columnMap: map<String, nat>): String {
    Field(row, columnMap, "answera", 2)
  }

  function AnswerBOf(row: seq<String>, columnMap: map<String, nat>): String {
    Field(row, columnMap, "answerb", 3)
  }

  /** All four required cells of a data row are present and non-empty. */
  predicate RowComplete(row: seq<String>, columnMap: map<String, nat>) {
    QuestionIdOf(row, columnMap) != [] && QuestionTextOf(row, columnMap) != []
    && AnswerAOf(row, columnMap) != [] && AnswerBOf(row, columnMap) != []
  }

  /** `pair` carries the four values of `row` under the column map. */
  predicate PairFromRow(pair: NewPair, row: seq<String>, columnMap: map<String, nat>) {
    && pair.questionId == QuestionIdOf(row, columnMap)
    && pair.questionText == QuestionTextOf(row, columnMap)
    && pair.answerA == AnswerAOf(row, columnMap)
    && pair.answerB == AnswerBOf(row, columnMap)
  }

  const MissingDataError := ApiError(BadRequest, "Missing data in CSV row")

  /** The loop over the data rows: the first incomplete row aborts the upload;
      otherwise the `i`-th data row gives the pair of order `i` whose fields
      are that row's cells under the four columns. */
  method ExtractPairs(dataRows: seq<seq<String>>, columnMap: map<String, nat>)
    returns (r: Result<seq<NewPair>, ApiError>)
    ensures r.Err? <==> exists i :: 0 <= i < |dataRows| && !RowComplete(dataRows[i], columnMap)
    ensures r.Err? ==> r.error == MissingDataError
    ensures r.Ok? ==> |r.value| == |dataRows|
    ensures r.Ok? ==> forall i :: 0 <= i < |dataRows| ==>
      r.value[i] == NewPair(QuestionIdOf(dataRows[i], columnMap), QuestionTextOf(dataRows[i], columnMap),
                            AnswerAOf(dataRows[i], columnMap), AnswerBOf(dataRows[i], columnMap), i)
  {
    var questionPairs: seq<NewPair> := [];
    for index := 0 to |dataRows|
      invariant |questionPairs| == index
      invariant forall i :: 0 <= i < index ==> RowComplete(dataRows[i], columnMap)
      invariant forall i :: 0 <= i < index ==>
        questionPairs[i] == NewPair(QuestionIdOf(dataRows[i], columnMap), QuestionTextOf(dataRows[i], columnMap),
                                    AnswerAOf(dataRows[i], columnMap), AnswerBOf(dataRows[i], columnMap), i)
    {
      var row := dataRows[index];
      var questionId := QuestionIdOf(row, columnMap);
      var questionText := QuestionTextOf(row, columnMap);
      var answerA := AnswerAOf(row, columnMap);
      var answerB := AnswerBOf(row, columnMap);
      if questionId == [] || questionText == [] || answerA == [] || answerB == [] {
        return Err(MissingDataError);
      }
      questionPairs := questionPairs + [NewPair(questionId, questionText, answerA, answerB, index)];
    }
    return Ok(questionPairs);
  }

  // ---------------------------------------------------------------------
  // The procedure
  // ---------------------------------------------------------------------

  const TooFewRowsError := ApiError(BadRequest, "CSV file must contain a header row and at least one data row")

  function MissingColumnsError(missing: seq<String>): ApiError {
    ApiError(BadRequest, "Missing required columns: " + Join(missing, ", "))
  }

  /** What a successful upload reports, with the pairs it creates. */
  datatype UploadResult = UploadResult(success: bool, recordsCreated: nat, pairs: seq<NewPair>)

  /** `uploadCsv` after `parseCSV`: check the row count, check the header,
      then turn every data row into a question pair. */
  method UploadRows(rows: seq<seq<String>>) returns (r: Result<UploadResult, ApiError>)
    ensures |rows| < 2 ==> r == Err(TooFewRowsError)
    ensures |rows| >= 2 && MissingColumns(ColumnMapOf(rows[0])) != [] ==>
      r == Err(MissingColumnsError(MissingColumns(ColumnMapOf(rows[0]))))
    ensures |rows| >= 2 && MissingColumns(ColumnMapOf(rows[0])) == [] ==>
      (r.Err? <==> exists i :: 1 <= i < |rows| && !RowComplete(rows[i], ColumnMapOf(rows[0])))
    ensures |rows| >= 2 && MissingColumns(ColumnMapOf(rows[0])) == [] && r.Err? ==> r.error == MissingDataError
    ensures r.Err? ==> r.error.code == BadRequest
    ensures r.Ok? ==> r.value.success && r.value.recordsCreated == |rows| - 1 == |r.value.pairs|
    ensures r.Ok? ==> forall i :: 0 <= i < |r.value.pairs| ==> r.value.pairs[i].order == i
    ensures r.Ok? ==> forall i :: 1 <= i < |rows| ==> PairFromRow(r.value.pairs[i - 1], rows[i], ColumnMapOf(rows[0]))
  {
    if |rows| < 2 {
      return Err(TooFewRowsError);
    }
    var headerRow := rows[0];
    var columnMap := BuildColumnMap(headerRow);
    var missingColumns := FilterMissing(RequiredColumns, columnMap);
    if |missingColumns| > 0 {
      return Err(MissingColumnsError(missingColumns));
    }
    var dataRows := rows[1..];
    var pairs := ExtractPairs(dataRows, columnMap);
    match pairs
    case Err(e) =>
      assert exists i :: 1 <= i < |rows| && !RowComplete(rows[i], columnMap) by {
        var i :| 0 <= i < |dataRows| && !RowComplete(dataRows[i], columnMap);
        assert dataRows[i] == rows[i + 1];
      }
      return Err(e);
    case Ok(questionPairs) =>
      assert forall i :: 1 <= i < |rows| ==> rows[i] == dataRows[i - 1];
      assert forall i :: 1 <= i < |rows| ==> PairFromRow(questionPairs[i - 1], rows[i], columnMap);
      return Ok(UploadResult(true, |questionPairs|, questionPairs));
  }

  /** `uploadCsv`: the rows of the uploaded text, checked and turned into
      question pairs. */
  method UploadCsv(csvContent: String) returns (r: Result<UploadResult, ApiError>)
    ensures |Rows(csvContent)| < 2 ==> r == Err(TooFewRowsError)
    ensures |Rows(csvContent)| >= 2 && MissingColumns(ColumnMapOf(Rows(csvContent)[0])) != [] ==>
      r == Err(MissingColumnsError(MissingColumns(ColumnMapOf(Rows(csvContent)[0]))))
    ensures |Rows(csvContent)| >= 2 && MissingColumns(ColumnMapOf(Rows(csvContent)[0])) == [] ==>
      (r.Err? <==> exists i :: 1 <= i < |Rows(csvContent)| && !RowComplete(Rows(csvContent)[i], ColumnMapOf(Rows(csvContent)[0])))
    ensures |Rows(csvContent)| >= 2 && MissingColumns(ColumnMapOf(Rows(csvContent)[0])) == [] && r.Err? ==>
      r.error == MissingDataError
    ensures r.Err? ==> r.error.code == BadRequest
    ensures r.Ok? ==> r.value.success && r.value.recordsCreated == |Rows(csvContent)| - 1 == |r.value.pairs|
    ensures r.Ok? ==> forall i :: 0 <= i < |r.value.pairs| ==> r.value.pairs[i].order == i
    ensures r.Ok? ==> forall i :: 1 <= i < |Rows(csvContent)| ==>
      PairFromRow(r.value.pairs[i - 1], Rows(csvContent)[i], ColumnMapOf(Rows(csvContent)[0]))
  {
    var rows := ParseCsv(csvContent);
    r := UploadRows(rows);
  }

  /** The header check passes exactly when every required column is named,
      case-insensitively, by some non-empty header cell. */
  lemma HeaderCheck(header: seq<String>)
    ensures MissingColumns(ColumnMapOf(header)) == [] <==>
      forall c :: c in RequiredColumns ==> exists j :: Names(header, j, ToLower(c))
  {
    var m := ColumnMapOf(header);
    if MissingColumns(m) != [] {
      var c := MissingColumns(m)[0];
      assert c in MissingColumns(m);
    }
  }
}
