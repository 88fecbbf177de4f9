# Expert interview platform — verified model of its core

The platform lets a project owner upload question pairs as CSV. Each pair is a question with two candidate answers. A domain expert then walks through an interview session: they pick the better answer, chat about it, and submit. A background analyzer judges each submitted step and writes one analysis artifact per step. It also writes a session summary, and that summary falls back to a statistical one when the language model fails. The owner can open one session in detail, or export every session of a project as CSV.

This Dafny project models the following parts:

| module | file | models |
|---|---|---|
| `Text` | text.dfy | The JavaScript string operations the code relies on (`trim`, `toLowerCase`, `indexOf`/`includes`, `split`, `join`), over ASCII |
| `Records` | records.dfy | The stored entities the routers and the export read (question pair, step record, analysis artifact, summary) and `find` by question pair |
| `CsvImport` | csv_import.dfy | `uploadCsv` in the project router: the hand-written `parseCSV` scanner (a `while` loop), the column map, the missing-column check and the per-row extraction with its `order` |
| `Analyzer` | analyzer.dfy | The analysis job: transcript normalisation, the schema gate and fallback of `analyzeStepRecord`, the judging loop, and `generateSessionSummary` with its frequency count, sort by count and top five |
| `Export` | export.dfy | `generateProjectExport`: the nested loops that build one row per step record, the value escaping and the CSV text, and how the importer's scanner reads that text back |
| `SessionRouter` | session_router.dfy | `getSessionDetail`: the not-found error and attaching each step record's artifact |
| `InterviewRouter` | interview_router.dfy | `sendMessage`: the keyword rule for the mock reply and the personalisation suffix |
| `InterviewSession` | interview_session.dfy | The `InterviewSession` component as a class: its five state variables, the handlers that update them, and the screen they select |

Calls the model cannot see are function-typed parameters: the language model, `JSON.parse` of a transcript, and `toFixed(2)`. Severity scores are `real`. The database is reduced to the values the code reads and the rows it would write.

## Model

| member | source | states |
|---|---|---|
| Text.Trim | src/server/api/routers/project.ts:69 | `trim` keeps a contiguous slice of its input. It cuts only whitespace on either side and leaves no whitespace at either end. |
| Text.JoinSplit | analysis-server/analyzer.ts:200-204 | Joining the pieces of a split with the same separator gives back the original string, so `parts.slice(1).join(": ")` is everything after the first separator. |
| Text.SplitJoin | src/app/_components/interview/InterviewSession.tsx:100 | Splitting the `"\n"`-join of a non-empty list of pieces free of line feeds gives back the pieces. |
| Text.SplitJoinEmpty | src/app/_components/interview/InterviewSession.tsx:100 | An empty list joins to "", which splits into one empty piece, not into no pieces. |
| Records.FindArtifact | src/server/services/export.ts:71-73 | `find` by question pair gives nothing exactly when no artifact has that question pair. Otherwise it gives the first such artifact in list order. |
| CsvImport.ParseLine | src/server/api/routers/project.ts:54-81 | The character loop over one line yields exactly `LineCells(line)`: fields split at commas outside quotes, with every quote dropped and each field trimmed. |
| CsvImport.StepReads | src/server/api/routers/project.ts:61-77 | One turn of the character loop keeps the scanner's state in agreement with the reading functions of the text read so far, and keeps quotes out of the fields. |
| CsvImport.ScanReads | src/server/api/routers/project.ts:61-77 | After any prefix of a line, the scanner's quote flag, number of closed fields and collected text equal the reading functions `QuoteStateAfter`, `CommasOutside` and `Kept` of that prefix. No field ever holds a quote. |
| CsvImport.ReadAppend | src/server/api/routers/project.ts:61-77 | Quote state, unquoted-comma count and kept text compose over concatenation, with the second part read in the state the first leaves. |
| CsvImport.CellCount | src/server/api/routers/project.ts:61-81 | A line gives one more cell than it has commas outside quotes. |
| CsvImport.CellsHaveNoQuotes | src/server/api/routers/project.ts:64-66 | No cell contains a double quote, because every quote toggles the flag and is dropped. |
| CsvImport.CellsKeepCharacters | src/server/api/routers/project.ts:67-80 | Each cell is its raw field trimmed. The raw fields together are the line without its quotes and its unquoted commas. |
| CsvImport.RowsPerLine | src/server/api/routers/project.ts:52 | There is one row per line of the trimmed text. No line holds a line feed, and the lines rejoin to the trimmed text. |
| CsvImport.ParseCsv | src/server/api/routers/project.ts:50-85 | The loop over the lines yields `Rows(csvText)`, one scanned row per line. |
| CsvImport.ColumnMapOf | src/server/api/routers/project.ts:106-113 | A key is in the column map iff some non-empty header cell lower-cases to it. Its index is a cell that names it, and no later cell names it, so the last one wins. |
| CsvImport.BuildColumnMap | src/server/api/routers/project.ts:107-113 | The loop over the header entries builds exactly `ColumnMapOf(header)`. |
| CsvImport.FilterMissing | src/server/api/routers/project.ts:116-118 | The missing list holds exactly the required columns whose lower-case name is not a key, in their original order. |
| CsvImport.HeaderCheck | src/server/api/routers/project.ts:97-125 | The header check passes iff every required column is named, case-insensitively, by a non-empty header cell. |
| CsvImport.ExtractPairs | src/server/api/routers/project.ts:141-178 | The loop fails with "Missing data in CSV row" iff some data row lacks a non-empty value in one of the four columns. Otherwise pair `i` carries row `i`'s four values and `order == i`. |
| CsvImport.UploadRows | src/server/api/routers/project.ts:87-183 | Fewer than two rows gives the header-and-data error. Missing columns give the error that lists them. Otherwise the upload fails iff some data row is incomplete, and then with "Missing data in CSV row". Every error is BAD_REQUEST. Success reports one record per data row. Pair `i - 1` carries the four values of row `i` under the header's column map and has order `i - 1`. |
| CsvImport.UploadCsv | src/server/api/routers/project.ts:46-183 | The same outcomes, stated over the rows the scanner reads from the uploaded text: the too-few-rows error, the missing-columns error, failure iff some data row is incomplete, with "Missing data in CSV row", every error BAD_REQUEST, and on success one pair per data row carrying that row's four values with orders 0, 1, 2, …. |
| Analyzer.NormalizePlaintext | analysis-server/analyzer.ts:198-208 | A plaintext transcript gives one message per line, each the normalisation of that line. |
| Analyzer.NormalizeLineCut | analysis-server/analyzer.ts:200-207 | A line containing ": " gives the trimmed text before the first ": " as role and the trimmed rest as content. Any other line gives a `system` message with the trimmed line. |
| Analyzer.FirstSeparatorAfterRole | analysis-server/analyzer.ts:215-217 | In a rendered `role: content` line whose role has no ": ", the first ": " is the one right after the role. |
| Analyzer.PlainLine | analysis-server/analyzer.ts:198-217 | Rendering a message whose role and content are trimmed and free of ": " in the role, then normalising the line, gives the message back. |
| Analyzer.NormalizeFlattened | analysis-server/analyzer.ts:198-217 | Round trip: normalising the conversation text of a non-empty list of such messages, each free of line feeds, gives back the message list. An empty conversation reads back as one empty `system` message. |
| Analyzer.AcceptJudgment | analysis-server/analyzer.ts:223-231 | A model judgment is accepted iff its winner is A, B or TIED and its severity lies in [0, 1]. An accepted result satisfies the schema and carries the judgment's five fields. |
| Analyzer.FallbackShape | analysis-server/analyzer.ts:314-323 | The error fallback has the preferred answer or TIED as winner, severity 0.5, the fixed rationale, one gap and one suggestion. It meets the schema when the preferred answer is A, B or absent. |
| Analyzer.AnalyzeStepRecord | analysis-server/analyzer.ts:183-325 | If the model answers with a judgment the schema accepts, that judgment is the result. If the call fails or the schema rejects the answer, the result is the fallback for the preferred answer. So the result always meets the schema or is the fallback, and its severity is in [0, 1]. |
| Analyzer.BumpKeys | analysis-server/analyzer.ts:495-497 | One counting step keeps every existing key in place; the table grows by one, with the item at count 1, exactly when the item had no key. |
| Analyzer.BumpCounts | analysis-server/analyzer.ts:495-497 | With distinct keys, one counting step adds one to the item's own count and leaves every other count unchanged. |
| Analyzer.BumpSpec | analysis-server/analyzer.ts:495-497 | One `forEach` step keeps the keys and their insertion order and adds one to the count of the item. A new item is appended with count 1. Keys stay distinct. |
| Analyzer.TallyCounts | analysis-server/analyzer.ts:492-502 | After counting, the keys are distinct and every item has an entry. Every entry is an item, and its count is the item's number of occurrences. |
| Analyzer.CountFrequencies | analysis-server/analyzer.ts:495-497 | The `forEach` loop builds exactly `Tally(items)`. |
| Analyzer.InsertKeepsOrder | analysis-server/analyzer.ts:505-506 | Inserting an entry into a list sorted by descending count keeps it sorted. |
| Analyzer.SortByCount | analysis-server/analyzer.ts:504-511 | The sorted entries are a permutation of the frequency entries, in descending order of count. |
| Analyzer.TopEntries | analysis-server/analyzer.ts:504-528 | For any descending permutation of a table of true counts, the first five entries are at most five, descending, distinct, and each an item with its number of occurrences. |
| Analyzer.TopLeftOut | analysis-server/analyzer.ts:504-528 | For the same table, an item not among the first five means five were kept and it occurs no more often than the fifth. |
| Analyzer.RankingSpec | analysis-server/analyzer.ts:492-528 | The top list holds at most five entries, in descending count, with distinct texts. Each entry is an item with its true number of occurrences, and anything left out is no more frequent than the fifth. |
| Analyzer.SeveritySumBounds | analysis-server/analyzer.ts:342-344 | The sum of n severities in [0, 1] lies in [0, n]. |
| Analyzer.AverageSeverityBounds | analysis-server/analyzer.ts:342-344 | The average severity of a non-empty list of judgments lies in [0, 1]. |
| Analyzer.FallbackFeedback | analysis-server/analyzer.ts:514-520 | The statistical summary text is non-empty and begins with a line feed. |
| Analyzer.GenerateSessionSummary | analysis-server/analyzer.ts:328-530 | No results gives the default summary. Otherwise (`SummarizesResults`) the count is the number of results and the average is their mean severity. A model answer's lists are taken with every count 1 and its summary text. Without one, the lists are the frequency rankings of all gaps and all suggestions, with the statistical text. |
| Analyzer.JudgeRecords | analysis-server/analyzer.ts:82-120 | The loop judges every step record in order. Record `i` gives result `i` and an artifact for its own question pair in this session. |
| Analyzer.AnalyzeSession | analysis-server/analyzer.ts:75-143 | With no step records, nothing is written. Otherwise there is one artifact per record, in order, holding that record's judgment. The summary is the summary of those judgments (`SummarizesResults`): it counts every record, its average is their mean severity and lies in [0, 1], and its lists follow the model's answer or the frequency rankings. |
| Export.MakeRow | src/server/services/export.ts:60-111 | The analysis columns are null iff no artifact matches the record's question pair. Otherwise all five come from the first matching artifact. The summary feedback column is null iff the session has no summary. |
| Export.ExportRowsLayout | src/server/services/export.ts:58-113 | There is one row per step record across all sessions. The row for step `j` of session `i` sits at the offset of session `i` plus `j`. |
| Export.GenerateRows | src/server/services/export.ts:58-113 | The nested loops build exactly `ExportRows(sessions)`. |
| Export.UndoubleDouble | src/server/services/export.ts:130 | Doubling every quote is undone by reading quote pairs back. |
| Export.EscapeValue | src/server/services/export.ts:124-132 | Null gives the empty field. A string that needs no quoting is written as is. Otherwise the field is quoted, and its inside reads back to the string. |
| Export.UnescapeEscape | src/server/services/export.ts:124-132 | Unescaping an escaped string gives the string back. |
| Export.ToCsv | src/server/services/export.ts:116-138 | Without rows the output is empty, since the headers come from `Object.keys` of an empty object. |
| Export.GenerateProjectExport | src/server/services/export.ts:35-139 | The export is the CSV of the rows in session order, with the quoting rule as written: only values holding `,` or `"` are quoted (see Findings). |
| Export.DataLineOneLine | src/server/services/export.ts:119-134 | A row none of whose values holds a line feed gives a data line free of line feeds. |
| Export.ExportLines | src/server/services/export.ts:116-138 | For such rows, splitting the CSV at line feeds gives the header line followed by one data line per row, in order. |
| Export.EscapedRead | src/server/services/export.ts:124-132 | The importer's scanner reads every escaped value as one field and leaves the quote flag off. With the corrected rule, the field holds no line feed outside quotes. |
| Export.JoinedRecords | src/server/services/export.ts:138 | Joining n lines that each read as one record gives n - 1 record breaks outside quotes. |
| Export.DataLineWidth | src/server/services/export.ts:119-134 | The importer's scanner reads a data line as exactly as many cells as there are headers. |
| Export.HeaderLineWidth | src/server/services/export.ts:116-118 | The header line reads as one cell per header. |
| Export.HeaderLineRead | src/server/services/export.ts:116-118 | The header line has 17 unquoted commas, no line feed, and leaves the quote flag off. |
| Export.DataLineRecord | src/server/services/export.ts:126-134 | With the corrected rule a data line has no line feed outside quotes and leaves the quote flag off. |
| Export.ExportRecords | src/server/services/export.ts:116-138 | With the corrected rule the CSV of n rows has exactly n record breaks outside quotes: a header record plus one record per row. |
| Export.RulesAgree | src/server/services/export.ts:126-130 | The corrected rule changes nothing for rows whose values hold no line feed: the two exports are then identical. |
| Export.FallbackFeedbackBreaksLines | src/server/services/export.ts:126-130 | As written, a row whose session has the statistical fallback summary writes a raw line feed into its data line. Splitting the CSV at line feeds then no longer gives header plus row. |
| SessionRouter.Attach | src/server/api/routers/session.ts:103-111 | The record is kept. Its artifact is null iff none matches its question pair, and otherwise it is the first one that does. |
| SessionRouter.AttachArtifacts | src/server/api/routers/session.ts:103-111 | The `map` keeps the records and their order and attaches to each the first artifact for its question pair, or null. |
| SessionRouter.GetSessionDetail | src/server/api/routers/session.ts:58-131 | An unknown session gives NOT_FOUND "Session not found" (iff). A found session always gives Ok (iff), with the session and summary passed through, with every step record carrying its attached artifact. |
| SessionRouter.DetailAgreesWithExport | src/server/api/routers/session.ts:103-111 | The detail view and the export agree: a record has an artifact iff its export row has analysis columns, and then those columns are that artifact's. |
| InterviewRouter.TopicOf | src/server/api/routers/interview.ts:71-99 | The reply topic follows the priority order why/reason, then better/prefer, then incorrect/wrong, then thank/done, matched on the lower-cased message. Each topic holds exactly when its keywords occur and no earlier pair's do. |
| InterviewRouter.SendMessage | src/server/api/routers/interview.ts:63-107 | Without a selection the response is one of the five replies. With one, it is a reply followed by the suffix naming the selected answer. |
| InterviewRouter.ResponseShape | src/server/api/routers/interview.ts:70-104 | The response is the topic's reply followed by the personalisation for the selection, which is empty when nothing is selected. |
| InterviewRouter.ResponseDependsOnMessageAndSelection | src/server/api/routers/interview.ts:63-107 | Two inputs with the same lower-cased message and the same selection get the same response. |
| InterviewRouter.CaseInsensitive | src/server/api/routers/interview.ts:72-91 | Lower-casing the message first does not change the topic. |
| InterviewRouter.ReasoningFirst | src/server/api/routers/interview.ts:71-76 | A message mentioning "why" or "reason" gets the reasoning reply, whatever else it mentions. |
| InterviewRouter.SuffixNamesChoice | src/server/api/routers/interview.ts:102-104 | Different selections give different suffixes. |
| InterviewRouter.ResponseDetermines | src/server/api/routers/interview.ts:70-106 | Two inputs get the same response iff they fall in the same branch of the keyword rule and select the same answer: the response determines both, and both determine the response. |
| InterviewSession.Interview.constructor | src/app/_components/interview/InterviewSession.tsx:29-33 | The initial state is the first question, no selection, an empty transcript, and neither completed nor submitting. |
| InterviewSession.Interview.View | src/app/_components/interview/InterviewSession.tsx:37-157 | The screen shows "no questions" iff there are none, and "complete" iff there are some and the session is completed. Otherwise it is the current question, at step index + 1 of the total, and submit is enabled iff an answer is selected and nothing is being submitted. |
| InterviewSession.Interview.SelectAnswer | src/app/_components/interview/InterviewSession.tsx:124-132 | Choosing an answer records that answer and changes nothing else. |
| InterviewSession.Interview.AddToTranscript | src/app/_components/interview/InterviewSession.tsx:84-86 | A chat message is appended to the transcript and nothing else changes. |
| InterviewSession.Interview.HandleSubmitQuestion | src/app/_components/interview/InterviewSession.tsx:89-102 | Without a selection nothing is sent and nothing changes. With one, the request carries the session, the project, the current question's fields, the choice and the transcript joined by line feeds, and the submitting flag is set. |
| InterviewSession.Interview.OnSuccess | src/app/_components/interview/InterviewSession.tsx:67-77 | Before the last question, success advances to the next one and clears the selection and transcript. On the last it marks the session completed. Either way submitting ends and the index stays within the questions. |
| InterviewSession.Interview.OnError | src/app/_components/interview/InterviewSession.tsx:78-80 | A failed submission only clears the submitting flag. |
| InterviewSession.SubmittedTranscriptLines | src/app/_components/interview/InterviewSession.tsx:100 | The submitted transcript, split at line feeds, gives back the chat messages when there is at least one message and none contains a line feed. An empty transcript is sent as "", which reads back as one empty line. |

## Left out

**Not modelled**
- The database and transactions are not modelled.
  - `deleteMany` runs before the rows are created, so a "Missing data" error leaves the pairs created before it. The model reports only the error.
  - The ROLLBACK, `randomUUID`, and the INTERNAL_SERVER_ERROR that wraps a store failure are not modelled either.
- The language model, its prompts, normalising its response content and `parser.parse` are outside the model. They appear as a parameter that either yields a judgment or fails.
- `JSON.parse` of a transcript is a parameter. A parse that succeeds on a non-array value (a transcript such as `"42"` or `{}`) is not distinguished. In the source, `messages.map` at analysis-server/analyzer.ts:215 lies outside the parse's `try`/`catch`, so such a value throws a `TypeError` there and the whole session's analysis job fails and rolls back. The model's `jsonParse` parameter yields either a message list or a failure, so this crash is not modelled.
- `toFixed(2)`, `String(number)` and `toISOString` are not modelled, because they are formatting code. Numbers reach the export as already-rendered text, and `toFixed(2)` is a parameter.
- Floating-point rounding is not modelled: severities are exact `real`s.
- `trim` and `toLowerCase` are modelled for ASCII only. Unicode whitespace and non-ASCII case mappings are not.
- JavaScript truthiness of the JSON columns is not modelled in full. An optional JSON column counts as absent only when it is null, so a stored `false`, `0` or `""` is not treated as falsy.
- `JSON.stringify` of the JSON columns is not modelled. The stored text is used as the rendered value.
- The summary's outer `catch` ("Error generating summary.") is not modelled, because none of the modelled steps can throw.
- In the model-success branch of `generateSessionSummary`, the code also counts and sorts gap frequencies but never uses them. The model leaves that computation out.
- The other procedures in these files are not modelled: `getFirstSessionByLinkId`, `getSessionsByLinkId`, `createProject`, `getProjects`, `getProjectById`, `submitAnswer`, and the interview-link router. `handleComplete` (navigation) is left out too.
- React rendering, navigation, and the batching and asynchrony of state updates are not modelled. Each handler is one atomic step.
- The "Error" screen for an undefined current question (InterviewSession.tsx:52-60) is not modelled. `Valid()` keeps the index within the questions, and every handler preserves it.
- The `as` cast of `aggregatedInsights` in `getSessionDetail` has no runtime effect, so the summary passes through unchanged.
- The database's ordering of step records by question order is taken as given: `GetSessionDetail` receives the records already ordered.
- Reading the exported CSV back into export rows is not modelled. The model proves how many fields and records the importer's scanner sees, not a full round trip.

**Contracts weaker than the source**
- Analyzer.SortByCount: the contract states a permutation in descending count but not the tie order. The function itself is a stable insertion sort, like `Array.prototype.sort`. JavaScript lists integer-like object keys (for example `"42"`) before other keys, in numeric order, which the insertion-order association list does not reproduce. Because the ranking keeps only `slice(0, 5)` of the sorted entries, this is not only a matter of order: when an integer-like key ties at the fifth place, the kept items can differ too. For gaps `a, b, c, d, e, 1`, each occurring once, the source keeps `1, a, b, c, d` where `Ranking` keeps `a, b, c, d, e`. The lists that `GenerateSessionSummary` and `AnalyzeSession` state as `Ranking(...)` inherit this difference.
- Analyzer.CountFrequencies: the counts live in an association list with no inherited keys. The source counts into a plain object literal (analysis-server/analyzer.ts:492-502), and that object has inherited properties. For an item named like an inherited property (`constructor`, `toString`, `valueOf`, `hasOwnProperty`, …), the lookup `?? 0` finds the inherited function, so the count becomes a string. That string then makes the sort's `b[1] - a[1]` NaN. For `__proto__` the assignment is ignored and the item is lost. The model counts these items like any other, so the source's counts agree with the model's only for items that are not inherited property names. Modelling the prototype chain and NaN comparisons was judged out of proportion to these names' likelihood as gap texts.
- Analyzer.FallbackFeedback: the contract states only that the text is non-empty and starts with a line feed, the fact the export finding needs. The full template is the function's body.
- Export.ToCsv: the contract states only the empty case. Its line structure and record count are stated by `Export.ExportLines` and `Export.ExportRecords`.

**Behaviour of the code worth knowing**
- The CSV scanner does not implement the `""` escape of RFC 4180. It toggles the quote flag on every `"` and drops it, so a doubled `""` inside a quoted field yields nothing, not one quote character.
- The analysis job writes no summary for a session without step records and does not mark it processed. It commits the transaction straight away.

## Findings

| source | as written | input that shows it | evidently intended | confidence | as-written member | corrected member |
|---|---|---|---|---|---|---|
| src/server/services/export.ts:126-130 | Only values containing `,` or `"` are quoted. A value with a line feed is written raw. | A session whose summary is the statistical fallback text (analysis-server/analyzer.ts:514-520), which starts with a line feed. Its rows put that line feed into the CSV, so the row spans several lines. | Values containing a line feed are quoted too, so each export row stays one CSV record. | not executed; medium — follows from the two cited templates | Export.FallbackFeedbackBreaksLines | Export.ExportRecords |
