/** The session-detail query of the session router: the session, its
    summary, and its step records each joined with the artifact for its
    question pair. */
module SessionRouter {
  import opened Wrappers
  import opened Text
  import opened Records
  import Export

  /** The stored interview session row. */
  datatype InterviewSession = InterviewSession(
    id: String,
    interviewLinkId: String,
    status: String,
    processed: bool)

  /** A step record spread into a new object with its `analysisArtifact`
      attached (`None` standing for null). */
  datatype RecordWithArtifact = RecordWithArtifact(record: StepRecord, analysisArtifact: Option<Artifact>)

  datatype SessionDetail = SessionDetail(
    session: InterviewSession,
    summary: Option<Summary>,
    stepRecords: seq<RecordWithArtifact>)

  /** The first artifact for the record's question pair, or null. */
  function Attach(record: StepRecord, artifacts: seq<Artifact>): (r: RecordWithArtifact)
    ensures r.record == record
    ensures r.analysisArtifact.None? <==> forall a :: a in artifacts ==> a.questionPairId != record.questionPairId
    ensures r.analysisArtifact.Some? ==>
      exists i :: FirstMatchAt(artifacts, record.questionPairId, i) && artifacts[i] == r.analysisArtifact.value
  {
    RecordWithArtifact(record, FindArtifact(artifacts, record.questionPairId))
  }

  /** `stepRecords.map(...)`: every record, in order, with its artifact. */
  function AttachArtifacts(stepRecords: seq<StepRecord>, artifacts: seq<Artifact>): (r: seq<RecordWithArtifact>)
    ensures |r| == |stepRecords|
    ensures forall i :: 0 <= i < |r| ==> r[i].record == stepRecords[i]
    ensures forall i :: 0 <= i < |r| ==>
      (r[i].analysisArtifact.None? <==> forall a :: a in artifacts ==> a.questionPairId != stepRecords[i].questionPairId)
    ensures forall i :: 0 <= i < |r| && r[i].analysisArtifact.Some? ==>
      exists k :: FirstMatchAt(artifacts, stepRecords[i].questionPairId, k) && artifacts[k] == r[i].analysisArtifact.value
  {
    seq(|stepRecords|, i requires 0 <= i < |stepRecords| => Attach(stepRecords[i], artifacts))
  }

  /** `getSessionDetail`, given what its four queries return: the session
      looked up by id, its summary, its step records (already ordered by
      question pair order) and its artifacts. */
  function GetSessionDetail(
    session: Option<InterviewSession>,
    sessionSummary: Option<Summary>,
    stepRecords: seq<StepRecord>,
    analysisArtifacts: seq<Artifact>): (r: Result<SessionDetail, ApiError>)
    ensures session.None? <==> r == Err(ApiError(NotFound, "Session not found"))
    ensures session.Some? <==> r.Ok?
    ensures r.Ok? ==> r.value.session == session.value && r.value.summary == sessionSummary
    ensures r.Ok? ==> |r.value.stepRecords| == |stepRecords|
    ensures r.Ok? ==> forall i :: 0 <= i < |stepRecords| ==> r.value.stepRecords[i] == Attach(stepRecords[i], analysisArtifacts)
  {
    if session.None? then Err(ApiError(NotFound, "Session not found"))
    else Ok(SessionDetail(session.value, sessionSummary, AttachArtifacts(stepRecords, analysisArtifacts)))
  }

  /** The detail view and the export match artifacts the same way: a record
      has an artifact in the detail view exactly when its export row has
      analysis columns, and then they are that artifact's. */
  lemma DetailAgreesWithExport(session: Export.Session, i: int)
    requires 0 <= i < |session.stepRecords|
    ensures var attached := AttachArtifacts(session.stepRecords, session.analysisArtifacts)[i];
      var row := Export.MakeRow(session, session.stepRecords[i]);
      (attached.analysisArtifact.None? <==> row.WinnerFlag.Null?)
      && (attached.analysisArtifact.Some? ==> Export.ArtifactColumns(row, attached.analysisArtifact.value))
  {
    var record := session.stepRecords[i];
    var attached := AttachArtifacts(session.stepRecords, session.analysisArtifacts)[i];
    var row := Export.MakeRow(session, record);
    if attached.analysisArtifact.Some? {
      var k :| FirstMatchAt(session.analysisArtifacts, record.questionPairId, k)
        && session.analysisArtifacts[k] == attached.analysisArtifact.value;
      var k' :| FirstMatchAt(session.analysisArtifacts, record.questionPairId, k')
        && Export.ArtifactColumns(row, session.analysisArtifacts[k']);
      FirstMatchUnique(session.analysisArtifacts, record.questionPairId, k, k');
    }
  }

  /** There is at most one first match. */
  lemma FirstMatchUnique(artifacts: seq<Artifact>, questionPairId: String, i: int, j: int)
    requires FirstMatchAt(artifacts, questionPairId, i) && FirstMatchAt(artifacts, questionPairId, j)
    ensures i == j
  {
  }
}
