/** The stored entities that the export service, the session router and the
    analysis job read, and the typed errors the routers raise. */
module Records {
  import opened Wrappers
  import opened Text

  /** The tRPC error codes the routers use. */
  datatype ErrorCode = BadRequest | NotFound

  /** A thrown `TRPCError`: its code and its message. */
  datatype ApiError = ApiError(code: ErrorCode, message: String)

  datatype QuestionPair = QuestionPair(
    id: String,
    questionId: String,
    questionText: String,
    answerA: String,
    answerB: String,
    order: nat)

  /** One expert answer for one question of a session, joined with its
      question pair. */
  datatype StepRecord = StepRecord(
    id: String,
    sessionId: String,
    questionPairId: String,
    preferredAnswer: Option<String>,
    transcript: String,
    questionPair: QuestionPair)

  /** The stored judgment for one step record. The two list columns are JSON
      values; they are kept as the text `JSON.stringify` gives for them, and
      `None` stands for a JSON null. The severity is kept as the text
      `String(severityScore)` gives. */
  datatype Artifact = Artifact(
    id: String,
    sessionId: String,
    questionPairId: String,
    winnerFlag: String,
    severityText: String,
    rationaleDigest: String,
    knowledgeGapsJson: Option<String>,
    promptSuggestionsJson: Option<String>)

  /** The stored session summary; `aggregatedInsights` is kept as its JSON
      text, `None` for a JSON null. */
  datatype Summary = Summary(
    aggregatedInsightsJson: Option<String>,
    overallFeedback: String)

  /** `artifacts.find(a => a.questionPairId === questionPairId)`: the first
      artifact for that question pair, if there is one. */
  function FindArtifact(artifacts: seq<Artifact>, questionPairId: String): (r: Option<Artifact>)
    ensures r.None? ==> forall a :: a in artifacts ==> a.questionPairId != questionPairId
    ensures r.Some? ==> r.value.questionPairId == questionPairId
    ensures r.Some? ==> exists i :: FirstMatchAt(artifacts, questionPairId, i) && artifacts[i] == r.value
  {
    if artifacts == [] then None
    else if artifacts[0].questionPairId == questionPairId then Some(artifacts[0])
    else
      var r := FindArtifact(artifacts[1..], questionPairId);
      assert forall i :: FirstMatchAt(artifacts[1..], questionPairId, i) ==> FirstMatchAt(artifacts, questionPairId, i + 1);
      r
  }

  /** Index `i` holds an artifact for `questionPairId` and no earlier index
      does. */
  predicate FirstMatchAt(artifacts: seq<Artifact>, questionPairId: String, i: int) {
    0 <= i < |artifacts| && artifacts[i].questionPairId == questionPairId
    && forall k :: 0 <= k < i ==> artifacts[k].questionPairId != questionPairId
  }
}
