/** The interview page's question-by-question progression: the current
    question, the expert's selection, the chat transcript, and the
    submitting and completed flags, updated by the page's handlers. */
module InterviewSession {
  import opened Wrappers
  import opened Text
  import opened InterviewRouter

  /** A question as the page receives it. */
  datatype Question = Question(id: String, questionText: String, answerA: String, answerB: String)

  /** The `submitAnswer` mutation's input. */
  datatype SubmitRequest = SubmitRequest(
    sessionId: String,
    projectId: String,
    questionId: String,
    questionText: String,
    answerA: String,
    answerB: String,
    preferredAnswer: Choice,
    transcript: String)

  /** What the page shows. */
  datatype Screen =
    | NoQuestions
    | Complete
    | Asking(question: Question, currentStep: nat, totalSteps: nat, submitEnabled: bool)

  class Interview {
    const sessionId: String
    const projectId: String
    const questions: seq<Question>
    var currentQuestionIndex: nat
    var selectedAnswer: Option<Choice>
    var transcript: seq<String>
    var isCompleted: bool
    var isSubmitting: bool

    /** The current question always exists once there are questions. */
    ghost predicate Valid()
      reads this
    {
      (|questions| == 0 ==> currentQuestionIndex == 0)
      && (|questions| > 0 ==> currentQuestionIndex < |questions|)
    }

    /** The initial state. */
    constructor (sessionId: String, questions: seq<Question>, projectId: String)
      ensures Valid()
      ensures this.sessionId == sessionId && this.projectId == projectId && this.questions == questions
      ensures currentQuestionIndex == 0 && selectedAnswer == None && transcript == []
      ensures !isCompleted && !isSubmitting
    {
      this.sessionId := sessionId;
      this.projectId := projectId;
      this.questions := questions;
      currentQuestionIndex := 0;
      selectedAnswer := None;
      transcript := [];
      isCompleted := false;
      isSubmitting := false;
    }

    /** The screen for the current state. */
    function View(): (screen: Screen)
      requires Valid()
      reads this
      ensures screen == NoQuestions <==> |questions| == 0
      ensures screen == Complete <==> |questions| > 0 && isCompleted
      ensures screen.Asking? ==>
        screen.question == questions[currentQuestionIndex]
        && screen.currentStep == currentQuestionIndex + 1
        && 1 <= screen.currentStep <= screen.totalSteps == |questions|
        && (screen.submitEnabled <==> selectedAnswer.Some? && !isSubmitting)
    {
      if |questions| == 0 then NoQuestions
      else if isCompleted then Complete
      else Asking(questions[currentQuestionIndex], currentQuestionIndex + 1, |questions|,
                  selectedAnswer.Some? && !isSubmitting)
    }

    /** `onSelectAnswer`. */
    method SelectAnswer(choice: Choice)
      requires Valid() && |questions| > 0
      modifies this
      ensures Valid()
      ensures selectedAnswer == Some(choice)
      ensures currentQuestionIndex == old(currentQuestionIndex) && transcript == old(transcript)
      ensures isCompleted == old(isCompleted) && isSubmitting == old(isSubmitting)
    {
      selectedAnswer := Some(choice);
    }

    /** `addToTranscript`: one line appended at the end. */
    method AddToTranscript(message: String)
      requires Valid() && |questions| > 0
      modifies this
      ensures Valid()
      ensures transcript == old(transcript) + [message]
      ensures currentQuestionIndex == old(currentQuestionIndex) && selectedAnswer == old(selectedAnswer)
      ensures isCompleted == old(isCompleted) && isSubmitting == old(isSubmitting)
    {
      transcript := transcript + [message];
    }

    /** `handleSubmitQuestion`: nothing without a selection; otherwise the
        mutation starts (`onMutate` sets the submitting flag) with the
        current question, the selection and the transcript lines joined by
        line feeds. */
    method HandleSubmitQuestion() returns (request: Option<SubmitRequest>)
      requires Valid() && |questions| > 0
      modifies this
      ensures Valid()
      ensures old(selectedAnswer).None? ==> request.None? && isSubmitting == old(isSubmitting)
      ensures old(selectedAnswer).Some? ==> isSubmitting && request == Some(SubmitRequest(
        sessionId, projectId,
        questions[currentQuestionIndex].id, questions[currentQuestionIndex].questionText,
        questions[currentQuestionIndex].answerA, questions[currentQuestionIndex].answerB,
        old(selectedAnswer).value, Join(old(transcript), "\n")))
      ensures currentQuestionIndex == old(currentQuestionIndex) && selectedAnswer == old(selectedAnswer)
      ensures transcript == old(transcript) && isCompleted == old(isCompleted)
    {
      if selectedAnswer.None? {
        return None;
      }
      var question := questions[currentQuestionIndex];
      request := Some(SubmitRequest(sessionId, projectId, question.id, question.questionText,
                                    question.answerA, question.answerB,
                                    selectedAnswer.value, Join(transcript, "\n")));
      isSubmitting := true;
    }

    /** The mutation's `onSuccess`: the next question with a fresh selection
        and transcript, or, on the last question, completion with the index
        left where it is. */
    method OnSuccess()
      requires Valid() && |questions| > 0
      modifies this
      ensures Valid()
      ensures !isSubmitting
      ensures old(currentQuestionIndex) < |questions| - 1 ==>
        currentQuestionIndex == old(currentQuestionIndex) + 1 && selectedAnswer == None && transcript == []
        && isCompleted == old(isCompleted)
      ensures old(currentQuestionIndex) == |questions| - 1 ==>
        isCompleted && currentQuestionIndex == old(currentQuestionIndex)
        && selectedAnswer == old(selectedAnswer) && transcript == old(transcript)
    {
      if currentQuestionIndex < |questions| - 1 {
        currentQuestionIndex := currentQuestionIndex + 1;
        selectedAnswer := None;
        transcript := [];
      } else {
        isCompleted := true;
      }
      isSubmitting := false;
    }

    /** The mutation's `onError`: only the submitting flag is cleared. */
    method OnError()
      requires Valid() && |questions| > 0
      modifies this
      ensures Valid()
      ensures !isSubmitting
      ensures currentQuestionIndex == old(currentQuestionIndex) && selectedAnswer == old(selectedAnswer)
      ensures transcript == old(transcript) && isCompleted == old(isCompleted)
    {
      isSubmitting := false;
    }
  }

  /** A submitted transcript splits back into its lines when it has at
      least one line and no line holds a line feed; an empty transcript is
      sent as "" and splits into one empty line. */
  lemma SubmittedTranscriptLines(lines: seq<String>)
    requires forall line :: line in lines ==> '\n' !in line
    ensures lines != [] ==> Split(Join(lines, "\n"), "\n") == lines
    ensures lines == [] ==> Join(lines, "\n") == [] && Split(Join(lines, "\n"), "\n") == [[]]
  {
    if lines == [] {
      SplitJoinEmpty('\n');
    } else {
      SplitJoin(lines, '\n');
    }
  }
}
