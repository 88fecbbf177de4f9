/** The interview router's `sendMessage`: a mock interviewer that answers
    from a fixed keyword rule and, once an answer is selected, names it. */
module InterviewRouter {
  import opened Wrappers
  import opened Text

  /** The answer an expert selected. */
  datatype Choice = A | B

  function ChoiceLetter(c: Choice): String {
    match c
    case A => "A"
    case B => "B"
  }

  datatype Role = System | User
  datatype ChatMessage = ChatMessage(role: Role, content: String)

  datatype SendMessageInput = SendMessageInput(
    question: String,
    answerA: String,
    answerB: String,
    selectedAnswer: Option<Choice>,
    userMessage: String,
    previousMessages: seq<ChatMessage>)

  /** Which branch of the keyword rule a message falls in. */
  datatype Topic = Reasoning | Preference | Correction | Closing | Other

  const ReasoningReply: String :=
    "That's an excellent question about the reasoning. Could you elaborate on what specific aspects of the answer you found more convincing or accurate?"
  const PreferenceReply: String :=
    "I see you have a preference. What specific elements of the answer made it stand out to you as an expert in this field?"
  const CorrectionReply: String :=
    "You've identified some inaccuracies. Could you point out exactly what's incorrect and how it should be corrected?"
  const ClosingReply: String :=
    "Thank you for your insights! Your expertise is invaluable for improving these responses. Is there anything else you'd like to add before we move on?"
  const DefaultReply: String :=
    "Thank you for sharing your perspective. As an expert, what criteria are you using to evaluate these answers?"

  /** The five fixed replies. */
  const Replies: seq<String> := [ReasoningReply, PreferenceReply, CorrectionReply, ClosingReply, DefaultReply]

  /** Does the lower-cased message contain either keyword? */
  predicate Mentions(lower: String, first: String, second: String) {
    Contains(lower, first) || Contains(lower, second)
  }

  /** The keyword rule on the lower-cased message: the first keyword pair
      that occurs decides. */
  function TopicOf(userMessage: String): (t: Topic)
    ensures var lower := ToLower(userMessage);
      && (t == Reasoning <==> Mentions(lower, "why", "reason"))
      && (t == Preference <==> !Mentions(lower, "why", "reason") && Mentions(lower, "better", "prefer"))
      && (t == Correction <==>
            !Mentions(lower, "why", "reason") && !Mentions(lower, "better", "prefer") && Mentions(lower, "incorrect", "wrong"))
      && (t == Closing <==>
            !Mentions(lower, "why", "reason") && !Mentions(lower, "better", "prefer")
            && !Mentions(lower, "incorrect", "wrong") && Mentions(lower, "thank", "done"))
  {
    var lower := ToLower(userMessage);
    if Mentions(lower, "why", "reason") then Reasoning
    else if Mentions(lower, "better", "prefer") then Preference
    else if Mentions(lower, "incorrect", "wrong") then Correction
    else if Mentions(lower, "thank", "done") then Closing
    else Other
  }

  function ReplyFor(t: Topic): String {
    match t
    case Reasoning => ReasoningReply
    case Preference => PreferenceReply
    case Correction => CorrectionReply
    case Closing => ClosingReply
    case Other => DefaultReply
  }

  /** The reply before personalisation. */
  function BaseReply(userMessage: String): (r: String)
    ensures r in Replies
  {
    ReplyFor(TopicOf(userMessage))
  }

  /** The sentence appended once an answer is selected. */
  function SelectionSuffix(c: Choice): String {
    " I notice you've selected Answer " + ChoiceLetter(c) + ". What specific aspects of it did you find most compelling?"
  }

  /** `sendMessage`'s response. */
  function SendMessage(input: SendMessageInput): (response: String)
    ensures input.selectedAnswer.None? ==> response in Replies
    ensures input.selectedAnswer.Some? ==>
      exists base :: base in Replies && response == base + SelectionSuffix(input.selectedAnswer.value)
  {
    var base := BaseReply(input.userMessage);
    if input.selectedAnswer.Some? then base + SelectionSuffix(input.selectedAnswer.value) else base
  }

  /** The response depends only on the lower-cased message and the
      selection: not on case, the question, the answers or the earlier
      messages. */
  lemma ResponseDependsOnMessageAndSelection(x: SendMessageInput, y: SendMessageInput)
    requires ToLower(x.userMessage) == ToLower(y.userMessage)
    requires x.selectedAnswer == y.selectedAnswer
    ensures SendMessage(x) == SendMessage(y)
  {
  }

  /** Lower-casing the message first changes nothing. */
  lemma CaseInsensitive(userMessage: String)
    ensures TopicOf(ToLower(userMessage)) == TopicOf(userMessage)
  {
    ToLowerIdempotent(userMessage);
  }

  /** A message mentioning "why" or "reason" gets the reasoning reply,
      whatever other keywords it holds. */
  lemma ReasoningFirst(userMessage: String)
    requires Contains(ToLower(userMessage), "why") || Contains(ToLower(userMessage), "reason")
    ensures BaseReply(userMessage) == ReasoningReply
  {
  }

  /** The five replies have five different lengths, and so do the five
      personalised ones, none of which equals a bare reply in length. */
  lemma ReplyLengths(t: Topic, u: Topic)
    ensures |ReplyFor(t)| == |ReplyFor(u)| ==> t == u
    ensures |ReplyFor(t)| + 93 != |ReplyFor(u)|
  {
    assert |ReasoningReply| == 147 && |PreferenceReply| == 118 && |CorrectionReply| == 113;
    assert |ClosingReply| == 148 && |DefaultReply| == 108;
  }

  /** A response is the reply of its branch followed by the suffix for the
      selection, if any. */
  lemma ResponseShape(input: SendMessageInput)
    ensures SendMessage(input) == ReplyFor(TopicOf(input.userMessage)) + Personalisation(input.selectedAnswer)
  {
  }

  /** What follows the base reply. */
  function Personalisation(selectedAnswer: Option<Choice>): String {
    if selectedAnswer.Some? then SelectionSuffix(selectedAnswer.value) else []
  }

  lemma PersonalisationLength(c: Option<Choice>)
    ensures |Personalisation(c)| == (if c.Some? then 93 else 0)
  {
  }

  /** The suffix names the selected answer: different selections give
      different suffixes. */
  lemma SuffixNamesChoice(c: Choice, d: Choice)
    requires SelectionSuffix(c) == SelectionSuffix(d)
    ensures c == d
  {
    assert SelectionSuffix(c)[33] == ChoiceLetter(c)[0];
    assert SelectionSuffix(d)[33] == ChoiceLetter(d)[0];
  }

  /** A base reply followed by a personalisation determines both. */
  lemma ReplyDecodes(t: Topic, u: Topic, c: Option<Choice>, d: Option<Choice>)
    requires ReplyFor(t) + Personalisation(c) == ReplyFor(u) + Personalisation(d)
    ensures t == u && c == d
  {
    var r := ReplyFor(t) + Personalisation(c);
    PersonalisationLength(c);
    PersonalisationLength(d);
    ReplyLengths(t, u);
    ReplyLengths(u, t);
    assert r[|ReplyFor(t)|..] == Personalisation(c);
    assert r[|ReplyFor(u)|..] == Personalisation(d);
    if c.Some? && d.Some? {
      SuffixNamesChoice(c.value, d.value);
    }
  }

  /** Two inputs get the same response exactly when they fall in the same
      branch of the rule and select the same answer, if any. */
  lemma ResponseDetermines(x: SendMessageInput, y: SendMessageInput)
    ensures SendMessage(x) == SendMessage(y) <==>
      TopicOf(x.userMessage) == TopicOf(y.userMessage) && x.selectedAnswer == y.selectedAnswer
  {
    ResponseShape(x);
    ResponseShape(y);
    if SendMessage(x) == SendMessage(y) {
      ReplyDecodes(TopicOf(x.userMessage), TopicOf(y.userMessage), x.selectedAnswer, y.selectedAnswer);
    }
  }
}
