/** The texts the interview helpers send to the model, and the warning and re-ask texts
    they build without it. Each prompt is a two-message conversation: a fixed system
    instruction and a user prompt that quotes its inputs verbatim. */
module Prompts {
  import opened PyStr
  import opened Base
  import opened Client

  /** The system message followed by the user message. */
  function Conversation(system: string, user: string): seq<Message> {
    [Message("system", system), Message("user", user)]
  }

  /** Where the user message starts in the prompt sent for a conversation. */
  function UserOffset(system: string): nat {
    |PromptOpen| + |Line(Message("system", system))| + |"Human: "|
  }

  /** The user message of a conversation occurs verbatim in the prompt that is sent. */
  lemma ConversationQuotes(system: string, user: string)
    ensures InfixAt(user, Prompt(Conversation(system, user)), UserOffset(system))
  {
    var m1, m2 := Message("system", system), Message("user", user);
    assert Conversation(system, user) == [m1, m2];
    TranscriptPair(m1, m2);
    var t := Line(m1) + Line(m2);
    InfixMiddle(PromptOpen, t, PromptClose);
    InfixConcat(Line(m1), Line(m2));
    assert RoleLabel(m2.role) == Some("Human: ");
    LineQuotes(m2);
    InfixTrans(user, Line(m2), t, |"Human: "|, |Line(m1)|);
    InfixTrans(user, t, Prompt([m1, m2]), |Line(m1)| + |"Human: "|, |PromptOpen|);
  }

  /** Whatever the user prompt quotes is quoted by the prompt that is sent. */
  lemma UserQuoteSent(a: string, system: string, user: string, i: int)
    requires InfixAt(a, user, i)
    ensures IsInfix(a, Prompt(Conversation(system, user)))
  {
    ConversationQuotes(system, user);
    InfixTrans(a, user, Prompt(Conversation(system, user)), i, UserOffset(system));
  }

  /** What occurs in the middle part of a user prompt occurs in the prompt that is sent. */
  lemma MiddleQuoteSent(a: string, system: string, head: string, middle: string, tail: string, i: int)
    requires InfixAt(a, middle, i)
    ensures IsInfix(a, Prompt(Conversation(system, head + middle + tail)))
  {
    InfixMiddle(head, middle, tail);
    InfixTrans(a, middle, head + middle + tail, i, |head|);
    UserQuoteSent(a, system, head + middle + tail, |head| + i);
  }

  // ---------------------------------------------------------------------------
  // generate_technical_questions
  // ---------------------------------------------------------------------------

  const QuestionSystem: string :=
    "You are a technical interviewer generating relevant interview questions based on experience level and tech stack."

  const QuestionOpen: string := "Generate "
  const QuestionAfterCount: string := " technical interview questions for a "
  const QuestionAfterLevel: string := " developer with "
  const QuestionAfterYears: string :=
    " years of experience.\n    The candidate is familiar with: "
  const QuestionAfterStack: string := "\n    \n    Requirements:\n    1. Questions should be "
  const QuestionAfterComplexity: string :=
    " level\n"
      + "    2. Include at least one question from each technology mentioned\n"
      + "    3. Mix of theoretical and practical questions\n"
      + "    4. Questions should test both knowledge and problem-solving abilities\n"
      + "    5. Include at least one system design or architecture question for "
  const QuestionClose: string :=
    " level\n"
      + "    6. Format each question as a clear, concise string\n    \n    Example format:\n"
      + "    1. [Technology] Question about specific concept\n"
      + "    2. [Technology] Practical problem-solving scenario\n"
      + "    3. [Technology] System design or architecture question\n    "

  /** The question-generation prompt up to and including the technology list. */
  function QuestionHead(count: int, level: string, experience: int): string {
    QuestionOpen + Decimal(count) + QuestionAfterCount + level + QuestionAfterLevel
      + Decimal(experience) + QuestionAfterYears
  }

  /** The question-generation prompt after the technology list. */
  function QuestionTail(level: string, complexity: string): string {
    QuestionAfterStack + complexity + QuestionAfterComplexity + level + QuestionClose
  }

  /** The user prompt: the technologies appear joined by `", "`. */
  function QuestionPrompt(
    count: int, level: string, experience: int, techStack: seq<string>, complexity: string): string
  {
    QuestionHead(count, level, experience) + Join(techStack, ", ") + QuestionTail(level, complexity)
  }

  /** Every technology of the stack occurs in the question prompt that is sent. */
  lemma QuestionPromptNamesEveryTech(
    count: int, level: string, experience: int, techStack: seq<string>, complexity: string, k: nat)
    requires k < |techStack|
    ensures IsInfix(techStack[k],
                    Prompt(Conversation(QuestionSystem,
                                        QuestionPrompt(count, level, experience, techStack, complexity))))
  {
    JoinContains(techStack, ", ", k);
    var i :| InfixAt(techStack[k], Join(techStack, ", "), i);
    MiddleQuoteSent(techStack[k], QuestionSystem, QuestionHead(count, level, experience),
                    Join(techStack, ", "), QuestionTail(level, complexity), i);
  }

  // ---------------------------------------------------------------------------
  // analyze_candidate_response
  // ---------------------------------------------------------------------------

  const RelevanceSystem: string :=
    "You are an expert technical interviewer analyzing response relevance."
  const RelevanceHead: string :=
    "Analyze if the candidate's response is relevant to the technical question.\n    Question: "
  const RelevanceTail: string :=
    "\n    \n    Provide a brief analysis of relevance (1-2 sentences) and a relevance score (0-10).\n"
      + "    If the response is not relevant, explain why.\n    Format: [Score] [Brief Analysis]"

  const AnalysisSystem: string :=
    "You are an expert technical interviewer analyzing candidate responses."
  const AnalysisHead: string :=
    "Analyze the following candidate response to the technical question:\n    Question: "
  const AnalysisTail: string :=
    "\n    \n    Provide a detailed analysis including:\n    1. Technical accuracy (0-10)\n"
      + "    2. Clarity of explanation\n    3. Areas for improvement\n    4. Overall assessment\n"
      + "    \n    Format the response as a structured analysis."

  /** Both evaluation prompts quote the question and then the response. */
  const ResponseLabel: string := "\n    Response: "

  function RelevancePrompt(question: string, response: string): string {
    RelevanceHead + question + ResponseLabel + response + RelevanceTail
  }

  function AnalysisPrompt(question: string, response: string): string {
    AnalysisHead + question + ResponseLabel + response + AnalysisTail
  }

  /** A prompt of the shape head, question, label, response, tail quotes both inputs. */
  lemma QuotesBoth(head: string, question: string, response: string, tail: string)
    ensures InfixAt(question, head + question + ResponseLabel + response + tail, |head|)
    ensures InfixAt(response, head + question + ResponseLabel + response + tail,
                    |head + question + ResponseLabel|)
  {
    var p := head + question + ResponseLabel + response + tail;
    assert p == head + question + (ResponseLabel + response + tail);
    InfixMiddle(head, question, ResponseLabel + response + tail);
    InfixMiddle(head + question + ResponseLabel, response, tail);
  }

  /** The relevance request sent carries both the question and the candidate's response. */
  lemma RelevanceRequestQuotes(question: string, response: string)
    ensures IsInfix(question, Prompt(Conversation(RelevanceSystem, RelevancePrompt(question, response))))
    ensures IsInfix(response, Prompt(Conversation(RelevanceSystem, RelevancePrompt(question, response))))
  {
    QuotesBoth(RelevanceHead, question, response, RelevanceTail);
    var user := RelevancePrompt(question, response);
    UserQuoteSent(question, RelevanceSystem, user, |RelevanceHead|);
    UserQuoteSent(response, RelevanceSystem, user, |RelevanceHead + question + ResponseLabel|);
  }

  /** The analysis request sent carries both the question and the candidate's response. */
  lemma AnalysisRequestQuotes(question: string, response: string)
    ensures IsInfix(question, Prompt(Conversation(AnalysisSystem, AnalysisPrompt(question, response))))
    ensures IsInfix(response, Prompt(Conversation(AnalysisSystem, AnalysisPrompt(question, response))))
  {
    QuotesBoth(AnalysisHead, question, response, AnalysisTail);
    var user := AnalysisPrompt(question, response);
    UserQuoteSent(question, AnalysisSystem, user, |AnalysisHead|);
    UserQuoteSent(response, AnalysisSystem, user, |AnalysisHead + question + ResponseLabel|);
  }

  const WarningHead: string :=
    "\U{26A0}\U{FE0F} Warning: Your response appears to be off-topic or not directly addressing the question.\n\nQuestion asked: "
  const WarningMiddle: string := "\n\nRelevance Analysis: "
  const WarningTail: string :=
    "\n\nPlease provide a response that directly addresses the technical question."

  /** The analysis returned for an off-topic answer, built without a second call. */
  function OffTopicWarning(question: string, relevance: string): string {
    WarningHead + question + WarningMiddle + relevance + WarningTail
  }

  /** The off-topic warning quotes the question and then the relevance reply, verbatim. */
  lemma OffTopicWarningQuotes(question: string, relevance: string)
    ensures InfixAt(question, OffTopicWarning(question, relevance), |WarningHead|)
    ensures InfixAt(relevance, OffTopicWarning(question, relevance),
                    |WarningHead| + |question| + |WarningMiddle|)
  {
    var w := OffTopicWarning(question, relevance);
    assert w == WarningHead + question + (WarningMiddle + relevance + WarningTail);
    InfixMiddle(WarningHead, question, WarningMiddle + relevance + WarningTail);
    InfixMiddle(WarningHead + question + WarningMiddle, relevance, WarningTail);
  }

  // ---------------------------------------------------------------------------
  // generate_follow_up_question
  // ---------------------------------------------------------------------------

  const FollowUpSystem: string :=
    "You are an expert technical interviewer generating focused follow-up questions."
  const FollowUpHead: string :=
    "Based on the candidate's previous response and context, generate a relevant follow-up question:\n"
      + "    Previous Response: "
  const ContextLabel: string := "\n    Context: "
  const FollowUpTail: string :=
    "\n    \n    Requirements:\n"
      + "    1. The follow-up question must be directly related to the previous response\n"
      + "    2. It should build upon the candidate's answer\n"
      + "    3. If the previous response was incomplete, ask for clarification\n"
      + "    4. If the response was comprehensive, ask about related concepts\n"
      + "    5. Keep the question focused and specific\n    \n"
      + "    Generate a focused, relevant follow-up question that builds upon the previous response."

  /** The follow-up prompt; `context` is the text Python prints for the context dictionary. */
  function FollowUpPrompt(previousResponse: string, context: string): string {
    FollowUpHead + previousResponse + ContextLabel + context + FollowUpTail
  }

  /** The follow-up request sent carries the previous response verbatim. */
  lemma FollowUpRequestQuotes(previousResponse: string, context: string)
    ensures IsInfix(previousResponse,
                    Prompt(Conversation(FollowUpSystem, FollowUpPrompt(previousResponse, context))))
  {
    var user := FollowUpPrompt(previousResponse, context);
    assert user == FollowUpHead + previousResponse + (ContextLabel + context + FollowUpTail);
    InfixMiddle(FollowUpHead, previousResponse, ContextLabel + context + FollowUpTail);
    UserQuoteSent(previousResponse, FollowUpSystem, user, |FollowUpHead|);
  }

  /** What an off-topic answer is answered with, in front of the question asked again. */
  const ReaskPrefix: string := "Let's try that question again: "
}
