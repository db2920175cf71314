/** `analyze_candidate_response`: a first request asks the model whether the candidate's
    answer is on topic; only its first two characters are read. An off-topic verdict ends
    the evaluation with a warning built locally; otherwise a second request asks for the
    analysis, which is returned as the model wrote it. */
module Evaluation {
  import opened Base
  import opened PyStr
  import opened Client
  import opened Prompts

  /** The dictionary returned: the analysis text, the time it was made and the verdict. */
  datatype Evaluation = Evaluation(analysis: string, timestamp: string, isRelevant: bool)

  /** `s[:2]`: the first two characters, or all of a shorter string. */
  function Lead(s: string): (r: string)
    ensures |r| == if |s| < 2 then |s| else 2
    ensures forall i | 0 <= i < |r| :: r[i] == s[i]
  {
    if |s| < 2 then s else s[..2]
  }

  /** The relevance reply counts as on topic unless a `0`, `1` or `2` is among its first
      two characters. */
  predicate IsRelevant(relevance: string) {
    var lead := Lead(relevance);
    !('0' in lead || '1' in lead || '2' in lead)
  }

  predicate LowDigit(c: char) {
    c == '0' || c == '1' || c == '2'
  }

  /** The verdict, position by position: off topic exactly when the first or the second
      character is one of `0`, `1`, `2`. */
  lemma RelevanceReadsTwoCharacters(relevance: string)
    ensures !IsRelevant(relevance)
        <==> ((|relevance| >= 1 && LowDigit(relevance[0])) || (|relevance| >= 2 && LowDigit(relevance[1])))
  {
    var lead := Lead(relevance);
    if |lead| == 2 {
      assert lead == [relevance[0], relevance[1]];
    } else if |lead| == 1 {
      assert lead == [relevance[0]];
    }
  }

  /** Nothing after the second character changes the verdict. */
  lemma RelevanceIgnoresTheRest(head: string, rest: string)
    requires |head| >= 2
    ensures IsRelevant(head + rest) == IsRelevant(head)
  {
    assert Lead(head + rest) == Lead(head);
  }

  /** A perfect score read as `10` is taken for off topic, a `7` is on topic, and an
      empty reply is on topic. */
  lemma RelevanceExamples()
    ensures !IsRelevant("10/10 great")
    ensures IsRelevant("7 good")
    ensures IsRelevant("")
  {
    RelevanceReadsTwoCharacters("10/10 great");
    RelevanceReadsTwoCharacters("7 good");
  }

  /** The two conversations the evaluation may send. */
  function RelevanceMessages(question: string, response: string): seq<Message> {
    Conversation(RelevanceSystem, RelevancePrompt(question, response))
  }

  function AnalysisMessages(question: string, response: string): seq<Message> {
    Conversation(AnalysisSystem, AnalysisPrompt(question, response))
  }

  /** `analyze_candidate_response`, with `now` standing for the clock. The relevance
      request (temperature 0.3, at most 100 new tokens) always goes first. An off-topic
      verdict sends nothing more and returns the warning, which quotes the question and
      the relevance reply; an on-topic verdict sends the analysis request (temperature
      0.3, the default 500 new tokens) and returns its reply unchanged. */
  method AnalyzeCandidateResponse(
    configured: bool, response: string, question: string, now: string, service: Service)
    returns (r: Result<Evaluation>, sent: seq<Request>)
    ensures !configured ==> r == Err(ValueError(NotInitialized)) && sent == []
    ensures configured ==> 1 <= |sent| && sent[0] == RequestFor(RelevanceMessages(question, response), 0.3, 100)
    ensures configured ==> r.Ok? && r.value.timestamp == now
    ensures configured ==> r.Ok? && r.value.isRelevant == IsRelevant(service(sent[0]))
    ensures configured && !IsRelevant(service(sent[0])) ==>
      && |sent| == 1
      && r.Ok? && r.value.analysis == OffTopicWarning(question, service(sent[0]))
      && IsInfix(question, r.value.analysis)
      && IsInfix(service(sent[0]), r.value.analysis)
    ensures configured && IsRelevant(service(sent[0])) ==>
      && |sent| == 2
      && sent[1] == RequestFor(AnalysisMessages(question, response), 0.3, 500)
      && r.Ok? && r.value.analysis == service(sent[1])
  {
    var relevancePrompt := RelevancePrompt(question, response);
    var relevanceReply, first := MakeApiRequest(
      configured, Conversation(RelevanceSystem, relevancePrompt), 0.3, 100, service);
    if relevanceReply.Err? {
      return Err(relevanceReply.error), first;
    }
    var relevanceAnalysis := relevanceReply.value;
    if !IsRelevant(relevanceAnalysis) {
      var warning := OffTopicWarning(question, relevanceAnalysis);
      OffTopicWarningQuotes(question, relevanceAnalysis);
      return Ok(Evaluation(warning, now, false)), first;
    }
    var analysisPrompt := AnalysisPrompt(question, response);
    var analysis, second := MakeApiRequest(
      configured, Conversation(AnalysisSystem, analysisPrompt), 0.3, 500, service);
    r, sent := Ok(Evaluation(analysis.value, now, true)), first + second;
  }
}
