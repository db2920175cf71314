/** `generate_follow_up_question`: after an off-topic answer the current question is asked
    again without consulting the model; after an on-topic answer the model is asked for a
    follow-up, and its reply is returned with surrounding whitespace removed. */
module FollowUp {
  import opened Base
  import opened PyStr
  import opened Client
  import opened Prompts

  /** The conversation context as far as this operation reads it: the value under
      `current_question`, when there is one, and the text Python prints for the whole
      dictionary, which the follow-up prompt inlines. */
  datatype Context = Context(currentQuestion: Option<string>, rendered: string)

  const CurrentQuestionKey: string := "current_question"

  function FollowUpMessages(previousResponse: string, context: Context): seq<Message> {
    Conversation(FollowUpSystem, FollowUpPrompt(previousResponse, context.rendered))
  }

  /** `generate_follow_up_question`. The relevance flag is read first: when it is false no
      request is sent, whether or not a client exists, and the result is the re-ask text,
      or a KeyError when the context has no current question. When it is true, one request
      is sent (temperature 0.7, at most 200 new tokens) and the result is its stripped reply. */
  method GenerateFollowUpQuestion(
    configured: bool, previousResponse: string, context: Context, isRelevant: bool, service: Service)
    returns (r: Result<string>, sent: seq<Request>)
    ensures !isRelevant ==> sent == []
    ensures !isRelevant && context.currentQuestion.Some? ==>
      r == Ok(ReaskPrefix + context.currentQuestion.value)
    ensures !isRelevant && context.currentQuestion.None? ==> r == Err(KeyError(CurrentQuestionKey))
    ensures isRelevant && !configured ==> r == Err(ValueError(NotInitialized)) && sent == []
    ensures isRelevant && configured ==>
      && sent == [RequestFor(FollowUpMessages(previousResponse, context), 0.7, 200)]
      && r == Ok(Strip(service(sent[0])))
  {
    if !isRelevant {
      match context.currentQuestion
      case None =>
        return Err(KeyError(CurrentQuestionKey)), [];
      case Some(question) =>
        return Ok(ReaskPrefix + question), [];
    }
    var prompt := FollowUpPrompt(previousResponse, context.rendered);
    var reply;
    reply, sent := MakeApiRequest(configured, Conversation(FollowUpSystem, prompt), 0.7, 200, service);
    if reply.Err? {
      return Err(reply.error), sent;
    }
    r := Ok(Strip(reply.value));
  }

  /** A follow-up from the model has no surrounding whitespace, is blank only when the
      reply was, and is the reply itself when the reply had no surrounding whitespace. */
  lemma FollowUpIsTrimmedReply(reply: string)
    ensures Strip(Strip(reply)) == Strip(reply)
    ensures Strip(reply) == [] <==> AllSpace(reply)
    ensures reply != [] && !IsSpace(reply[0]) && !IsSpace(reply[|reply| - 1]) ==> Strip(reply) == reply
  {
    StripIdempotent(reply);
    StripShape(reply);
    if reply != [] && !IsSpace(reply[0]) && !IsSpace(reply[|reply| - 1]) {
      StripFixed(reply);
    }
  }
}
