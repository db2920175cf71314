/** `generate_technical_questions`: the candidate's years of experience choose a tier, the
    tier and the tech stack shape one request, and the reply is read back as one question
    per non-blank line. */
module Questions {
  import opened Base
  import opened PyStr
  import opened Client
  import opened Prompts

  /** The seniority label, the number of questions asked for and their difficulty. */
  datatype Tier = Tier(level: string, questionCount: nat, complexity: string)

  const Junior: Tier := Tier("junior", 3, "basic to intermediate")
  const MidLevel: Tier := Tier("mid-level", 4, "intermediate to advanced")
  const Senior: Tier := Tier("senior", 5, "advanced to expert")

  /** The tier for a number of years of experience. */
  function TierFor(experience: int): Tier {
    if experience < 2 then Junior
    else if experience < 5 then MidLevel
    else Senior
  }

  /** Below 2 years is junior, from 2 to below 5 mid-level, from 5 on senior; each
      boundary year belongs to the higher tier. */
  lemma TierBands(experience: int)
    ensures TierFor(experience) == Junior <==> experience < 2
    ensures TierFor(experience) == MidLevel <==> 2 <= experience < 5
    ensures TierFor(experience) == Senior <==> 5 <= experience
  {
  }

  /** More experience never asks for fewer questions. */
  lemma MoreExperienceMoreQuestions(e1: int, e2: int)
    requires e1 <= e2
    ensures TierFor(e1).questionCount <= TierFor(e2).questionCount
  {
  }

  /** The if/elif assignment of the three tier settings. */
  method ChooseTier(experience: int) returns (level: string, questionCount: nat, complexity: string)
    ensures Tier(level, questionCount, complexity) == TierFor(experience)
  {
    if experience < 2 {
      level, questionCount, complexity := "junior", 3, "basic to intermediate";
    } else if experience < 5 {
      level, questionCount, complexity := "mid-level", 4, "intermediate to advanced";
    } else {
      level, questionCount, complexity := "senior", 5, "advanced to expert";
    }
  }

  /** The conversation sent for a tier, a tech stack and a number of years. */
  function QuestionMessages(tier: Tier, techStack: seq<string>, experience: int): seq<Message> {
    Conversation(QuestionSystem,
                 QuestionPrompt(tier.questionCount, tier.level, experience, techStack, tier.complexity))
  }

  /** The reply read as questions: each line stripped, blank lines dropped. */
  function ParseQuestions(reply: string): seq<string> {
    StrippedNonBlank(Split(reply, '\n'))
  }

  /** `generate_technical_questions`: one request at temperature 0.7 and the default 500
      new tokens, whose conversation is fixed by the tier of `experience`; the questions
      are the parsed reply. Without a client nothing is sent. */
  method GenerateTechnicalQuestions(
    configured: bool, techStack: seq<string>, experience: int, service: Service)
    returns (r: Result<seq<string>>, sent: seq<Request>)
    ensures !configured ==> r == Err(ValueError(NotInitialized)) && sent == []
    ensures configured ==> sent == [RequestFor(QuestionMessages(TierFor(experience), techStack, experience), 0.7, 500)]
    ensures configured ==> r == Ok(ParseQuestions(service(sent[0])))
  {
    var level, questionCount, complexity := ChooseTier(experience);
    var prompt := QuestionPrompt(questionCount, level, experience, techStack, complexity);
    var messages := Conversation(QuestionSystem, prompt);
    assert messages == QuestionMessages(TierFor(experience), techStack, experience);
    var response;
    response, sent := MakeApiRequest(configured, messages, 0.7, 500, service);
    if response.Err? {
      return Err(response.error), sent;
    }
    r := Ok(ParseQuestions(response.value));
  }

  /** Every question is non-empty and has no surrounding whitespace. */
  lemma QuestionsAreStripped(reply: string)
    ensures forall q | q in ParseQuestions(reply) :: q != "" && Strip(q) == q
  {
    StrippedNonBlankItems(Split(reply, '\n'));
  }

  /** A question is exactly the strip of some non-blank line of the reply. */
  lemma QuestionsAreLines(reply: string, q: string)
    ensures q in ParseQuestions(reply)
        <==> q != "" && exists line :: line in Split(reply, '\n') && Strip(line) == q
  {
    StrippedNonBlankMembers(Split(reply, '\n'), q);
  }

  /** There are no questions exactly when the reply is all whitespace. */
  lemma NoQuestions(reply: string)
    ensures ParseQuestions(reply) == [] <==> AllSpace(reply)
  {
    var lines := Split(reply, '\n');
    StrippedNonBlankEmpty(lines);
    AllSpaceJoin(lines, "\n");
    JoinSplit(reply, '\n');
  }

  /** Questions keep the order of the lines: a line break cuts the list in two. */
  lemma QuestionsInLineOrder(a: string, b: string)
    ensures ParseQuestions(a + "\n" + b) == ParseQuestions(a) + ParseQuestions(b)
  {
    SplitConcat(a, '\n', b);
    StrippedNonBlankConcat(Split(a, '\n'), Split(b, '\n'));
  }

  /** A single line gives its strip as one question, or none when it is blank. */
  lemma QuestionsOfOneLine(line: string)
    requires '\n' !in line
    ensures ParseQuestions(line) == if AllSpace(line) then [] else [Strip(line)]
  {
    SplitNoSeparator(line, '\n');
    StripShape(line);
    assert [line][1..] == [];
  }

  /** There are at most as many questions as lines, whatever count the tier asked for. */
  lemma QuestionCountBound(reply: string)
    ensures |ParseQuestions(reply)| <= multiset(reply)['\n'] + 1
  {
    SplitParts(reply, '\n');
  }
}
