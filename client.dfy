/** The completion client: `make_api_request` folds a role-tagged message list into one
    instruction prompt and sends it, with the sampling settings, to the text-generation
    service. The service itself is a parameter: whatever it replies to a request. */
module Client {
  import opened Base
  import opened PyStr

  /** One `{"role": ..., "content": ...}` message. */
  datatype Message = Message(role: string, content: string)

  /** Everything `client.text_generation` is called with. */
  datatype Request = Request(
    prompt: string,
    model: string,
    maxNewTokens: int,
    temperature: real,
    topP: real,
    repetitionPenalty: real)

  /** The text-generation service, seen as the reply it gives to each request. */
  type Service = Request -> string

  const PromptOpen: string := "<s>[INST] "
  const PromptClose: string := " [/INST]"
  const Model: string := "mistralai/Mistral-7B-Instruct-v0.2"
  const TopP: real := 0.95
  const RepetitionPenalty: real := 1.15
  const NotInitialized: string := "Hugging Face client not initialized. Please check your API key."

  /** The line prefix of each role the prompt knows; any other role has none. */
  function RoleLabel(role: string): Option<string> {
    if role == "system" then Some("System: ")
    else if role == "user" then Some("Human: ")
    else if role == "assistant" then Some("Assistant: ")
    else None
  }

  predicate KnownRole(m: Message) {
    RoleLabel(m.role).Some?
  }

  /** What one message adds to the prompt. */
  function Line(m: Message): string {
    match RoleLabel(m.role)
    case Some(prefix) => prefix + m.content + "\n"
    case None => ""
  }

  /** The prompt body: the lines of the messages, in order. */
  function Transcript(ms: seq<Message>): string {
    if ms == [] then "" else Line(ms[0]) + Transcript(ms[1..])
  }

  /** The full instruction prompt for a message list. */
  function Prompt(ms: seq<Message>): string {
    PromptOpen + Transcript(ms) + PromptClose
  }

  /** The request `make_api_request` sends for these messages and settings. */
  function RequestFor(ms: seq<Message>, temperature: real, maxTokens: int): Request {
    Request(Prompt(ms), Model, maxTokens, temperature, TopP, RepetitionPenalty)
  }

  /** `make_api_request`: without a client it raises before building anything and sends
      nothing; otherwise it sends exactly one request, whose prompt is `Prompt(messages)`,
      and returns the service's reply unchanged. */
  method MakeApiRequest(
    configured: bool, messages: seq<Message>, temperature: real, maxTokens: int, service: Service)
    returns (r: Result<string>, sent: seq<Request>)
    ensures !configured ==> r == Err(ValueError(NotInitialized)) && sent == []
    ensures configured ==> sent == [RequestFor(messages, temperature, maxTokens)]
    ensures configured ==> r == Ok(service(sent[0]))
  {
    if !configured {
      return Err(ValueError(NotInitialized)), [];
    }
    var prompt := PromptOpen;
    for i := 0 to |messages|
      invariant prompt == PromptOpen + Transcript(messages[..i])
    {
      var message := messages[i];
      LineStep(messages, i);
      LineCases(message);
      if message.role == "system" {
        Regroup(prompt, "System: ", message.content);
        prompt := prompt + "System: " + message.content + "\n";
      } else if message.role == "user" {
        Regroup(prompt, "Human: ", message.content);
        prompt := prompt + "Human: " + message.content + "\n";
      } else if message.role == "assistant" {
        Regroup(prompt, "Assistant: ", message.content);
        prompt := prompt + "Assistant: " + message.content + "\n";
      }
    }
    assert messages[..|messages|] == messages;
    prompt := prompt + PromptClose;
    var request := Request(prompt, Model, maxTokens, temperature, TopP, RepetitionPenalty);
    r, sent := Ok(service(request)), [request];
  }

  /** The line of each role, spelled out. */
  lemma LineCases(m: Message)
    ensures m.role == "system" ==> Line(m) == "System: " + m.content + "\n"
    ensures m.role == "user" ==> Line(m) == "Human: " + m.content + "\n"
    ensures m.role == "assistant" ==> Line(m) == "Assistant: " + m.content + "\n"
    ensures !KnownRole(m) ==> Line(m) == ""
  {
  }

  /** Regrouping of one appended line. It is a separate lemma so that the loop of
      `MakeApiRequest` hands the solver this one step instead of letting it search for it
      among the associativity facts, which is far cheaper. */
  lemma Regroup(p: string, prefix: string, content: string)
    ensures p + prefix + content + "\n" == p + (prefix + content + "\n")
  {
  }

  /** Extending the processed prefix by one message adds that message's line. */
  lemma LineStep(ms: seq<Message>, i: int)
    requires 0 <= i < |ms|
    ensures PromptOpen + Transcript(ms[..i + 1]) == PromptOpen + Transcript(ms[..i]) + Line(ms[i])
  {
    assert ms[..i + 1] == ms[..i] + [ms[i]];
    TranscriptAppend(ms[..i], [ms[i]]);
    assert Transcript([ms[i]]) == Line(ms[i]) + Transcript([]);
  }

  /** The body of a two-message list is the line of each in turn. */
  lemma TranscriptPair(m1: Message, m2: Message)
    ensures Transcript([m1, m2]) == Line(m1) + Line(m2)
  {
    assert [m1, m2][1..] == [m2];
    assert [m2][1..] == [];
    assert Transcript([m2]) == Line(m2) + Transcript([]);
    assert Transcript([m1, m2]) == Line(m1) + Transcript([m2]);
  }

  /** A message of a known role contributes its content verbatim, after the role prefix. */
  lemma LineQuotes(m: Message)
    requires KnownRole(m)
    ensures InfixAt(m.content, Line(m), |RoleLabel(m.role).value|)
  {
    var prefix := RoleLabel(m.role).value;
    assert Line(m) == prefix + m.content + "\n";
    InfixMiddle(prefix, m.content, "\n");
  }

  /** The body of a concatenation of message lists is the concatenation of their bodies. */
  lemma {:induction false} TranscriptAppend(a: seq<Message>, b: seq<Message>)
    ensures Transcript(a + b) == Transcript(a) + Transcript(b)
  {
    if a == [] {
      assert a + b == b;
    } else {
      assert (a + b)[0] == a[0];
      assert (a + b)[1..] == a[1..] + b;
      TranscriptAppend(a[1..], b);
    }
  }

  /** The messages whose role the prompt knows, in order. */
  function KnownOnly(ms: seq<Message>): (r: seq<Message>)
    ensures forall m | m in r :: KnownRole(m) && m in ms
  {
    if ms == [] then []
    else (if KnownRole(ms[0]) then [ms[0]] else []) + KnownOnly(ms[1..])
  }

  /** Messages with any other role contribute nothing to the prompt. */
  lemma {:induction false} UnknownRolesIgnored(ms: seq<Message>)
    ensures Prompt(ms) == Prompt(KnownOnly(ms))
    ensures Transcript(ms) == Transcript(KnownOnly(ms))
  {
    if ms != [] {
      UnknownRolesIgnored(ms[1..]);
      var head := if KnownRole(ms[0]) then [ms[0]] else [];
      TranscriptAppend(head, KnownOnly(ms[1..]));
    }
  }

  /** The text of one known-role line, without its line break. */
  function LineText(m: Message): string {
    RoleLabel(m.role).GetOr("") + m.content
  }

  function LineTexts(ms: seq<Message>): (r: seq<string>)
    ensures |r| == |ms|
  {
    if ms == [] then [] else [LineText(ms[0])] + LineTexts(ms[1..])
  }

  /** For known roles the body is the line texts, each followed by a line break. */
  lemma {:induction false} TranscriptIsJoin(ms: seq<Message>)
    requires forall m | m in ms :: KnownRole(m)
    ensures Transcript(ms) == Join(LineTexts(ms) + [""], "\n")
  {
    if ms != [] {
      assert forall m | m in ms[1..] :: m in ms;
      TranscriptIsJoin(ms[1..]);
      var parts := LineTexts(ms) + [""];
      assert parts[0] == LineText(ms[0]);
      assert parts[1..] == LineTexts(ms[1..]) + [""];
      assert KnownRole(ms[0]);
      assert Line(ms[0]) == LineText(ms[0]) + "\n";
      assert Join(parts, "\n") == LineText(ms[0]) + "\n" + Join(parts[1..], "\n");
    }
  }

  /** When no content holds a line break, the prompt body reads back, line by line, as
      the role-prefixed contents of the known-role messages in order (and a final empty
      piece after the last line break). */
  lemma TranscriptLines(ms: seq<Message>)
    requires forall m | m in ms :: '\n' !in m.content
    ensures Split(Transcript(ms), '\n') == LineTexts(KnownOnly(ms)) + [""]
  {
    var ks := KnownOnly(ms);
    UnknownRolesIgnored(ms);
    TranscriptIsJoin(ks);
    var parts := LineTexts(ks) + [""];
    forall p | p in parts ensures '\n' !in p {
      LineTextsFree(ks, p);
    }
    SplitJoin(parts, '\n');
  }

  lemma {:induction false} LineTextsFree(ms: seq<Message>, p: string)
    requires forall m | m in ms :: '\n' !in m.content
    requires p in LineTexts(ms) || p == ""
    ensures '\n' !in p
  {
    if ms != [] && p != "" && p != LineText(ms[0]) {
      assert forall m | m in ms[1..] :: m in ms;
      LineTextsFree(ms[1..], p);
    }
  }
}
