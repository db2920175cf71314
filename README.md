# TalentScout interview helpers in Dafny

This project models the helpers in `utils.py` of the TalentScout hiring assistant. They
surround every call to the hosted language model:

- `make_api_request` turns a role-tagged message list into one `<s>[INST] … [/INST]`
  prompt and sends it.
- `generate_technical_questions` picks an experience tier, asks the model for questions
  and reads the reply as one question per non-blank line.
- `analyze_candidate_response` runs a relevance check first. An off-topic answer gets a
  warning built locally. An on-topic answer is sent for a second, detailed analysis.
- `generate_follow_up_question` asks the current question again after an off-topic
  answer. Otherwise it asks the model for a follow-up and trims the reply.
- `validate_candidate_info` trims the profile fields, lower-cases the e-mail address and
  splits the tech stack on commas.

The language model itself is the parameter `service: Request -> string`: the reply it gives to each
request. Every operation returns the requests it sent (`sent`). Its contract therefore
states how many calls happen, with which prompt and sampling settings, and which replies
reach the result. The global `client` becomes the flag `configured`. When it is false,
each operation that reaches the model returns `Err(ValueError(NotInitialized))` and sends
nothing.

Modules:

- `Base`: `Option`, `Result`, and the two exceptions the helpers raise.
- `PyStr`: the Python string built-ins the helpers use.
  - `str.strip` uses Python's whitespace set.
  - `str.split` on one character follows Python's rule that `""` splits into `[""]`.
  - `sep.join`, `str(int)`, substring `in`.
  - The `[x.strip() for x in parts if x.strip()]` shape used by both parsers.
- `Client`: `make_api_request`. The prompt is built by a loop that appends to a string, as
  in the source, and is proved equal to `Prompt(messages)`.
- `Prompts`: the exact prompt, warning and re-ask texts, and where their inputs appear in
  the prompt that is sent.
- `Questions`, `Evaluation`, `FollowUp`, `Profile`: the four operations that use the client
  or normalise the profile.

Three behaviours differ from what the names, docstrings and comments of `utils.py` suggest.
The model follows the code:

- `validate_candidate_info` is documented as "validate and format" (utils.py:236), but it
  rejects nothing and never fails (utils.py:244-252). It only trims the fields,
  lower-cases the e-mail address and splits the tech stack.
- The comment at utils.py:211 says the original question is asked again. The returned
  text puts the prefix `"Let's try that question again: "` in front of it (utils.py:212).
- `generate_technical_questions` returns the filtered lines as they are (utils.py:129). A
  reply with no non-blank line gives an empty question list, and no error is raised.

The relevance check reads only the first two characters of the relevance reply. So a
perfect score written `10/10` counts as off topic (`Evaluation.RelevanceExamples`).

## Model

| member | source | states |
|---|---|---|
| Client.MakeApiRequest | utils.py:49-73 | With no client: the `ValueError` message and no request sent. Otherwise: exactly one request whose prompt is `Prompt(messages)`, with the fixed model, top-p 0.95 and repetition penalty 1.15. The reply is returned unchanged. |
| Client.LineCases | utils.py:55-60 | A system, user or assistant message contributes `System: `, `Human: ` or `Assistant: `, its content and a line break. A message with any other role contributes nothing. |
| Client.TranscriptAppend | utils.py:54-60 | The prompt body of two message lists in a row is the body of the first followed by the body of the second, so lines follow list order. |
| Client.UnknownRolesIgnored | utils.py:54-60 | The prompt equals the prompt of the known-role messages alone. |
| Client.TranscriptIsJoin | utils.py:53-61 | For known roles, the body is the role-prefixed contents, each followed by a line break. |
| Client.TranscriptLines | utils.py:53-61 | When no content holds a line break, splitting the body at line breaks gives the role-prefixed contents of the known-role messages in order, then one empty piece. |
| Client.TranscriptPair | utils.py:54-60 | A two-message list contributes the first message's line, then the second's. |
| Client.LineQuotes | utils.py:56-60 | A known-role message's content occurs verbatim in its line, right after the role prefix. |
| Prompts.ConversationQuotes | utils.py:122-125 | The user prompt of a system-plus-user conversation occurs verbatim in the prompt sent, at a fixed offset after the system line. |
| Prompts.QuestionPromptNamesEveryTech | utils.py:104-106 | Every technology of the stack occurs verbatim in the question-generation prompt that is sent. |
| Prompts.RelevanceRequestQuotes | utils.py:146-159 | The relevance request carries both the question and the candidate's response verbatim. |
| Prompts.AnalysisRequestQuotes | utils.py:170-187 | The analysis request carries both the question and the candidate's response verbatim. |
| Prompts.OffTopicWarningQuotes | utils.py:164 | The off-topic warning quotes the question and then the relevance reply, each at a fixed offset. |
| Prompts.FollowUpRequestQuotes | utils.py:214-230 | The follow-up request carries the previous response verbatim. |
| Questions.ChooseTier | utils.py:89-101 | The if/elif assignment of level, question count and complexity yields `TierFor(experience)`. |
| Questions.TierBands | utils.py:90-101 | Junior exactly below 2 years. Mid-level exactly from 2 to below 5. Senior exactly from 5. Each boundary year belongs to the higher tier. |
| Questions.MoreExperienceMoreQuestions | utils.py:90-101 | More experience never asks for fewer questions. |
| Questions.GenerateTechnicalQuestions | utils.py:89-129 | With no client: nothing sent. Otherwise: one request, for the tier's conversation at temperature 0.7 with 500 new tokens. The result is the parsed reply. |
| Questions.QuestionsAreStripped | utils.py:128-129 | Every question is non-empty and equal to its own strip. |
| Questions.QuestionsAreLines | utils.py:128-129 | A string is a question exactly when it is the non-empty strip of some line of the reply. |
| Questions.NoQuestions | utils.py:128-129 | The list is empty exactly when the reply is all whitespace. |
| Questions.QuestionsInLineOrder | utils.py:128-129 | The questions of `a + "\n" + b` are those of `a` followed by those of `b`. |
| Questions.QuestionsOfOneLine | utils.py:128-129 | A single line gives its strip as the one question, or no question when it is blank. |
| Questions.QuestionCountBound | utils.py:128-129 | There are at most as many questions as lines, whatever count the tier requested. |
| Evaluation.Lead | utils.py:162 | `s[:2]` is the first two characters, or the whole of a shorter string. |
| Evaluation.RelevanceReadsTwoCharacters | utils.py:162 | A reply is off topic exactly when its first or second character is `0`, `1` or `2`. |
| Evaluation.RelevanceIgnoresTheRest | utils.py:162 | Characters after the second never change the verdict. |
| Evaluation.RelevanceExamples | utils.py:162 | `"10/10 great"` is off topic. `"7 good"` and `""` are on topic. |
| Evaluation.AnalyzeCandidateResponse | utils.py:146-193 | The relevance request (0.3, 100 tokens) always goes first. Off topic: one call, and the analysis is the warning, which quotes the question and the relevance reply. On topic: a second request (0.3, 500 tokens), and the analysis is its reply unchanged. The flag is the verdict. The timestamp is the clock value given. |
| FollowUp.GenerateFollowUpQuestion | utils.py:210-232 | Off topic: no call, client or not, and the result is the re-ask prefix plus the current question, or a `KeyError` when there is none. On topic: one request (0.7, 200 tokens), and the result is its reply stripped. |
| FollowUp.FollowUpIsTrimmedReply | utils.py:232 | The follow-up has no surrounding whitespace. It is blank exactly when the reply is. It equals a reply that had no surrounding whitespace. |
| Profile.TechStackEntries | utils.py:251 | Every tech-stack entry is non-empty, trimmed and free of commas. |
| Profile.TechStackMembers | utils.py:251 | A string is an entry exactly when it is the non-empty strip of some piece between commas. |
| Profile.TechStackInOrder | utils.py:251 | The entries of `a + "," + b` are those of `a` followed by those of `b`. |
| Profile.EmptyTechStack | utils.py:251 | The empty field gives no technologies. |
| Profile.TechStackLoosely | utils.py:251 | For any three entries, `a, b ,c,` reads as `[a, b, c]`: spaces around commas and a trailing comma are ignored. |
| Profile.TechStackExample | utils.py:251 | `"a, b ,c,"` reads as `["a", "b", "c"]`. |
| Profile.TechStackRoundTrip | utils.py:251 | Joining normalised entries with `", "` and parsing again gives the same list. |
| Profile.ValidatedIsNormalized | utils.py:244-252 | Every text field of a validated profile is trimmed. The e-mail address is also lower-case. The tech-stack entries are trimmed, non-empty and comma-free. |
| Profile.NormalizedIsFixed | utils.py:244-252 | Validating a normalised profile again, given back as a form, returns it unchanged. |
| Profile.ValidationIdempotent | utils.py:244-252 | Validating a validated profile again changes nothing. |
| Profile.EmptyFormDefaults | utils.py:244-252 | Missing fields read as empty text, 0 years and no technologies. Validation never fails. |
| PyStr.StripBounds | utils.py:129 | `strip()` removes exactly the leading and trailing whitespace: the result is a slice with only whitespace outside it and non-whitespace at both ends. |
| PyStr.StripLowerCommute | utils.py:246 | Trimming and lower-casing the e-mail address commute. |
| PyStr.JoinSplit | utils.py:128 | Joining the pieces of `split(sep)` with `sep` gives back the string. |
| PyStr.SplitJoin | utils.py:128 | Splitting a join of separator-free pieces gives back the pieces. |
| PyStr.SplitParts | utils.py:128 | `split(sep)` gives one more piece than there are separators, and no piece holds one. |
| PyStr.StrippedNonBlankMembers | utils.py:129 | The parser keeps exactly the non-empty strips of its pieces. |
| PyStr.StrippedNonBlankConcat | utils.py:129 | The parser keeps order: the parse of two lists in a row is the two parses in a row. |

## Left out

- `app.py`, the Streamlit interface with its session state and reruns, is not part of this model.
- Loading the API key and building the client (utils.py:9-35) are left out. Only the `configured` flag is kept.
- The network call (utils.py:64-71) is the parameter `service`.
  - The model treats it as a function of the request, so two equal requests get equal replies.
  - Transport errors and timeouts it could raise are not modelled.
  - Sampling settings are passed through as values and never interpreted.
- `datetime.now().isoformat()` is the parameter `now` of `AnalyzeCandidateResponse`.
- The Python dictionary repr of the follow-up context (utils.py:216) is left out. `FollowUp.Context.rendered` stands for that text.
- `int(...)` coercion of the experience field (utils.py:248) is left out. The field is taken as an optional integer.
- `make_api_request` assumes every message has `role` and `content` keys. The helpers always build such messages, so the `KeyError` for a malformed message is not modelled.
- `get_huggingface_client` is left out. It reads the environment, and its `ValueError` is only caught at import time.
- PyStr.Lower: lower-cases only ASCII `A`–`Z`. Python's `str.lower` also maps other Unicode letters.
