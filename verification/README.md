# Screening chatbot session — a Dafny model

This project models the conversation logic of a hiring-assistant chatbot
(`app.py`). There is one global `session` record:
- the intake step;
- the candidate's details;
- the generated technical questions;
- the candidate's answers.

Every chat message goes to `chatbot_response`, which does exactly one of
three things:

- **exit**: the stripped, lower-cased message is `exit`, `quit` or `bye`.
  The collected data is handed to the persistence store, the session is
  reset, and a closing text is returned.
- **intake**: fewer than seven fields are filled. The stripped message is
  stored under the next field, and the next prompt is returned. After the
  seventh field (the tech stack), the language of the tech stack is detected
  and mapped to a language name. Technical questions are then generated once,
  stored, and shown.
- **answer collection**: the stripped message is appended to the answers,
  and an acknowledgment is returned.

The model has four modules.

- `Strings` (`strings.dfy`): Python's `str.strip()` (with the full
  `str.isspace()` set of white-space characters) and `str.lower()`, plus
  the exit-word test built from them.
- `Language` (`language.dfy`): the choice of the questions' language.
  - The detector's verdict falls back to `"en"` when detection fails.
  - The code is then looked up in the five-entry code-to-name table, with
    English as the default.
- `Engine` (`engine.dfy`): the session as a value (`State`) and the pure
  transition `Next` that one message makes.
  - `Next` returns the new state, the reply, and the calls made to the
    outside world (`Effect`: a record persisted, or questions generated).
  - `Run` feeds a list of messages through `Next`.
  - The lemmas state the session invariant, the behaviour of each branch,
    and whole conversations: intake, answers, and a complete interview
    ending in `exit`.
- `Session` (`session.dfy`): the mutable session as a class.
  - Its fields are `step`, `candidate`, `questions` and `answers`.
  - A ghost `log` holds the external calls.
  - `Handle` is `chatbot_response` and `Reset` is `reset`.
  - `Handle` is proved against `Engine.Next`: the session's new fields,
    its reply text and its logged calls are exactly those of `Next`.
  - `Reset` and the constructor are proved against `Engine.Initial`.
  - `Handle` dispatches to `Close`, `Store` and `Append`, one per branch.
    Each states its branch's new fields and log in terms of the old ones.
    `Handle` matches them with `Next` through the branch lemmas
    `ExitResets`, `IntakeStores`, `IntakeCompletes` and `AnswerAppends`.
  - `Valid()` is kept by every method.
- `Sample` (`sample.dfy`): a concrete interview pushed through the model.

The model takes the outside world as parameters:
- `detect: string -> Option<string>` stands for the language detector
  (`None` when it raises).
- `generate: (string, string) -> string` stands for the question
  generator.

The field names are the datatype `Field`. `KeyName` gives the key each
field has in the saved record, and `KeyNameInjective` proves that no two
fields share a key. Replies are the datatype `Reply`, and `ReplyText`
renders them to the exact texts of the source.

Three details of the code that the model follows:
- The message is stripped (app.py:74) before both the exit test and
  storing, so the stored values and answers are stripped, not raw.
- The fourth field is keyed `experience` (app.py:13).
- The stored questions are whatever the generator returned. The code does
  not check that they are non-empty, so the model does not promise that
  they are.

## Model

| member | source | states |
|---|---|---|
| Strings.IsSpace | app.py:74 | the white space `strip()` removes includes blank, tab, newline and carriage return, and never a letter or digit |
| Strings.TrimStart | app.py:74 | the result has no leading white space and is no longer than the input |
| Strings.TrimStartIsSuffix | app.py:74 | what is kept is a suffix of the input and what is cut off is all white space |
| Strings.TrimEnd | app.py:74 | the result has no trailing white space and is no longer than the input |
| Strings.TrimEndIsPrefix | app.py:74 | what is kept is a prefix of the input and what is cut off is all white space |
| Strings.Strip | app.py:74 | `message.strip()` leaves no white space at either end and never grows the text |
| Strings.StripIsTrimmedSlice | app.py:74 | the stripped message is a contiguous piece of the input with only white space before and after it |
| Strings.StripRemovesPadding | app.py:74 | stripping a stripped text padded with any white space gives exactly that text back |
| Strings.StripIdempotent | app.py:74 | stripping twice is stripping once |
| Strings.Lower | app.py:76 | `lower()` keeps the length of the message |
| Strings.IsExitWord | app.py:76 | `message.lower() in ["exit", "quit", "bye"]`: only a three- or four-character message with no white space at either end passes |
| Strings.ExitWordIgnoresCase | app.py:76 | a message is an exit word exactly when its lower-case form is one, and only 3- or 4-character messages are |
| Strings.ExitWordExamples | app.py:76 | `EXIT` and `bYe` are exit words and `exits` is not |
| Strings.PaddedExitWord | app.py:74-76 | an exit word in any case, padded with any white space, is recognised after stripping |
| Language.LanguageName | app.py:97-98 | `hi`, `es`, `fr` and `de` give Hindi, Spanish, French and German (both directions), and every other code gives English |
| Language.DetectedCode | app.py:93-96 | a successful detection gives the detector's code; a failed one gives `"en"`, a code the table knows |
| Language.QuestionLanguage | app.py:93-98 | a failed detection gives English; a detected code gives the table's name for it; the result is always one of the five table names |
| Engine.KeyName | app.py:13 | each field is saved under the entry of `info_keys` at its position in the intake order |
| Engine.KeyNameInjective | app.py:13 | distinct fields have distinct keys in the saved record |
| Engine.InfoKeysDistinct | app.py:13 | the seven intake fields are pairwise different |
| Engine.ReplyText | app.py:101 | the generated questions appear verbatim in the reply that ends intake, between a fixed lead and a fixed tail |
| Engine.Next | app.py:73-104 | one message: strip, exit test first, then intake or answer collection; its own contract says a prompt reply always asks for one of fields 1 to 6, and its behaviour is carried by `NextKeepsInv` and the branch lemmas `ExitResets`, `IntakeStores`, `IntakeCompletes` and `AnswerAppends` |
| Engine.InitialInv | app.py:11-26 | the initial (and reset) session meets the invariant: step 0 and no candidate keys, questions or answers |
| Engine.NextKeepsInv | app.py:85-88 | every message keeps `step <= 7`, the candidate's key set equal to the first `step` fields, no questions or answers before intake ends, and all stored text stripped |
| Engine.StoreKeepsInv | app.py:85-88 | storing under `info_keys[step]` and advancing by one keeps the invariant |
| Engine.FilledKeysNext | app.py:86-88 | filling field `n` adds exactly `info_keys[n]` to the filled keys |
| Engine.FilledKeysCount | app.py:86-88 | the first `n` intake steps fill exactly `n` distinct keys |
| Engine.CandidateSize | app.py:85-88 | under the invariant the candidate holds exactly `step` entries, never more |
| Engine.ExitResets | app.py:76-83 | an exit word in any phase resets to step 0 with an empty candidate, empty questions and no answers, replies with the closing text, and persists the candidate, questions and answers from before the reset |
| Engine.IntakeStores | app.py:85-90 | before the last field, the stripped message goes under `info_keys[step]`, step rises by one, nothing else changes, nothing external is called, and the reply is the next prompt |
| Engine.IntakeCompletes | app.py:91-101 | the last field stores the tech stack, calls the generator exactly once with that tech stack and its resolved language, stores its text verbatim (error text included), and shows it |
| Engine.AnswerAppends | app.py:103-104 | after intake, the stripped message is appended to the answers, nothing else changes, nothing external is called, and the reply is the acknowledgment |
| Engine.Steps | app.py:73 | one reply per message in a conversation; the first reply is the first message's, and the first message's calls come first |
| Engine.Run | app.py:73 | one reply per message in a conversation |
| Engine.StepsAppend | app.py:73-104 | a conversation split in two is its first part followed by the second from where the first left off |
| Engine.RunAppend | app.py:73-104 | the same split for conversations through `chatbot_response` |
| Engine.RunCons | app.py:73-104 | a conversation is its first message's transition followed by the rest |
| Engine.OneStep | app.py:73-104 | a one-message conversation is one transition |
| Engine.StripAll | app.py:74 | one result per message, and the result at each position is that message stripped |
| Engine.FillKeys | app.py:85-88 | a run of intake steps adds exactly the keys of the fields it fills |
| Engine.FillValues | app.py:85-88 | each intake message is stored, stripped, under its own field |
| Engine.FillFirst | app.py:85-88 | the first field filled keeps its value through the later intake steps |
| Engine.FillKeeps | app.py:85-88 | intake steps leave every other key untouched |
| Engine.FillLast | app.py:85-88 | filling one more field after a run of fields is the same as filling them in one run |
| Engine.NoExitWordSlice | app.py:76 | a piece of a list of non-exit messages has no exit message |
| Engine.IntakePrompts | app.py:89-90 | non-exit intake messages that do not finish intake store their fields in order, reply with the following prompts in order (from a fresh session: prompts 1, 2, ...), and call nothing external |
| Engine.AnswersCollected | app.py:103-104 | non-exit messages after intake are appended, stripped and in order, to the answers; every reply is the acknowledgment; nothing external is called |
| Engine.FullIntake | app.py:85-101 | seven non-exit messages from a fresh session fill all seven fields, reply with prompts 1 to 6 and then the questions, and call the generator exactly once, with the stripped tech stack |
| Engine.LastIntakeStep | app.py:91-101 | the message that completes intake, as a one-message conversation |
| Engine.ExitStep | app.py:76-83 | an exit word as a one-message conversation resets and persists the pre-reset record |
| Engine.AnswersThenExit | app.py:76-104 | answers followed by an exit word are acknowledged one by one, then the record with all answers is persisted and the session resets |
| Engine.Interview | app.py:73-104 | a whole interview (seven fields, any number of answers, exit) gives the prompts, the questions, one acknowledgment per answer and the closing text; it generates once and persists one record with the seven stripped fields, the questions and the stripped answers; and it ends reset |
| Session.NextKeepsConsistent | app.py:91-100 | every message keeps the invariant, and once intake is over the stored questions and tech stack are those of the last generator call |
| Session.Session.constructor | app.py:11-26 | the session starts at step 0 with nothing collected and nothing called |
| Session.Session.Reset | app.py:66-70 | `reset` returns the session to its initial state and calls nothing external |
| Session.Session.Handle | app.py:73-104 | `chatbot_response` updates the session in place exactly as `Next` says, returns its reply's text, logs its external calls, and keeps the invariant |
| Session.Session.Close | app.py:76-83 | the exit branch persists the pre-reset candidate, questions and answers, then resets |
| Session.Session.Store | app.py:85-101 | the intake branch stores the message under `info_keys[step]` and advances; at the last field it generates the questions once and stores them |
| Session.Session.Append | app.py:103-104 | the answer branch appends the message and changes nothing else |
| Sample.PlainMessage | app.py:74-76 | a stripped message of a length no exit word has is kept as it is and is not an exit word |
| Sample.SampleInterview | app.py:73-104 | a concrete interview ends reset, with ten replies, one generation for "Python, Go", and one record holding that tech stack and both answers |

## Left out

- The Gradio interface (the chat widget, greeting, clear button and
  download button, app.py:106 onwards) is not modelled. It is UI wiring,
  and its clear button only calls `reset`.
- The body of `generate_questions` (the OpenAI client, app.py:8 and 47-63)
  is not modelled. It is a network call. The model takes it as the
  parameter `generate`, a function that returns text. A failed call returns
  an error text rather than raising (app.py:62-63), so any text is a
  possible result, and the model stores whatever comes back.
- The generator's nondeterminism is not modelled. Each call of `Handle` or
  `Next` takes one fixed function.
- The internals of `langdetect.detect` are not modelled. It is an opaque
  classifier, taken as the parameter `detect`; `None` stands for the
  exception that makes the code fall back to `"en"`.
- The file I/O of `save_json` (app.py:29-44) is not modelled. This covers
  the timestamp it adds and the JSON file it rewrites. It also covers the
  read and write errors inside its `try` (app.py:34-44), which it prints and
  swallows. The model records only what `save_json` is handed, as a
  `Persist` entry in the ghost log.
- Engine.ExitResets: assumes `save_json` returns normally. In the source,
  `os.makedirs` (app.py:31) runs outside the `try`. It can raise, for
  instance when `logs` exists as a plain file or the directory cannot be
  written. The error then leaves `save_json` and `chatbot_response`
  (app.py:77) before `reset()` (app.py:82) runs. The session keeps its data
  and no closing reply is returned. The model always resets and replies
  with the closing text.
- Session.Session.Close and Session.Session.Handle: make the same
  assumption; a save that raises is not modelled.
- Concurrent use of the one global session is not modelled; the program
  has a single session and no concurrency of its own.
- Replies are modelled as their `content` text only; the fixed
  `"role": "assistant"` field around it is left out.
- Strings.Lower: maps only ASCII `A`-`Z`. Python's `lower()` also maps
  other letters. It maps no non-ASCII character to a single ASCII letter of
  `exit`, `quit` or `bye`. U+0130 lowers to two characters, and the Kelvin
  sign lowers to `k`. So the exit test gives the same answer as Python's
  for every message.
- Key strings are not used as map keys. A candidate's details are a map
  from the `Field` datatype, and each field's key string is `KeyName(f)`,
  which is injective. Nothing is lost by this.
