/** The conversation state machine of `chatbot_response`, as a pure
    transition on a snapshot of the session: given the session and one
    incoming message it yields the new session, the reply and the
    external effects the message triggers (persisting a record, generating
    questions). The mutable session in module Session is specified by it. */
module Engine {
  import opened Strings
  import opened Language

  /** The intake fields; a candidate's details are keyed by them. */
  datatype Field = Name | Email | Phone | Experience | Position | Location | TechStack

  /** The intake fields in the order they are asked for. */
  const InfoKeys: seq<Field> := [Name, Email, Phone, Experience, Position, Location, TechStack]

  /** `session["info_keys"]`: the key strings, in the order of `InfoKeys`. */
  const KeyNames: seq<string> :=
    ["name", "email", "phone", "experience", "position", "location", "tech_stack"]

  /** The key a field is stored under in the saved record: the entry of
      `info_keys` at the field's position in the intake order. */
  function KeyName(f: Field): (k: string)
    ensures forall i :: 0 <= i < |InfoKeys| && InfoKeys[i] == f ==> i < |KeyNames| && k == KeyNames[i]
  {
    match f
    case Name => "name"
    case Email => "email"
    case Phone => "phone"
    case Experience => "experience"
    case Position => "position"
    case Location => "location"
    case TechStack => "tech_stack"
  }

  /** No two fields share a key, so the saved record loses nothing. */
  lemma KeyNameInjective(f: Field, g: Field)
    requires KeyName(f) == KeyName(g)
    ensures f == g
  {
  }

  /** `len(session["prompts"])`: the number of intake steps. */
  const FieldCount: nat := 7

  /** A reply of `chatbot_response`, before it is rendered as text. */
  datatype Reply =
    | Prompt(field: nat)                 // asks for `InfoKeys[field]`
    | QuestionsReady(questions: string)  // ends intake, showing the questions
    | AnswerNoted                        // acknowledges an answer
    | Goodbye                            // follows an exit word

  /** The intake prompts; `Prompts[i]` asks for `InfoKeys[i]`. */
  const Prompts: seq<string> := [
    "What is your full name?",
    "Please enter your email address.",
    "What is your phone number?",
    "How many years of experience do you have?",
    "What position(s) are you applying for?",
    "Where are you currently located?",
    "List your tech stack (languages, frameworks, tools)."
  ]

  const QuestionsLead: string := "Thank you! Based on your tech stack, here are your technical questions:\n\n"

  const QuestionsTail: string := "\n\nPlease answer them one at a time. Type 'exit' to finish."

  /** The text the user sees. The generated questions appear verbatim
      between a fixed lead and a fixed tail. */
  function ReplyText(r: Reply): (text: string)
    requires r.Prompt? ==> r.field < FieldCount
    ensures r.QuestionsReady? ==>
      && |text| == |QuestionsLead| + |r.questions| + |QuestionsTail|
      && text[|QuestionsLead| .. |text| - |QuestionsTail|] == r.questions
      && text[..|QuestionsLead|] == QuestionsLead
      && text[|text| - |QuestionsTail|..] == QuestionsTail
  {
    match r
    case Prompt(field) => Prompts[field]
    case QuestionsReady(questions) => QuestionsLead + questions + QuestionsTail
    case AnswerNoted => "Answer noted. You can continue answering or type 'exit' to finish."
    case Goodbye => "Thank you! Your responses have been saved. We'll be in touch."
  }

  /** A snapshot of the session record's mutable entries. */
  datatype State = State(step: nat, candidate: map<Field, string>, questions: string, answers: seq<string>)

  /** The session as `reset` leaves it (and as the program starts). */
  const Initial: State := State(0, map[], "", [])

  /** What `save_json` is handed on exit (the timestamp is left out). */
  datatype Record = Record(candidateInfo: map<Field, string>, techQuestions: string, answers: seq<string>)

  /** A call into an external collaborator. */
  datatype Effect =
    | Persist(record: Record)
    | Generated(techStack: string, language: string, questions: string)

  datatype Outcome = Outcome(state: State, reply: Reply, effects: seq<Effect>)

  /** The fields filled in by the first `n` intake steps. */
  function FilledKeys(n: nat): set<Field>
    requires n <= FieldCount
  {
    set i | 0 <= i < n :: InfoKeys[i]
  }

  /** The session invariant: `step` stays within the intake steps, the
      candidate holds exactly the fields already asked for, nothing has been
      generated or answered before intake is over, and every stored text is
      already stripped. */
  predicate Inv(s: State) {
    && s.step <= FieldCount
    && s.candidate.Keys == FilledKeys(s.step)
    && (s.step < FieldCount ==> s.questions == "" && s.answers == [])
    && (forall k :: k in s.candidate ==> IsStripped(s.candidate[k]))
    && (forall i :: 0 <= i < |s.answers| ==> IsStripped(s.answers[i]))
  }

  /** The transition `chatbot_response` makes for one incoming message, with
      the language detector and the question generator as parameters. */
  function Next(s: State, message: string,
                detect: string -> Option<string>,
                generate: (string, string) -> string): (o: Outcome)
    ensures o.reply.Prompt? ==> 0 < o.reply.field < FieldCount
  {
    var m := Strip(message);
    if IsExitWord(m) then
      Outcome(Initial, Goodbye, [Persist(Record(s.candidate, s.questions, s.answers))])
    else if s.step < FieldCount then
      var candidate := s.candidate[InfoKeys[s.step] := m];
      var step := s.step + 1;
      if step < FieldCount then
        Outcome(s.(step := step, candidate := candidate), Prompt(step), [])
      else
        var techStack := candidate[TechStack];
        var language := QuestionLanguage(detect(techStack));
        var questions := generate(techStack, language);
        Outcome(State(step, candidate, questions, s.answers), QuestionsReady(questions),
                [Generated(techStack, language, questions)])
    else
      Outcome(s.(answers := s.answers + [m]), AnswerNoted, [])
  }

  lemma InitialInv()
    ensures Inv(Initial)
  {
  }

  lemma {:induction false} FilledKeysNext(n: nat)
    requires n < FieldCount
    ensures FilledKeys(n + 1) == FilledKeys(n) + {InfoKeys[n]}
  {
  }

  /** The first `n` intake steps fill `n` different keys. */
  lemma {:induction false} FilledKeysCount(n: nat)
    requires n <= FieldCount
    ensures |FilledKeys(n)| == n
  {
    if n > 0 {
      FilledKeysCount(n - 1);
      FilledKeysNext(n - 1);
      InfoKeysDistinct();
      assert InfoKeys[n - 1] !in FilledKeys(n - 1);
    } else {
      assert FilledKeys(0) == {};
    }
  }

  /** The candidate never holds more entries than steps taken: exactly
      `step` of them. */
  lemma CandidateSize(s: State)
    requires Inv(s)
    ensures |s.candidate.Keys| == s.step
  {
    FilledKeysCount(s.step);
  }

  /** Every transition keeps the session invariant. */
  lemma NextKeepsInv(s: State, message: string,
                     detect: string -> Option<string>,
                     generate: (string, string) -> string)
    requires Inv(s)
    ensures Inv(Next(s, message, detect, generate).state)
  {
    var m := Strip(message);
    var t := Next(s, message, detect, generate).state;
    if IsExitWord(m) {
      InitialInv();
    } else if s.step < FieldCount {
      StoreKeepsInv(s, m, t);
    } else {
      assert t == s.(answers := s.answers + [m]);
    }
  }

  /** Storing a stripped value under the current field and advancing `step`
      keeps the invariant, whatever the questions become at the last step. */
  lemma StoreKeepsInv(s: State, m: string, t: State)
    requires Inv(s) && s.step < FieldCount && IsStripped(m)
    requires t.step == s.step + 1 && t.candidate == s.candidate[InfoKeys[s.step] := m]
    requires t.answers == s.answers && (t.step < FieldCount ==> t.questions == s.questions)
    ensures Inv(t)
  {
  }

  /** Exit, in every phase: the reply is the closing text, the session is
      back to its initial state, and the one record persisted holds the
      candidate, questions and answers as they were before the reset. */
  lemma ExitResets(s: State, message: string,
                   detect: string -> Option<string>,
                   generate: (string, string) -> string)
    requires IsExitWord(Strip(message))
    ensures Next(s, message, detect, generate)
         == Outcome(State(0, map[], "", []), Goodbye,
                    [Persist(Record(s.candidate, s.questions, s.answers))])
  {
  }

  /** Intake before the last field: the stripped message is stored under
      the field for the current step, `step` goes up by one, nothing else
      changes, no collaborator is called, and the reply is the prompt for the
      next field. */
  lemma IntakeStores(s: State, message: string,
                     detect: string -> Option<string>,
                     generate: (string, string) -> string)
    requires !IsExitWord(Strip(message)) && s.step + 1 < FieldCount
    ensures Next(s, message, detect, generate)
         == Outcome(s.(step := s.step + 1, candidate := s.candidate[InfoKeys[s.step] := Strip(message)]),
                    Prompt(s.step + 1), [])
  {
  }

  /** The last intake field: the stripped message is stored as the tech
      stack; the generator is called exactly once, with that tech stack and
      the language resolved from it; its text, whatever it is (an error
      message included), becomes the questions and is embedded in the reply;
      the answers stay as they were. */
  lemma IntakeCompletes(s: State, message: string,
                        detect: string -> Option<string>,
                        generate: (string, string) -> string)
    requires !IsExitWord(Strip(message)) && s.step == FieldCount - 1
    ensures var techStack := Strip(message);
      var language := QuestionLanguage(detect(techStack));
      var questions := generate(techStack, language);
      Next(s, message, detect, generate)
        == Outcome(State(FieldCount, s.candidate[TechStack := techStack], questions, s.answers),
                   QuestionsReady(questions), [Generated(techStack, language, questions)])
  {
  }

  /** Answer collection: the stripped message is appended to the answers,
      nothing else changes, no collaborator is called, and the reply is the
      fixed acknowledgment. */
  lemma AnswerAppends(s: State, message: string,
                      detect: string -> Option<string>,
                      generate: (string, string) -> string)
    requires !IsExitWord(Strip(message)) && s.step >= FieldCount
    ensures Next(s, message, detect, generate)
         == Outcome(s.(answers := s.answers + [Strip(message)]), AnswerNoted, [])
  {
  }

  /** A conversation: the session after a list of messages, with the replies
      and effects in order. */
  datatype Trace = Trace(state: State, replies: seq<Reply>, effects: seq<Effect>)

  /** Feeding `messages` one by one through a transition function; one reply
      per message. */
  function Steps(transition: (State, string) -> Outcome, s: State, messages: seq<string>): (t: Trace)
    ensures |t.replies| == |messages|
    ensures messages != [] ==> t.replies[0] == transition(s, messages[0]).reply
    ensures messages != [] ==> transition(s, messages[0]).effects <= t.effects
    decreases |messages|
  {
    if messages == [] then Trace(s, [], [])
    else
      var o := transition(s, messages[0]);
      var t := Steps(transition, o.state, messages[1..]);
      Trace(t.state, [o.reply] + t.replies, o.effects + t.effects)
  }

  /** A conversation through `Next` with the given collaborators. */
  function Run(s: State, messages: seq<string>,
               detect: string -> Option<string>,
               generate: (string, string) -> string): (t: Trace)
    ensures |t.replies| == |messages|
  {
    Steps((st, m) => Next(st, m, detect, generate), s, messages)
  }

  /** The prompts for `n` fields in a row, from field `from` on. */
  function Asks(from: nat, n: nat): seq<Reply>
    decreases n
  {
    if n == 0 then [] else [Prompt(from)] + Asks(from + 1, n - 1)
  }

  /** `n` acknowledgments in a row. */
  function Acks(n: nat): seq<Reply> {
    if n == 0 then [] else [AnswerNoted] + Acks(n - 1)
  }

  predicate NoExitWord(messages: seq<string>) {
    forall i :: 0 <= i < |messages| ==> !IsExitWord(Strip(messages[i]))
  }

  /** Every message stripped, in order. */
  function StripAll(messages: seq<string>): (r: seq<string>)
    ensures |r| == |messages|
    ensures forall i :: 0 <= i < |r| ==> r[i] == Strip(messages[i])
  {
    if messages == [] then [] else [Strip(messages[0])] + StripAll(messages[1..])
  }

  /** The candidate after intake steps `from`, `from + 1`, ... have stored
      the stripped `messages`. */
  function Fill(candidate: map<Field, string>, from: nat, messages: seq<string>): map<Field, string>
    requires from + |messages| <= FieldCount
    decreases |messages|
  {
    if messages == [] then candidate
    else Fill(candidate[InfoKeys[from] := Strip(messages[0])], from + 1, messages[1..])
  }

  /** The seven field names are different from one another. */
  lemma InfoKeysDistinct()
    ensures forall i, j :: 0 <= i < j < FieldCount ==> InfoKeys[i] != InfoKeys[j]
  {
  }

  /** Filling adds exactly the keys of the fields it fills. */
  lemma {:induction false} FillKeys(candidate: map<Field, string>, from: nat, messages: seq<string>)
    requires from + |messages| <= FieldCount
    ensures forall k :: k in Fill(candidate, from, messages) <==>
      k in candidate || k in InfoKeys[from .. from + |messages|]
    decreases |messages|
  {
    if messages != [] {
      var next := candidate[InfoKeys[from] := Strip(messages[0])];
      FillKeys(next, from + 1, messages[1..]);
      var fields := InfoKeys[from .. from + |messages|];
      assert fields == [InfoKeys[from]] + InfoKeys[from + 1 .. from + |messages|];
    }
  }

  /** The value stored under a field, if any. */
  function FieldValue(candidate: map<Field, string>, f: Field): Option<string> {
    if f in candidate then Some(candidate[f]) else None
  }

  /** Filling stores each stripped message under its own field. */
  lemma {:induction false} FillValues(candidate: map<Field, string>, from: nat, messages: seq<string>)
    requires from + |messages| <= FieldCount
    ensures forall i :: 0 <= i < |messages| ==> FieldValue(Fill(candidate, from, messages), InfoKeys[from + i]) == Some(Strip(messages[i]))
    decreases |messages|
  {
    if messages != [] {
      var next := candidate[InfoKeys[from] := Strip(messages[0])];
      FillValues(next, from + 1, messages[1..]);
      var c := Fill(candidate, from, messages);
      forall i | 0 <= i < |messages|
        ensures FieldValue(c, InfoKeys[from + i]) == Some(Strip(messages[i]))
      {
        if i == 0 {
          FillFirst(candidate, from, messages);
        } else {
          var j := i - 1;
          assert from + i == (from + 1) + j && messages[1..][j] == messages[i];
        }
      }
    }
  }

  /** The first field filled keeps its value through the later ones. */
  lemma FillFirst(candidate: map<Field, string>, from: nat, messages: seq<string>)
    requires messages != [] && from + |messages| <= FieldCount
    ensures var c := Fill(candidate, from, messages);
      InfoKeys[from] in c && c[InfoKeys[from]] == Strip(messages[0])
  {
    InfoKeysDistinct();
    FillKeeps(candidate[InfoKeys[from] := Strip(messages[0])], from + 1, messages[1..], InfoKeys[from]);
  }

  /** Filling does not touch a key that is none of the fields it fills. */
  lemma {:induction false} FillKeeps(candidate: map<Field, string>, from: nat, messages: seq<string>, k: Field)
    requires from + |messages| <= FieldCount
    requires k in candidate
    requires forall i :: from <= i < from + |messages| ==> InfoKeys[i] != k
    ensures k in Fill(candidate, from, messages) && Fill(candidate, from, messages)[k] == candidate[k]
    decreases |messages|
  {
    if messages != [] {
      FillKeeps(candidate[InfoKeys[from] := Strip(messages[0])], from + 1, messages[1..], k);
    }
  }

  /** No message of a slice is an exit word when none of the whole is. */
  lemma NoExitWordSlice(messages: seq<string>, i: nat, j: nat)
    requires i <= j <= |messages| && NoExitWord(messages)
    ensures NoExitWord(messages[i..j])
  {
  }

  /** A conversation split in two is the first part followed by the second
      from where the first left off. */
  lemma {:induction false} StepsAppend(transition: (State, string) -> Outcome,
                                       s: State, a: seq<string>, b: seq<string>)
    ensures var ta := Steps(transition, s, a);
      var tb := Steps(transition, ta.state, b);
      Steps(transition, s, a + b) == Trace(tb.state, ta.replies + tb.replies, ta.effects + tb.effects)
    decreases |a|
  {
    if a != [] {
      assert (a + b)[0] == a[0] && (a + b)[1..] == a[1..] + b;
      StepsAppend(transition, transition(s, a[0]).state, a[1..], b);
    } else {
      assert a + b == b;
    }
  }

  lemma RunAppend(s: State, a: seq<string>, b: seq<string>,
                  detect: string -> Option<string>,
                  generate: (string, string) -> string)
    ensures var ta := Run(s, a, detect, generate);
      var tb := Run(ta.state, b, detect, generate);
      Run(s, a + b, detect, generate) == Trace(tb.state, ta.replies + tb.replies, ta.effects + tb.effects)
  {
    StepsAppend((st, m) => Next(st, m, detect, generate), s, a, b);
  }

  /** Non-exit messages during intake that do not finish it: each is stored
      under its field, the replies are the following prompts in order, and
      no collaborator is called. */
  lemma {:induction false} IntakePrompts(s: State, messages: seq<string>,
                                         detect: string -> Option<string>,
                                         generate: (string, string) -> string)
    requires s.step + |messages| < FieldCount && NoExitWord(messages)
    ensures var t := Run(s, messages, detect, generate);
      && t.state == s.(step := s.step + |messages|, candidate := Fill(s.candidate, s.step, messages))
      && t.replies == Asks(s.step + 1, |messages|)
      && t.effects == []
    decreases |messages|
  {
    if messages != [] {
      var rest := messages[1..];
      var next := s.(step := s.step + 1, candidate := s.candidate[InfoKeys[s.step] := Strip(messages[0])]);
      IntakeStores(s, messages[0], detect, generate);
      NoExitWordSlice(messages, 1, |messages|);
      IntakePrompts(next, rest, detect, generate);
      RunCons(s, messages, detect, generate);
      EmptyConcat(Run(next, rest, detect, generate).effects);
    }
  }

  /** Non-exit messages after intake: they are appended, stripped and in
      order, to the answers; nothing else changes; every reply is the
      acknowledgment; no collaborator is called. */
  lemma {:induction false} AnswersCollected(s: State, messages: seq<string>,
                                            detect: string -> Option<string>,
                                            generate: (string, string) -> string)
    requires s.step >= FieldCount && NoExitWord(messages)
    ensures var t := Run(s, messages, detect, generate);
      && t.state == s.(answers := s.answers + StripAll(messages))
      && t.replies == Acks(|messages|)
      && t.effects == []
    decreases |messages|
  {
    if messages != [] {
      var m, rest := Strip(messages[0]), messages[1..];
      var next := s.(answers := s.answers + [m]);
      AnswerAppends(s, messages[0], detect, generate);
      NoExitWordSlice(messages, 1, |messages|);
      AnswersCollected(next, rest, detect, generate);
      RunCons(s, messages, detect, generate);
      assert StripAll(messages) == [m] + StripAll(rest);
      ConcatAssoc(s.answers, [m], StripAll(rest));
    } else {
      ConcatEmpty(s.answers);
    }
  }

  /** A conversation is its first transition followed by the rest. */
  lemma RunCons(s: State, messages: seq<string>,
                detect: string -> Option<string>,
                generate: (string, string) -> string)
    requires messages != []
    ensures var o := Next(s, messages[0], detect, generate);
      var t := Run(o.state, messages[1..], detect, generate);
      Run(s, messages, detect, generate) == Trace(t.state, [o.reply] + t.replies, o.effects + t.effects)
  {
  }

  /** Intake from a fresh session: seven non-exit messages are stored,
      stripped, under the seven fields; the replies are the six remaining
      prompts in order and then the questions reply; the generator is called
      exactly once, with the stripped tech stack; no answer is recorded. */
  lemma {:induction false} FullIntake(intake: seq<string>,
                                      detect: string -> Option<string>,
                                      generate: (string, string) -> string)
    requires |intake| == FieldCount && NoExitWord(intake)
    ensures var t := Run(Initial, intake, detect, generate);
      var techStack := Strip(intake[FieldCount - 1]);
      var language := QuestionLanguage(detect(techStack));
      var questions := generate(techStack, language);
      && t.state == State(FieldCount, Fill(map[], 0, intake), questions, [])
      && t.replies == Asks(1, FieldCount - 1) + [QuestionsReady(questions)]
      && t.effects == [Generated(techStack, language, questions)]
  {
    var first, last := intake[..FieldCount - 1], intake[FieldCount - 1];
    var t1 := Run(Initial, first, detect, generate);
    assert intake == first + [last];
    NoExitWordSlice(intake, 0, FieldCount - 1);
    IntakePrompts(Initial, first, detect, generate);
    LastIntakeStep(t1.state, last, detect, generate);
    RunAppend(Initial, first, [last], detect, generate);
    assert InfoKeys[FieldCount - 1] == TechStack;
    FillLast(map[], 0, first, last);
  }

  /** The message that completes intake, as a one-message conversation. */
  lemma LastIntakeStep(s: State, message: string,
                       detect: string -> Option<string>,
                       generate: (string, string) -> string)
    requires !IsExitWord(Strip(message)) && s.step == FieldCount - 1
    ensures var techStack := Strip(message);
      var language := QuestionLanguage(detect(techStack));
      var questions := generate(techStack, language);
      Run(s, [message], detect, generate)
        == Trace(State(FieldCount, s.candidate[TechStack := techStack], questions, s.answers),
                 [QuestionsReady(questions)], [Generated(techStack, language, questions)])
  {
    IntakeCompletes(s, message, detect, generate);
    OneStep(s, message, detect, generate);
  }

  /** A conversation of one message is one transition. */
  lemma OneStep(s: State, message: string,
                detect: string -> Option<string>,
                generate: (string, string) -> string)
    ensures var o := Next(s, message, detect, generate);
      Run(s, [message], detect, generate) == Trace(o.state, [o.reply], o.effects)
  {
    var transition := (st, m) => Next(st, m, detect, generate);
    var o := transition(s, message);
    assert [message][1..] == [];
    assert Steps(transition, o.state, []) == Trace(o.state, [], []);
    assert [o.reply] + [] == [o.reply];
    assert o.effects + [] == o.effects;
  }

  /** A whole interview from a fresh session: seven intake messages, then
      answers, then an exit word. The replies are the six remaining prompts,
      the questions reply and one acknowledgment per answer, then the closing
      text; the generator is called once, with the stripped tech stack; the
      one record persisted holds the seven stripped fields, the generated
      questions and the stripped answers, as many as were sent; and the
      session ends where it started. */
  lemma {:induction false} Interview(intake: seq<string>, answers: seq<string>, exit: string,
                                     detect: string -> Option<string>,
                                     generate: (string, string) -> string)
    requires |intake| == FieldCount && NoExitWord(intake) && NoExitWord(answers)
    requires IsExitWord(Strip(exit))
    ensures var t := Run(Initial, intake + answers + [exit], detect, generate);
      var techStack := Strip(intake[FieldCount - 1]);
      var language := QuestionLanguage(detect(techStack));
      var questions := generate(techStack, language);
      && t.state == Initial
      && t.replies == Asks(1, FieldCount - 1) + [QuestionsReady(questions)]
                      + Acks(|answers|) + [Goodbye]
      && t.effects == [Generated(techStack, language, questions),
                       Persist(Record(Fill(map[], 0, intake), questions, StripAll(answers)))]
  {
    var techStack := Strip(intake[FieldCount - 1]);
    var language := QuestionLanguage(detect(techStack));
    var questions := generate(techStack, language);
    var t1 := Run(Initial, intake, detect, generate);
    assert t1 == Trace(State(FieldCount, Fill(map[], 0, intake), questions, []),
                       Asks(1, FieldCount - 1) + [QuestionsReady(questions)],
                       [Generated(techStack, language, questions)]) by {
      FullIntake(intake, detect, generate);
    }
    var rec := Record(Fill(map[], 0, intake), questions, StripAll(answers));
    var t2 := Run(t1.state, answers + [exit], detect, generate);
    assert t2 == Trace(Initial, Acks(|answers|) + [Goodbye], [Persist(rec)]) by {
      AnswersThenExit(t1.state, answers, exit, detect, generate);
      EmptyConcat(StripAll(answers));
    }
    assert intake + answers + [exit] == intake + (answers + [exit]);
    RunAppend(Initial, intake, answers + [exit], detect, generate);
  }

  /** After intake, answers and then an exit word: the answers are
      acknowledged one by one, the record persisted holds them appended,
      stripped, to those already given, and the session is reset. */
  lemma AnswersThenExit(s: State, answers: seq<string>, exit: string,
                        detect: string -> Option<string>,
                        generate: (string, string) -> string)
    requires s.step >= FieldCount && NoExitWord(answers) && IsExitWord(Strip(exit))
    ensures Run(s, answers + [exit], detect, generate)
         == Trace(Initial, Acks(|answers|) + [Goodbye],
                  [Persist(Record(s.candidate, s.questions, s.answers + StripAll(answers)))])
  {
    var after := s.(answers := s.answers + StripAll(answers));
    AnswersCollected(s, answers, detect, generate);
    ExitStep(after, exit, detect, generate);
    RunAppend(s, answers, [exit], detect, generate);
    var ta := Run(s, answers, detect, generate);
    EmptyConcat(Run(ta.state, [exit], detect, generate).effects);
  }

  /** An exit word, as a one-message conversation. */
  lemma ExitStep(s: State, message: string,
                 detect: string -> Option<string>,
                 generate: (string, string) -> string)
    requires IsExitWord(Strip(message))
    ensures Run(s, [message], detect, generate)
         == Trace(Initial, [Goodbye], [Persist(Record(s.candidate, s.questions, s.answers))])
  {
    ExitResets(s, message, detect, generate);
    OneStep(s, message, detect, generate);
  }

  /** Filling one more field after a run of fields is the same as filling
      them all in one run. */
  lemma {:induction false} FillLast(candidate: map<Field, string>, from: nat, messages: seq<string>, message: string)
    requires from + |messages| + 1 <= FieldCount
    ensures Fill(candidate, from, messages + [message])
         == Fill(candidate, from, messages)[InfoKeys[from + |messages|] := Strip(message)]
    decreases |messages|
  {
    if messages == [] {
      assert [] + [message] == [message];
      assert [message][1..] == [];
    } else {
      assert (messages + [message])[0] == messages[0];
      assert (messages + [message])[1..] == messages[1..] + [message];
      FillLast(candidate[InfoKeys[from] := Strip(messages[0])], from + 1, messages[1..], message);
    }
  }

  // Sequence facts, stated once for any element type so that they can be
  // used on replies, effects and answers alike.

  /** Concatenation with nothing in front. */
  lemma EmptyConcat<T>(x: seq<T>)
    ensures [] + x == x
  {
  }

  /** Concatenation with nothing behind. */
  lemma ConcatEmpty<T>(x: seq<T>)
    ensures x + [] == x
  {
  }

  /** Concatenation regrouped. */
  lemma ConcatAssoc<T>(x: seq<T>, y: seq<T>, z: seq<T>)
    ensures x + y + z == x + (y + z)
  {
  }
}
