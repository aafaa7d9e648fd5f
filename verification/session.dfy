/** The global `session` record of the chatbot and the two operations that
    update it in place: `reset` and `chatbot_response`. The calls the
    chatbot makes into its collaborators (persisting a record, generating
    questions) are kept in a ghost log. */
module Session {
  import opened Strings
  import opened Language
  import opened Engine

  /** The session invariant of module Engine, and: once intake is over, the
      questions are the text the last generator call returned, for the tech
      stack the candidate gave. */
  ghost predicate Consistent(s: State, log: seq<Effect>) {
    && Inv(s)
    && (s.step == FieldCount ==>
          && |log| > 0
          && log[|log| - 1].Generated?
          && TechStack in s.candidate
          && log[|log| - 1].techStack == s.candidate[TechStack]
          && log[|log| - 1].questions == s.questions)
  }

  /** Every transition keeps the session consistent with its call log. */
  lemma NextKeepsConsistent(s: State, log: seq<Effect>, message: string,
                            detect: string -> Option<string>,
                            generate: (string, string) -> string)
    requires Consistent(s, log)
    ensures var o := Next(s, message, detect, generate);
      Consistent(o.state, log + o.effects)
  {
    NextKeepsInv(s, message, detect, generate);
    var m := Strip(message);
    if IsExitWord(m) {
      ExitResets(s, message, detect, generate);
    } else if s.step + 1 < FieldCount {
      IntakeStores(s, message, detect, generate);
    } else if s.step + 1 == FieldCount {
      IntakeCompletes(s, message, detect, generate);
    } else {
      AnswerAppends(s, message, detect, generate);
      assert log + [] == log;
    }
  }

  class Session {
    var step: nat
    var candidate: map<Field, string>
    var questions: string
    var answers: seq<string>

    /** Every collaborator call made so far, oldest first. */
    ghost var log: seq<Effect>

    /** The record's entries as one value. */
    function Snapshot(): State
      reads this
    {
      State(step, candidate, questions, answers)
    }

    ghost predicate Valid()
      reads this
    {
      Consistent(Snapshot(), log)
    }

    /** The session as the program starts it. */
    constructor ()
      ensures Valid() && Snapshot() == Initial && log == []
    {
      step, candidate, questions, answers := 0, map[], "", [];
      log := [];
      InitialInv();
    }

    /** `reset`: back to the initial state; no collaborator is called. */
    method Reset()
      modifies this
      ensures Valid() && Snapshot() == Initial && log == old(log)
    {
      step := 0;
      candidate := map[];
      questions := "";
      answers := [];
      InitialInv();
    }

    /** `chatbot_response`: handles one message and returns the reply. The new
        session, the reply and the collaborator calls are those of the
        transition `Next`. */
    method Handle(message: string,
                  detect: string -> Option<string>,
                  generate: (string, string) -> string) returns (reply: string)
      requires Valid()
      modifies this
      ensures Valid()
      ensures var o := Next(old(Snapshot()), message, detect, generate);
        && Snapshot() == o.state
        && reply == ReplyText(o.reply)
        && log == old(log) + o.effects
    {
      ghost var s := Snapshot();
      var m := Strip(message);
      var r: Reply;
      if IsExitWord(m) {
        ExitResets(s, message, detect, generate);
        r := Close();
      } else if step < FieldCount {
        if step + 1 < FieldCount {
          IntakeStores(s, message, detect, generate);
        } else {
          IntakeCompletes(s, message, detect, generate);
        }
        r := Store(m, detect, generate);
      } else {
        AnswerAppends(s, message, detect, generate);
        r := Append(m);
      }
      reply := ReplyText(r);
    }

    /** The exit branch of `chatbot_response`: hands the candidate, questions
        and answers to the persistence store, then resets. */
    method Close() returns (reply: Reply)
      requires Valid()
      modifies this
      ensures Valid() && Snapshot() == Initial
      ensures log == old(log) + [Persist(Record(old(candidate), old(questions), old(answers)))]
      ensures reply == Goodbye
    {
      log := log + [Persist(Record(candidate, questions, answers))];
      Reset();
      reply := Goodbye;
    }

    /** The intake branch of `chatbot_response`: stores the stripped message
        under the current field and advances; after the last field, generates
        the questions. */
    method Store(m: string, detect: string -> Option<string>, generate: (string, string) -> string)
      returns (reply: Reply)
      requires Valid() && step < FieldCount && IsStripped(m)
      modifies this
      ensures Valid()
      ensures step == old(step) + 1 && candidate == old(candidate)[InfoKeys[old(step)] := m]
      ensures answers == old(answers)
      ensures step < FieldCount ==> questions == old(questions) && log == old(log) && reply == Prompt(step)
      ensures step == FieldCount ==>
        var language := QuestionLanguage(detect(m));
        && questions == generate(m, language)
        && log == old(log) + [Generated(m, language, questions)]
        && reply == QuestionsReady(questions)
    {
      ghost var s := Snapshot();
      var key := InfoKeys[step];
      candidate := candidate[key := m];
      step := step + 1;
      if step < FieldCount {
        reply := Prompt(step);
        StoreKeepsInv(s, m, Snapshot());
      } else {
        assert key == TechStack;
        var techStack := candidate[TechStack];
        var language := QuestionLanguage(detect(techStack));
        var generated := generate(techStack, language);
        log := log + [Generated(techStack, language, generated)];
        questions := generated;
        reply := QuestionsReady(generated);
        StoreKeepsInv(s, m, Snapshot());
      }
    }

    /** The answer-collection branch of `chatbot_response`. */
    method Append(m: string) returns (reply: Reply)
      requires Valid() && step >= FieldCount && IsStripped(m)
      modifies this
      ensures Valid()
      ensures Snapshot() == old(Snapshot()).(answers := old(answers) + [m]) && log == old(log)
      ensures reply == AnswerNoted
    {
      answers := answers + [m];
      reply := AnswerNoted;
    }
  }
}
