/** The sample interview: seven intake answers, two answers to the
    questions, then "exit". */
module Sample {
  import opened Strings
  import opened Language
  import opened Engine

  /** A stripped message of a length no exit word has is not an exit word. */
  lemma {:induction false} PlainMessage(m: string)
    requires IsStripped(m) && |m| != 3 && |m| != 4
    ensures Strip(m) == m && !IsExitWord(Strip(m))
  {
  }

  const SampleIntake: seq<string> :=
    ["Alice", "a@x.com", "555-1234", "3", "Backend Engineer", "Remote", "Python, Go"]

  const SampleAnswers: seq<string> := ["answer one", "answer two"]

  lemma SampleMessagesArePlain()
    ensures NoExitWord(SampleIntake) && NoExitWord(SampleAnswers)
    ensures StripAll(SampleAnswers) == SampleAnswers
    ensures Strip(SampleIntake[FieldCount - 1]) == "Python, Go"
  {
    forall i | 0 <= i < |SampleIntake|
      ensures Strip(SampleIntake[i]) == SampleIntake[i] && !IsExitWord(Strip(SampleIntake[i]))
    {
      PlainMessage(SampleIntake[i]);
    }
    forall i | 0 <= i < |SampleAnswers|
      ensures Strip(SampleAnswers[i]) == SampleAnswers[i] && !IsExitWord(Strip(SampleAnswers[i]))
    {
      PlainMessage(SampleAnswers[i]);
    }
  }

  lemma ExitIsExitWord()
    ensures IsExitWord(Strip("exit"))
  {
    StripRemovesPadding([], "exit", []);
    assert [] + "exit" + [] == "exit";
    assert Lower("exit") == "exit";
  }

  /** The persisted record holds the tech stack as typed and exactly the two
      answers; the generator is called once, with that tech stack; the
      session ends reset. */
  lemma SampleInterview(detect: string -> Option<string>, generate: (string, string) -> string)
    ensures var t := Run(Initial, SampleIntake + SampleAnswers + ["exit"], detect, generate);
      && t.state == Initial
      && |t.replies| == 10 && t.replies[9] == Goodbye
      && |t.effects| == 2 && t.effects[0].Generated? && t.effects[0].techStack == "Python, Go"
      && t.effects[1].Persist?
      && TechStack in t.effects[1].record.candidateInfo
      && t.effects[1].record.candidateInfo[TechStack] == "Python, Go"
      && t.effects[1].record.answers == ["answer one", "answer two"]
  {
    SampleMessagesArePlain();
    ExitIsExitWord();
    Interview(SampleIntake, SampleAnswers, "exit", detect, generate);
    FillValues(map[], 0, SampleIntake);
    assert InfoKeys[FieldCount - 1] == TechStack;
  }
}
