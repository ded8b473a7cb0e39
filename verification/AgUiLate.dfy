/** Sources that go on after their agent-run-finish: what stays open behind the terminal event. */
module AgUiLate {
  import opened Wrappers
  import opened AgUiEvents
  import opened AgUiGrammar
  import opened AgUiRuns

  /** The mapper after a source of one agent-run-finish. */
  lemma AfterFinish(options: Options, status: AgentStatus, state: RunState)
    ensures var m := After(options, [AgentRunFinish(status, state)]);
      m.sawRunFinish && m.openMessageId.None? && m.openSteps == [] && m.messageSequence == 0
  {
    var event := AgentRunFinish(status, state);
    assert [event][..0] == [];
    var m := After(options, []);
    assert m == FRESH;
    FinishEnds(options, m, event);
    assert After(options, [event]) == Next(options, m, event).0;
  }

  lemma SecondTurn(options: Options, first: AgentEvent, second: AgentEvent)
    ensures var m := After(options, [first]);
      && After(options, [first, second]) == Next(options, m, second).0
      && Trace(options, [first, second]) == Trace(options, [first]) + Next(options, m, second).1
  {
    assert [first, second][..1] == [first];
  }

  /** Text behind the finish: the output ends with it, and its message is never closed. */
  lemma LateTextExample(options: Options, status: AgentStatus, state: RunState, text: string)
    ensures var out := Output(options, [AgentRunFinish(status, state), TextDelta(text)]);
      && out != [] && out[|out| - 1] == TextMessageContent(MessageId(1), text)
      && AcceptFrom(NOTHING, out).Some? && AcceptFrom(NOTHING, out).value.open == Some(MessageId(1))
  {
    var first, second := AgentRunFinish(status, state), TextDelta(text);
    AfterFinish(options, status, state);
    SecondTurn(options, first, second);
    TraceAccepted(options, [first, second]);
    hide Trace, After, AcceptFrom;
    var m := After(options, [first, second]);
    assert m.sawRunFinish && m.openMessageId == Some(MessageId(1));
    var before := Trace(options, [first]);
    var late: seq<Event> := [TextMessageStart(MessageId(1)), TextMessageContent(MessageId(1), text)];
    assert Trace(options, [first, second]) == before + late;
    assert Output(options, [first, second]) == before + late + [];
    assert before + late + [] == before + late;
  }

  /** A step behind the finish is started and never finished. */
  lemma LateStepExample(options: Options, status: AgentStatus, state: RunState, index: nat)
    ensures var out := Output(options, [AgentRunFinish(status, state), AgentStepStart(index)]);
      Started(out, StepName(index)) == 1 && Ended(out, StepName(index)) == 0
  {
    var first, second := AgentRunFinish(status, state), AgentStepStart(index);
    var source, name := [first, second], StepName(index);
    StepConservation(options, source, name);
    CountsOfLate(first, second, name);
    AfterFinish(options, status, state);
    NoStepsInFinish(options, status, state, name);
    hide Output, Trace, After, Started, Ended, Unmatched, StillOpen;
    StartedOnce(options, first, index);
  }

  lemma CountsOfLate(first: AgentEvent, second: AgentEvent, name: string)
    requires first.AgentRunFinish? && second.AgentStepStart? && name == StepName(second.stepIndex)
    ensures HasFinish([first, second]) && StillOpen([first, second], name) == 1 && Unmatched([first, second], name) == 0
  {
    var source := [first, second];
    assert source[0].AgentRunFinish?;
    assert source[..|source| - 1] == [first] && [first][..0] == [];
    assert Unmatched([], name) == 0 && Unmatched([first], name) == 0;
    assert StillOpen([], name) == 0 && StillOpen([first], name) == 0;
  }

  lemma NoStepsInFinish(options: Options, status: AgentStatus, state: RunState, name: string)
    ensures Started(Trace(options, [AgentRunFinish(status, state)]), name) == 0
  {
    var event := AgentRunFinish(status, state);
    hide Trace, Next, OnRunFinish, Started, Ended;
    var start := Trace(options, []);
    NoStepsAtStart(options, name);
    FirstTurn(options, event);
    FinishTurn(options, status, state);
    FinishCounts(options, FRESH, status, state, name);
    CountsConcat(start, Next(options, FRESH, event).1, name);
  }

  lemma NoStepsAtStart(options: Options, name: string)
    ensures Started(Trace(options, []), name) == 0
  {
    NoSteps(Trace(options, []), name);
  }

  lemma FirstTurn(options: Options, event: AgentEvent)
    ensures Trace(options, [event]) == Trace(options, []) + Next(options, FRESH, event).1
  {
    hide Next;
    assert [event][..0] == [];
  }

  lemma FinishTurn(options: Options, status: AgentStatus, state: RunState)
    ensures Next(options, FRESH, AgentRunFinish(status, state)) == OnRunFinish(options, FRESH, status, state)
  {
    hide OnRunFinish;
  }

  lemma StartedOnce(options: Options, first: AgentEvent, index: nat)
    requires After(options, [first]).sawRunFinish
    requires Started(Trace(options, [first]), StepName(index)) == 0
    ensures Started(Output(options, [first, AgentStepStart(index)]), StepName(index)) == 1
  {
    SecondTurn(options, first, AgentStepStart(index));
    hide Trace, After, Started, StepName;
    var before, name := Trace(options, [first]), StepName(index);
    var late: seq<Event> := [StepStarted(name)];
    CountsOne(late[0], name);
    CountsConcat(before, late, name);
    assert Output(options, [first, AgentStepStart(index)]) == before + late + [];
    assert before + late + [] == before + late;
  }
}
