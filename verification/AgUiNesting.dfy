/** Which message a tool call belongs to, and that nested steps come out nested. */
module AgUiNesting {
  import opened Wrappers
  import opened AgUiEvents
  import opened AgUiRuns

  // ---- The message before a tool call ----

  /** The message that was closed last. */
  function LastClosed<D>(events: seq<AgUiEvent<D>>): Option<string> {
    if events == [] then None
    else
      var last := events[|events| - 1];
      if last.TextMessageEnd? then Some(last.messageId) else LastClosed(events[..|events| - 1])
  }

  /** Every tool call names the message that was closed last before it, if there is one. */
  ghost predicate ParentsRight<D>(events: seq<AgUiEvent<D>>) {
    forall i :: 0 <= i < |events| && events[i].ToolCallStart? ==> events[i].parentMessageId == LastClosed(events[..i])
  }

  /** What one more event does to both. */
  lemma ParentsSnoc<D>(events: seq<AgUiEvent<D>>, last: AgUiEvent<D>)
    ensures LastClosed(events + [last]) == if last.TextMessageEnd? then Some(last.messageId) else LastClosed(events)
    ensures ParentsRight(events + [last])
       <==> ParentsRight(events) && (last.ToolCallStart? ==> last.parentMessageId == LastClosed(events))
  {
    var all := events + [last];
    assert all[..|events|] == events && all[|events|] == last;
    hide LastClosed;
    forall i | 0 <= i < |events| ensures all[..i] == events[..i] && all[i] == events[i] {
    }
  }

  /** Events that neither close a message nor start a call. */
  predicate Apart<D>(event: AgUiEvent<D>) {
    !event.TextMessageEnd? && !event.ToolCallStart?
  }

  lemma {:induction false} ParentsApart<D>(events: seq<AgUiEvent<D>>, more: seq<AgUiEvent<D>>)
    requires forall i :: 0 <= i < |more| ==> Apart(more[i])
    requires ParentsRight(events)
    ensures ParentsRight(events + more) && LastClosed(events + more) == LastClosed(events)
    decreases |more|
  {
    if more == [] {
      assert events + more == events;
    } else {
      hide ParentsRight, LastClosed;
      var n := |more| - 1;
      ParentsApart(events, more[..n]);
      assert events + more == (events + more[..n]) + [more[n]];
      ParentsSnoc(events + more[..n], more[n]);
    }
  }

  lemma CloseMessageParents(m: Mapper, trace: seq<Event>)
    requires ParentsRight(trace) && m.parentMessageId == LastClosed(trace)
    ensures var (next, events) := CloseMessage(m);
      ParentsRight(trace + events) && next.parentMessageId == LastClosed(trace + events)
  {
    var events := CloseMessage(m).1;
    hide ParentsRight, LastClosed;
    if events == [] {
      assert trace + events == trace;
    } else {
      ParentsSnoc(trace, events[0]);
    }
  }

  lemma ToolCallParents(m: Mapper, trace: seq<Event>, id: string, name: string, input: string)
    requires ParentsRight(trace) && m.parentMessageId == LastClosed(trace)
    ensures var (next, events) := OnToolCall(m, id, name, input);
      ParentsRight(trace + events) && next.parentMessageId == LastClosed(trace + events)
  {
    var start: Event := ToolCallStart(id, name, CloseMessage(m).0.parentMessageId);
    var ends, rest := CloseMessage(m).1, [ToolCallArgs(id, input), ToolCallEnd(id)];
    ToolCallEvents(m, id, name, input);
    hide ParentsRight, LastClosed, CloseMessage, OnToolCall;
    CloseMessageParents(m, trace);
    ParentsSnoc(trace + ends, start);
    ParentsApart(trace + ends + [start], rest);
    Associates(trace, ends, [start] + rest);
    Associates(trace + ends, [start], rest);
  }

  lemma ToolCallEvents(m: Mapper, id: string, name: string, input: string)
    ensures OnToolCall(m, id, name, input).0 == CloseMessage(m).0
    ensures OnToolCall(m, id, name, input).1 == CloseMessage(m).1
      + ([ToolCallStart(id, name, CloseMessage(m).0.parentMessageId)] + [ToolCallArgs(id, input), ToolCallEnd(id)])
  {
    hide CloseMessage;
  }

  lemma {:induction false} CloseStepsApart(steps: seq<string>)
    ensures forall i :: 0 <= i < |CloseSteps(steps)| ==> CloseSteps(steps)[i].StepFinished?
  {
    if steps != [] {
      CloseStepsApart(steps[..|steps| - 1]);
    }
  }

  lemma FinishRunParents(options: Options, m: Mapper, trace: seq<Event>)
    requires ParentsRight(trace) && m.parentMessageId == LastClosed(trace)
    ensures var (next, events) := FinishRun(options, m);
      ParentsRight(trace + events) && next.parentMessageId == LastClosed(trace + events)
  {
    if m.sawRunFinish {
      assert trace + FinishRun(options, m).1 == trace;
    } else {
      CloseMessageParents(m, trace);
      CloseStepsApart(m.openSteps);
      var ends := CloseMessage(m).1;
      var rest: seq<Event> := CloseSteps(m.openSteps) + [TerminalEvent(options, FinalPayload(m))];
      hide ParentsRight, LastClosed, CloseMessage, CloseSteps, FinalPayload;
      ParentsApart(trace + ends, rest);
      Associates(ends, CloseSteps(m.openSteps), [TerminalEvent(options, FinalPayload(m))]);
      hide TerminalEvent;
      Associates(trace, ends, rest);
    }
  }

  lemma RunFinishParents(options: Options, m: Mapper, trace: seq<Event>, status: AgentStatus, state: RunState)
    requires ParentsRight(trace) && m.parentMessageId == LastClosed(trace)
    ensures var (next, events) := OnRunFinish(options, m, status, state);
      ParentsRight(trace + events) && next.parentMessageId == LastClosed(trace + events)
  {
    hide ParentsRight, LastClosed, FinishRun, TerminalPayload, RememberAll, PublicRunFromState, WithRun, StateJson;
    var (shown, states) := EmitState(m, WithRun(m.state, options.runId, state.view.runId, PublicRunFromState(state)));
    var interrupts := RememberAll(shown.interrupts, state.pendingApprovals);
    var ready := shown.(interrupts := interrupts,
                        terminal := Some(TerminalPayload(status, options, interrupts, shown.errorMessage)));
    ParentsApart(trace, states);
    FinishRunParents(options, ready, trace + states);
    Associates(trace, states, FinishRun(options, ready).1);
  }

  lemma TurnParents(options: Options, m: Mapper, trace: seq<Event>, event: AgentEvent)
    requires ParentsRight(trace) && m.parentMessageId == LastClosed(trace)
    ensures var (next, events) := Next(options, m, event);
      ParentsRight(trace + events) && next.parentMessageId == LastClosed(trace + events)
  {
    hide ParentsRight, LastClosed, CloseMessage, OnToolCall, OnRunFinish, WithRun, PublicRunFromView, StateJson,
      StepName, MessageId, Remember, DropLast, ImageValue, ResolvedValue, ProviderValue;
    match event
    case ToolCall(id, name, input) => ToolCallParents(m, trace, id, name, input);
    case Finish => CloseMessageParents(m, trace);
    case AgentRunFinish(status, state) => RunFinishParents(options, m, trace, status, state);
    case _ => ParentsApart(trace, Next(options, m, event).1);
  }

  lemma {:induction false} TraceParents(options: Options, source: seq<AgentEvent>)
    ensures ParentsRight(Trace(options, source))
    ensures After(options, source).parentMessageId == LastClosed(Trace(options, source))
  {
    if source == [] {
      var first: Event := RunStarted(options.threadId, options.runId);
      ParentsSnoc([], first);
      assert [] + Trace(options, source) == Trace(options, source);
    } else {
      var init, last := source[..|source| - 1], source[|source| - 1];
      TraceParents(options, init);
      hide ParentsRight, LastClosed, Next, Trace, After;
      Unfold(options, source);
      TurnParents(options, After(options, init), Trace(options, init), last);
    }
  }

  /** For every source, each tool call of the output names the message closed last before it. */
  lemma OutputParents(options: Options, source: seq<AgentEvent>)
    ensures ParentsRight(Output(options, source))
  {
    TraceParents(options, source);
    hide ParentsRight, LastClosed, Trace, After, FinishRun;
    FinishRunParents(options, After(options, source), Trace(options, source));
  }

  // ---- Nested steps ----

  /** The open steps of an output, innermost last, as long as every finish is for the innermost one. */
  function Stack<D>(events: seq<AgUiEvent<D>>): Option<seq<string>> {
    if events == [] then Some([]) else Stacked(Stack(events[..|events| - 1]), events[|events| - 1])
  }

  function Stacked<D>(stack: Option<seq<string>>, event: AgUiEvent<D>): Option<seq<string>> {
    if stack.None? then None
    else match event
      case StepStarted(name) => Some(stack.value + [name])
      case StepFinished(name) => Popped(stack.value, name)
      case _ => stack
  }

  function Popped(stack: seq<string>, name: string): Option<seq<string>> {
    if stack != [] && stack[|stack| - 1] == name then Some(stack[..|stack| - 1]) else None
  }

  /** The same for the steps of a source; its first agent-run-finish finishes them all. */
  function SourceStack(source: seq<AgentEvent>): Option<seq<string>> {
    if source == [] then Some([])
    else
      var init := source[..|source| - 1];
      var stack := SourceStack(init);
      if stack.None? then None
      else match source[|source| - 1]
        case AgentStepStart(index) => Some(stack.value + [StepName(index)])
        case AgentStepFinish(index) => Popped(stack.value, StepName(index))
        case AgentRunFinish(_, _) => if HasFinish(init) then stack else Some([])
        case _ => stack
  }

  lemma StackSnoc<D>(events: seq<AgUiEvent<D>>, last: AgUiEvent<D>)
    ensures Stack(events + [last]) == Stacked(Stack(events), last)
  {
    hide Stacked;
    assert (events + [last])[..|events|] == events;
  }

  lemma {:induction false} StackKept<D>(events: seq<AgUiEvent<D>>, more: seq<AgUiEvent<D>>)
    requires forall i :: 0 <= i < |more| ==> !more[i].StepStarted? && !more[i].StepFinished?
    ensures Stack(events + more) == Stack(events)
    decreases |more|
  {
    if more == [] {
      assert events + more == events;
    } else {
      hide Stack;
      var n := |more| - 1;
      StackKept(events, more[..n]);
      assert events + more == (events + more[..n]) + [more[n]];
      StackSnoc(events + more[..n], more[n]);
    }
  }

  lemma {:induction false} StackLost<D>(events: seq<AgUiEvent<D>>, more: seq<AgUiEvent<D>>)
    requires Stack(events).None?
    ensures Stack(events + more).None?
    decreases |more|
  {
    if more == [] {
      assert events + more == events;
    } else {
      hide Stack;
      var n := |more| - 1;
      StackLost(events, more[..n]);
      assert events + more == (events + more[..n]) + [more[n]];
      StackSnoc(events + more[..n], more[n]);
    }
  }

  /** Closing the steps from the last one opened empties the stack. */
  lemma {:induction false} CloseStepsStack(events: seq<Event>, steps: seq<string>)
    requires Stack(events) == Some(steps)
    ensures Stack(events + CloseSteps(steps)) == Some([])
    decreases |steps|
  {
    if steps == [] {
      assert events + CloseSteps(steps) == events;
    } else {
      var n := |steps| - 1;
      var e: Event := StepFinished(steps[n]);
      assert CloseSteps(steps) == [e] + CloseSteps(steps[..n]);
      StackSnoc(events, e);
      assert Stack(events + [e]) == Some(steps[..n]);
      hide Stack, CloseSteps;
      CloseStepsStack(events + [e], steps[..n]);
      Associates(events, [e], CloseSteps(steps[..n]));
    }
  }

  lemma FinishStack(trace: seq<Event>, ends: seq<Event>, open: seq<string>, last: Event)
    requires Stack(trace + ends) == Some(open) && !last.StepStarted? && !last.StepFinished?
    ensures Stack(trace + (ends + CloseSteps(open) + [last])) == Some([])
  {
    hide Stack, CloseSteps;
    var steps := CloseSteps(open);
    CloseStepsStack(trace + ends, open);
    StackKept(trace + ends + steps, [last]);
    Associates(trace, ends, steps);
    Associates(trace, ends + steps, [last]);
  }

  lemma FinishRunStack(options: Options, m: Mapper, trace: seq<Event>)
    requires Stack(trace) == Some(m.openSteps)
    ensures var (next, events) := FinishRun(options, m);
      Stack(trace + events) == Some(next.openSteps) && next.openSteps == if m.sawRunFinish then m.openSteps else []
  {
    if m.sawRunFinish {
      assert trace + FinishRun(options, m).1 == trace;
    } else {
      var ends, steps := CloseMessage(m).1, CloseSteps(m.openSteps);
      StackKept(trace, ends);
      var last: Event := TerminalEvent(options, FinalPayload(m));
      hide Stack, CloseSteps, CloseMessage, FinalPayload, TerminalEvent;
      assert FinishRun(options, m).1 == ends + steps + [last];
      FinishStack(trace, ends, m.openSteps, last);
    }
  }

  lemma RunFinishStack(options: Options, m: Mapper, trace: seq<Event>, status: AgentStatus, state: RunState)
    requires Stack(trace) == Some(m.openSteps)
    ensures var (next, events) := OnRunFinish(options, m, status, state);
      Stack(trace + events) == Some(next.openSteps) && next.openSteps == if m.sawRunFinish then m.openSteps else []
  {
    hide Stack, FinishRun, TerminalPayload, RememberAll, PublicRunFromState, WithRun, StateJson;
    var (shown, states) := EmitState(m, WithRun(m.state, options.runId, state.view.runId, PublicRunFromState(state)));
    var interrupts := RememberAll(shown.interrupts, state.pendingApprovals);
    var ready := shown.(interrupts := interrupts,
                        terminal := Some(TerminalPayload(status, options, interrupts, shown.errorMessage)));
    StackKept(trace, states);
    FinishRunStack(options, ready, trace + states);
    Associates(trace, states, FinishRun(options, ready).1);
  }

  /** One turn, as long as the finishes fit. */
  lemma TurnStack(options: Options, m: Mapper, trace: seq<Event>, event: AgentEvent)
    requires Stack(trace) == Some(m.openSteps)
    ensures var (next, events) := Next(options, m, event);
      match event
      case AgentStepStart(index) =>
        Stack(trace + events) == Some(next.openSteps) && next.openSteps == m.openSteps + [StepName(index)]
      case AgentStepFinish(index) =>
        Stack(trace + events) == Popped(m.openSteps, StepName(index))
        && (Popped(m.openSteps, StepName(index)).Some? ==> next.openSteps == Popped(m.openSteps, StepName(index)).value)
      case AgentRunFinish(_, _) =>
        Stack(trace + events) == Some(next.openSteps) && next.openSteps == if m.sawRunFinish then m.openSteps else []
      case _ => Stack(trace + events) == Some(next.openSteps) && next.openSteps == m.openSteps
  {
    hide Stack, CloseMessage, OnRunFinish, WithRun, PublicRunFromView, StateJson, StepName, MessageId, Remember,
      ImageValue, ResolvedValue, ProviderValue;
    match event
    case AgentStepStart(index) =>
      var started: Event := StepStarted(StepName(index));
      StackSnoc(trace, started);
    case AgentStepFinish(index) =>
      var ended: Event := StepFinished(StepName(index));
      StackSnoc(trace, ended);
    case AgentRunFinish(status, state) => RunFinishStack(options, m, trace, status, state);
    case _ =>
      OtherSteps(options, m, event);
      StackKept(trace, Next(options, m, event).1);
  }

  lemma OtherSteps(options: Options, m: Mapper, event: AgentEvent)
    requires !event.AgentStepStart? && !event.AgentStepFinish? && !event.AgentRunFinish?
    ensures var (next, events) := Next(options, m, event);
      && next.openSteps == m.openSteps
      && forall i :: 0 <= i < |events| ==> !events[i].StepStarted? && !events[i].StepFinished?
  {
    hide MessageId, StepName, StateJson, WithRun, PublicRunFromView, Remember, ImageValue, ResolvedValue, ProviderValue;
  }

  lemma {:induction false} TraceStack(options: Options, source: seq<AgentEvent>)
    ensures Stack(Trace(options, source)) == SourceStack(source)
    ensures SourceStack(source).Some? ==> After(options, source).openSteps == SourceStack(source).value
  {
    if source == [] {
      StackKept([], Trace(options, source));
      assert [] + Trace(options, source) == Trace(options, source);
    } else {
      var init, last := source[..|source| - 1], source[|source| - 1];
      TraceStack(options, init);
      SawFinish(options, init);
      hide Stack, Next, Trace, After, HasFinish;
      Unfold(options, source);
      if SourceStack(init).None? {
        StackLost(Trace(options, init), Next(options, After(options, init), last).1);
      } else {
        TurnStack(options, After(options, init), Trace(options, init), last);
      }
    }
  }

  /**
   * Nested steps come out nested: when every finish of the source is for the innermost open step, so is
   * every finish of the output, and nothing but steps behind the run's end stays open. When one is
   * not, neither is the output.
   */
  lemma OutputNested(options: Options, source: seq<AgentEvent>)
    ensures SourceStack(source).Some? ==>
      Stack(Output(options, source)) == if HasFinish(source) then SourceStack(source) else Some([])
    ensures SourceStack(source).None? ==> Stack(Output(options, source)).None?
  {
    TraceStack(options, source);
    SawFinish(options, source);
    hide Stack, Trace, After, FinishRun, HasFinish, SourceStack;
    if SourceStack(source).None? {
      StackLost(Trace(options, source), FinishRun(options, After(options, source)).1);
    } else {
      FinishRunStack(options, After(options, source), Trace(options, source));
    }
  }
}
