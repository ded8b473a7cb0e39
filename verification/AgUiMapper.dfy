/** The event loop that turns an agent stream into AG-UI events. */
module AgUiMapper {
  import opened Wrappers
  import opened Json
  import opened JsonPatch
  import opened AgUiEvents
  import opened AgUiGrammar
  import opened AgUiRuns
  import opened AgUiReplay
  import opened AgUiReplaySafe
  import C = AgUiContent
  import N = AgUiNesting
  import O = AgUiOutput

  lemma Regroup<T>(a: seq<T>, b: seq<T>, c: seq<T>, d: seq<T>)
    ensures a + b + c + d == a + (b + c + d)
  {
  }

  class Stream {
    const options: Options
    var messageSequence: nat
    var openMessageId: Option<string>
    var parentMessageId: Option<string>
    var openSteps: seq<string>
    var state: PublicState
    var previousState: Option<PublicState>
    var interrupts: seq<Interrupt>
    var terminal: Option<Payload>
    var errorMessage: Option<string>
    var sawRunFinish: bool
    var emitted: seq<Emitted>
    ghost var events: seq<Event>

    ghost function View(): Mapper
      reads this
    {
      Mapper(messageSequence, openMessageId, parentMessageId, openSteps, state, previousState, interrupts, terminal,
             errorMessage, sawRunFinish)
    }

    ghost predicate Valid()
      reads this
    {
      && RealizesAll(emitted, events)
      && PlainState(state)
      && (previousState.Some? ==> previousState == Some(state))
    }

    constructor (options: Options)
      ensures Valid() && View() == FRESH && this.options == options
      ensures events == [RunStarted(options.threadId, options.runId)]
    {
      this.options := options;
      messageSequence, openMessageId, parentMessageId, openSteps := 0, None, None, [];
      state, previousState, interrupts, terminal := PublicState(None, map[]), None, [], None;
      errorMessage, sawRunFinish := None, false;
      emitted := [RunStarted(options.threadId, options.runId)];
      events := [RunStarted(options.threadId, options.runId)];
    }

    /** Yields one event. */
    method Yield(e: Emitted, ghost event: Event)
      requires Valid() && Realizes(e, event)
      modifies this`emitted, this`events
      ensures Valid() && events == old(events) + [event]
    {
      emitted := emitted + [e];
      events := events + [event];
    }

    /** Yields an event that is not a delta. */
    method Send(event: Event)
      requires Valid() && !event.StateDelta?
      modifies this`emitted, this`events
      ensures Valid() && events == old(events) + [event]
    {
      Yield(Retype(event), event);
    }

    method NextMessageId() returns (id: string)
      modifies this`messageSequence
      ensures messageSequence == old(messageSequence) + 1 && id == MessageId(messageSequence)
    {
      messageSequence := messageSequence + 1;
      id := MessageId(messageSequence);
    }

    method CloseMessage()
      requires Valid()
      modifies this`emitted, this`events, this`openMessageId, this`parentMessageId
      ensures Valid()
      ensures View() == AgUiEvents.CloseMessage(old(View())).0
      ensures events == old(events) + AgUiEvents.CloseMessage(old(View())).1
    {
      if openMessageId.None? {
        return;
      }
      Send(TextMessageEnd(openMessageId.value));
      parentMessageId := openMessageId;
      openMessageId := None;
    }

    method CloseSteps()
      requires Valid()
      modifies this`emitted, this`events, this`openSteps
      ensures Valid()
      ensures openSteps == []
      ensures events == old(events) + AgUiEvents.CloseSteps(old(openSteps))
    {
      while |openSteps| > 0
        invariant Valid()
        invariant events + AgUiEvents.CloseSteps(openSteps) == old(events) + AgUiEvents.CloseSteps(old(openSteps))
        decreases |openSteps|
      {
        var name := openSteps[|openSteps| - 1];
        assert events + ([StepFinished(name)] + AgUiEvents.CloseSteps(openSteps[..|openSteps| - 1]))
            == events + [StepFinished(name)] + AgUiEvents.CloseSteps(openSteps[..|openSteps| - 1]);
        openSteps := openSteps[..|openSteps| - 1];
        Send(StepFinished(name));
      }
    }

    /** The first state is sent whole, a later one as a diff when it is not empty. */
    method EmitState(next: PublicState)
      requires Valid() && PlainState(next)
      modifies this`emitted, this`events, this`state, this`previousState
      ensures Valid()
      ensures View() == AgUiEvents.EmitState(old(View()), next).0
      ensures events == old(events) + AgUiEvents.EmitState(old(View()), next).1
    {
      if previousState.None? {
        previousState := Some(next);
        state := next;
        Send(StateSnapshot(StateJson(next)));
        return;
      }
      hide PlainState, RealizesAll, StateJson;
      var before := previousState.value;
      previousState := Some(next);
      state := next;
      EmitDelta(before, next);
    }

    method EmitDelta(previous: PublicState, next: PublicState)
      requires Valid() && PlainState(previous)
      modifies this`emitted, this`events
      ensures Valid()
      ensures events == old(events) + if StateJson(previous) == StateJson(next) then []
                                      else [StateDelta(Change(StateJson(previous), StateJson(next)))]
    {
      hide PlainState, RealizesAll, IsPatch, StateJson;
      var before, after := StateJson(previous), StateJson(next);
      var delta := DiffDocuments(before, after);
      PatchLaws.EmptyPatchExact(before, after, delta);
      StateArrayFree(previous);
      if |delta| == 0 {
        return;
      }
      Yield(StateDelta(delta), StateDelta(Change(before, after)));
    }

    method RememberApproval(approval: Approval)
      modifies this`interrupts
      ensures interrupts == Remember(old(interrupts), InterruptFromApproval(approval))
    {
      interrupts := Remember(interrupts, InterruptFromApproval(approval));
    }

    method FinishRun()
      requires Valid()
      modifies this
      ensures Valid()
      ensures View() == AgUiEvents.FinishRun(options, old(View())).0
      ensures events == old(events) + AgUiEvents.FinishRun(options, old(View())).1
    {
      hide RealizesAll, PlainState, AgUiEvents.CloseSteps;
      if sawRunFinish {
        return;
      }
      ghost var start := events;
      ghost var ends, steps := AgUiEvents.CloseMessage(View()).1, AgUiEvents.CloseSteps(openSteps);
      sawRunFinish := true;
      CloseMessage();
      CloseSteps();
      var payload := if terminal.Some? then terminal.value
                     else if errorMessage.Some? then Errored(errorMessage.value, None)
                     else Finished(SuccessOutcome);
      Send(TerminalEvent(options, payload));
      Regroup(start, ends, steps, [TerminalEvent(options, payload)]);
    }

    method OnText(text: string)
      requires Valid()
      modifies this
      ensures Valid()
      ensures View() == AgUiEvents.OnText(old(View()), text).0
      ensures events == old(events) + AgUiEvents.OnText(old(View()), text).1
    {
      if openMessageId.None? {
        var id := NextMessageId();
        openMessageId := Some(id);
        Send(TextMessageStart(id));
      }
      Send(TextMessageContent(openMessageId.value, text));
    }

    method OnToolCall(id: string, name: string, input: string)
      requires Valid()
      modifies this
      ensures Valid()
      ensures View() == AgUiEvents.OnToolCall(old(View()), id, name, input).0
      ensures events == old(events) + AgUiEvents.OnToolCall(old(View()), id, name, input).1
    {
      CloseMessage();
      Send(ToolCallStart(id, name, parentMessageId));
      Send(ToolCallArgs(id, input));
      Send(ToolCallEnd(id));
    }

    method OnRunFinish(status: AgentStatus, final: RunState)
      requires Valid()
      modifies this
      ensures Valid()
      ensures View() == AgUiEvents.OnRunFinish(options, old(View()), status, final).0
      ensures events == old(events) + AgUiEvents.OnRunFinish(options, old(View()), status, final).1
    {
      hide PublicRunFromState, AgUiEvents.FinishRun, AgUiEvents.EmitState, PlainState, RealizesAll, TerminalPayload,
          RememberAll, WithRun;
      var run := PublicRunFromState(final);
      WithRunPlain(options.runId, final.view.runId, run, AgentRunFinish(status, final));
      EmitState(WithRun(state, options.runId, final.view.runId, run));
      RememberPending(final.pendingApprovals);
      terminal := Some(TerminalPayload(status, options, interrupts, errorMessage));
      FinishRun();
    }

    method RememberPending(approvals: seq<Approval>)
      modifies this`interrupts
      ensures interrupts == RememberAll(old(interrupts), approvals)
    {
      for i := 0 to |approvals|
        invariant interrupts == RememberAll(old(interrupts), approvals[..i])
      {
        assert approvals[..i + 1][..i] == approvals[..i];
        RememberApproval(approvals[i]);
      }
      assert approvals[..|approvals|] == approvals;
    }

    lemma WithRunPlain(runId: string, id: string, run: Json, event: AgentEvent)
      requires PlainState(state) && Published(event) == Some((id, run))
      ensures PlainState(WithRun(state, runId, id, run))
    {
      PublishedPlain(event);
    }

    /** One turn of the loop. */
    method Handle(event: AgentEvent)
      requires Valid()
      modifies this
      ensures Valid()
      ensures View() == Next(options, old(View()), event).0
      ensures events == old(events) + Next(options, old(View()), event).1
    {
      hide AgUiEvents.EmitState, AgUiEvents.OnText, AgUiEvents.OnToolCall, AgUiEvents.OnRunFinish,
          AgUiEvents.CloseMessage,
           PublicRunFromView, WithRun, PlainState, RealizesAll;
      match event
      case AgentRunUpdate(run) =>
        WithRunPlain(options.runId, run.runId, PublicRunFromView(run), event);
        EmitState(WithRun(state, options.runId, run.runId, PublicRunFromView(run)));
      case TextDelta(text) => OnText(text);
      case ToolCall(id, name, input) => OnToolCall(id, name, input);
      case Finish => CloseMessage();
      case AgentRunFinish(status, final) => OnRunFinish(status, final);
      case _ => HandleSimple(event);
    }

    /** The turns that yield at most one event. */
    method HandleSimple(event: AgentEvent)
      requires Valid()
      requires !event.AgentRunUpdate? && !event.TextDelta? && !event.ToolCall? && !event.Finish?
          && !event.AgentRunFinish?
      modifies this
      ensures Valid()
      ensures View() == Next(options, old(View()), event).0
      ensures events == old(events) + Next(options, old(View()), event).1
    {
      hide PlainState, RealizesAll, MessageId, StepName, Remember, DropLast, ResolvedValue, ProviderValue, ImageValue,
        InterruptFromApproval, AgUiEvents.OnText, AgUiEvents.OnToolCall, AgUiEvents.OnRunFinish, AgUiEvents.EmitState,
        AgUiEvents.CloseMessage;
      match event
      case AgentRunStart =>
      case AgentApprovalResolved(provider, id, approve) =>
        Send(Custom("zhivex.approval.resolved", ResolvedValue(provider, id, approve)));
      case AgentStepStart(index) =>
        openSteps := openSteps + [StepName(index)];
        Send(StepStarted(StepName(index)));
      case AgentStepFinish(index) => OnStepFinish(StepName(index));
      case ToolResult(toolCallId, content) =>
        var id := NextMessageId();
        Send(ToolCallResult(id, toolCallId, content));
      case ApprovalRequest(approval) => RememberApproval(approval);
      case ProviderData(provider) => Send(Custom("zhivex.provider-data", ProviderValue(provider)));
      case ImageGeneration(image) => Send(Custom("zhivex.image", ImageValue(image)));
      case StreamError(message) => errorMessage := Some(if message == "" then "Agent run failed." else message);
      case AgentCompaction(compaction) =>
        var id := NextMessageId();
        Send(ActivitySnapshot(id, compaction));
    }

    method OnStepFinish(name: string)
      requires Valid()
      modifies this`openSteps, this`emitted, this`events
      ensures Valid()
      ensures openSteps == DropLast(old(openSteps), name) && events == old(events) + [StepFinished(name)]
    {
      var openIndex := |openSteps| - 1;
      while openIndex >= 0 && openSteps[openIndex] != name
        invariant -1 <= openIndex < |openSteps|
        invariant forall i :: openIndex < i < |openSteps| ==> openSteps[i] != name
      {
        openIndex := openIndex - 1;
      }
      DropLastAt(openSteps, name, openIndex);
      if openIndex >= 0 {
        openSteps := openSteps[..openIndex] + openSteps[openIndex + 1..];
      }
      Send(StepFinished(name));
    }
  }

  lemma {:induction false} DropLastAt(steps: seq<string>, name: string, index: int)
    requires -1 <= index < |steps| && (index >= 0 ==> steps[index] == name)
    requires forall i :: index < i < |steps| ==> steps[i] != name
    ensures DropLast(steps, name) == if index >= 0 then steps[..index] + steps[index + 1..] else steps
  {
    if steps != [] && steps[|steps| - 1] != name {
      var init := steps[..|steps| - 1];
      DropLastAt(init, name, index);
      assert DropLast(steps, name) == DropLast(init, name) + [steps[|steps| - 1]];
      hide DropLast;
      WithoutAt(steps, index);
    }
  }

  lemma WithoutAt(steps: seq<string>, index: int)
    requires steps != [] && -1 <= index < |steps| - 1
    ensures var init, last := steps[..|steps| - 1], [steps[|steps| - 1]];
      && init + last == steps
      && (index >= 0 ==> init[..index] + init[index + 1..] + last == steps[..index] + steps[index + 1..])
  {
  }

  lemma StateArrayFree(state: PublicState)
    requires PlainState(state)
    ensures ArrayFree(StateJson(state))
  {
    forall id | id in state.runs ensures ArrayFree(state.runs[id]) {
      assert Plain(state.runs[id]);
    }
    assert ArrayFree(Obj(state.runs));
  }

  // ---- The whole stream ----

  /** An emitted event is accepted like the event it realizes. */
  lemma {:induction false} SameGrammar(g: Grammar, emitted: seq<Emitted>, events: seq<Event>)
    requires RealizesAll(emitted, events)
    ensures AcceptFrom(g, emitted) == AcceptFrom(g, events)
    decreases |events|
  {
    if events != [] {
      assert Realizes(emitted[0], events[0]);
      assert Accept(g, emitted[0]) == Accept(g, events[0]);
      match Accept(g, events[0])
      case None =>
      case Some(next) => SameGrammar(next, emitted[1..], events[1..]);
    }
  }

  lemma {:induction false} SameCounts(emitted: seq<Emitted>, events: seq<Event>, name: string)
    requires RealizesAll(emitted, events)
    ensures Started(emitted, name) == Started(events, name) && Ended(emitted, name) == Ended(events, name)
  {
    if events != [] {
      assert Realizes(emitted[|events| - 1], events[|events| - 1]);
      SameCounts(emitted[..|events| - 1], events[..|events| - 1], name);
    }
  }

  /**
   * The mapper over a whole source. Its output realizes the events of the step function, so every law of
   * those holds of it. The stream grammar with one terminal event and distinct ids; the content: a reader
   * is told exactly what the source says, in order, and how the run ends; the message each tool call
   * belongs to; the conservation and the nesting of steps; and the exact condition under which replaying
   * its deltas keeps a client in step, which then holds the runs as they were published last.
   */
  method ToAgUiEvents(source: seq<AgentEvent>, options: Options) returns (out: seq<Emitted>)
    ensures RealizesAll(out, Output(options, source))
    ensures AcceptFrom(NOTHING, out).Some? && AcceptFrom(NOTHING, out).value.terminals == 1
    ensures forall name :: Ended(out, name) + (if HasFinish(source) then StillOpen(source, name) else 0)
                        == Started(out, name) + Unmatched(source, name)
    ensures InStep(out, Output(options, source), |out|) <==> ReplayableSource(options, source)
    ensures C.ReadAll(out) == C.Whole(source) && C.Texts(out) == C.Deltas(source)
    ensures N.ParentsRight(out) && O.StepsNested(out, source) && O.EndsOnce(out, options, source)
    ensures ReplayableSource(options, source) ==> O.HoldsRuns(Replay(out), options, source)
  {
    hide C.ReadAll, C.Whole, C.Texts, C.Deltas, N.ParentsRight, O.StepsNested, O.EndsOnce, O.HoldsRuns, Replay,
      ReplayableSource, InStep, StillOpen, Unmatched, Started, Ended, AcceptFrom, HasFinish;
    var stream := new Stream(options);
    var i := 0;
    assert source[..0] == [];
    while i < |source|
      invariant 0 <= i <= |source|
      invariant stream.Valid() && fresh(stream) && stream.options == options
      invariant stream.View() == After(options, source[..i])
      invariant stream.events == Trace(options, source[..i])
    {
      assert source[..i + 1][..i] == source[..i];
      Unfold(options, source[..i + 1]);
      stream.Handle(source[i]);
      i := i + 1;
    }
    assert source[..|source|] == source;
    stream.FinishRun();
    out := stream.emitted;
    OutputLaws(options, source, out);
    O.ContentLaws(options, source, out);
  }

  lemma OutputLaws(options: Options, source: seq<AgentEvent>, out: seq<Emitted>)
    requires RealizesAll(out, Output(options, source))
    ensures AcceptFrom(NOTHING, out).Some? && AcceptFrom(NOTHING, out).value.terminals == 1
    ensures forall name :: Ended(out, name) + (if HasFinish(source) then StillOpen(source, name) else 0)
                        == Started(out, name) + Unmatched(source, name)
    ensures InStep(out, Output(options, source), |out|) <==> ReplayableSource(options, source)
  {
    hide Output, RealizesAll, InStep, ReplayableSource;
    OutputAccepted(options, source);
    SameGrammar(NOTHING, out, Output(options, source));
    forall name
      ensures Ended(out, name) + (if HasFinish(source) then StillOpen(source, name) else 0)
           == Started(out, name) + Unmatched(source, name)
    {
      StepConservation(options, source, name);
      SameCounts(out, Output(options, source), name);
    }
    ReplayExact(options, source, out);
  }
}
