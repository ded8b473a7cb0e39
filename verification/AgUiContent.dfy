/** What the AG-UI output tells its reader is what the agent stream said, in order and complete. */
module AgUiContent {
  import opened Wrappers
  import opened Json
  import opened AgUiEvents
  import opened AgUiRuns
  import Decimal

  // ---- What a reader takes from the output ----

  datatype Told =
    | MessageOpens
    | Says(text: string)
    | MessageCloses
    | CallStarts(callId: string, tool: string)
    | CallInput(callId: string, input: string)
    | CallEnds(callId: string)
    | CallResult(callId: string, content: string)
    | Resolved(provider: string, approvalRequestId: string, approve: bool)
    | FromProvider(provider: string)
    | Shows(image: Image)
    | Compacts(compaction: Compaction)
    | StepBegins(index: nat)
    | RunEnds
    | Garbled

  function At(value: Json, key: string): Option<Json> {
    if value.Obj? && key in value.fields then Some(value.fields[key]) else None
  }

  predicate IsStr(value: Option<Json>) {
    value.Some? && value.value.Str?
  }

  predicate IsBool(value: Option<Json>) {
    value.Some? && value.value.Bool?
  }

  predicate OnlyKeys(value: Json, keys: set<string>) {
    value.Obj? && value.fields.Keys <= keys
  }

  /** How a client reads a custom event. Anything it does not know, or does not expect in it, garbles it. */
  function ReadCustom(name: string, value: Json): Told {
    var provider := At(value, "provider");
    if !IsStr(provider) then Garbled
    else if name == "zhivex.approval.resolved" then
      var id, approve := At(value, "approvalRequestId"), At(value, "approve");
      if IsStr(id) && IsBool(approve) && OnlyKeys(value, {"provider", "approvalRequestId", "approve"}) then
        Resolved(provider.value.s, id.value.s, approve.value.b)
      else Garbled
    else if name == "zhivex.provider-data" then
      if OnlyKeys(value, {"provider"}) then FromProvider(provider.value.s) else Garbled
    else if name == "zhivex.image" then ReadImage(provider.value.s, value)
    else Garbled
  }

  function ReadImage(provider: string, value: Json): Told {
    var partial, mediaType := At(value, "partial"), At(value, "mediaType");
    var id, index := At(value, "id"), At(value, "index");
    if IsBool(partial) && IsStr(mediaType) && (id.None? || IsStr(id)) && (index.None? || index.value.Number?)
      && OnlyKeys(value, {"provider", "partial", "id", "index", "mediaType"})
    then
      Shows(Image(provider, partial.value.b, if id.Some? then Some(id.value.s) else None,
                  if index.Some? then Some(index.value.n.Floor) else None, mediaType.value.s))
    else Garbled
  }

  /** How a client reads a step's name. */
  function ReadStep(name: string): Told {
    if "step:" <= name && Decimal.Canonical(name[5..]) then StepBegins(Decimal.Value(name[5..])) else Garbled
  }

  function Read<D>(event: AgUiEvent<D>): seq<Told> {
    match event
    case TextMessageStart(_) => [MessageOpens]
    case TextMessageContent(_, delta) => [Says(delta)]
    case TextMessageEnd(_) => [MessageCloses]
    case ToolCallStart(id, name, _) => [CallStarts(id, name)]
    case ToolCallArgs(id, delta) => [CallInput(id, delta)]
    case ToolCallEnd(id) => [CallEnds(id)]
    case ToolCallResult(_, id, content) => [CallResult(id, content)]
    case Custom(name, value) => [ReadCustom(name, value)]
    case ActivitySnapshot(_, compaction) => [Compacts(compaction)]
    case StepStarted(name) => [ReadStep(name)]
    case RunFinished(_, _, _) => [RunEnds]
    case RunError(_, _) => [RunEnds]
    case _ => []
  }

  function ReadAll<D>(events: seq<AgUiEvent<D>>): seq<Told> {
    if events == [] then [] else ReadAll(events[..|events| - 1]) + Read(events[|events| - 1])
  }

  // ---- What the agent stream says ----

  /** Text behind this source would go on with a message that is already open. */
  predicate Speaking(source: seq<AgentEvent>) {
    if source == [] then false
    else
      var init := source[..|source| - 1];
      match source[|source| - 1]
      case TextDelta(_) => true
      case ToolCall(_, _, _) => false
      case Finish => false
      case AgentRunFinish(_, _) => HasFinish(init) && Speaking(init)
      case _ => Speaking(init)
  }

  /** Text opens a message when none is open; tool calls, finishes and the end of the run close it. */
  function Tell(event: AgentEvent, speaking: bool, finished: bool): seq<Told> {
    match event
    case TextDelta(text) => (if speaking then [] else [MessageOpens]) + [Says(text)]
    case ToolCall(id, name, input) => Hushed(speaking) + [CallStarts(id, name), CallInput(id, input), CallEnds(id)]
    case ToolResult(id, content) => [CallResult(id, content)]
    case AgentApprovalResolved(provider, id, approve) => [Resolved(provider, id, approve)]
    case ProviderData(provider) => [FromProvider(provider)]
    case ImageGeneration(image) => [Shows(image.(id := if image.id == Some("") then None else image.id))]
    case AgentCompaction(compaction) => [Compacts(compaction)]
    case AgentStepStart(index) => [StepBegins(index)]
    case Finish => Hushed(speaking)
    case AgentRunFinish(_, _) => if finished then [] else Hushed(speaking) + [RunEnds]
    case _ => []
  }

  function Hushed(speaking: bool): seq<Told> {
    if speaking then [MessageCloses] else []
  }

  function TellAll(source: seq<AgentEvent>): seq<Told> {
    if source == [] then []
    else
      var init := source[..|source| - 1];
      TellAll(init) + Tell(source[|source| - 1], Speaking(init), HasFinish(init))
  }

  /** Everything the source says, with the end of the run at the end if the source does not finish it. */
  function Whole(source: seq<AgentEvent>): seq<Told> {
    TellAll(source) + if HasFinish(source) then [] else Hushed(Speaking(source)) + [RunEnds]
  }

  // ---- The reader is told what was said ----

  lemma {:induction false} ReadConcat<D>(a: seq<AgUiEvent<D>>, b: seq<AgUiEvent<D>>)
    ensures ReadAll(a + b) == ReadAll(a) + ReadAll(b)
    decreases |b|
  {
    if b == [] {
      assert a + b == a;
    } else {
      var init, last := b[..|b| - 1], b[|b| - 1];
      SplitEnd(a, b);
      ReadSnoc(a + init, last);
      ReadSnoc(init, last);
      hide ReadAll, Read;
      ReadConcat(a, init);
      Associates(ReadAll(a), ReadAll(init), Read(last));
    }
  }

  lemma ReadSnoc<D>(events: seq<AgUiEvent<D>>, last: AgUiEvent<D>)
    ensures ReadAll(events + [last]) == ReadAll(events) + Read(last)
  {
    hide Read;
    assert (events + [last])[..|events|] == events;
  }

  lemma ReadFew<D>(events: seq<AgUiEvent<D>>)
    requires |events| <= 1
    ensures ReadAll(events) == if events == [] then [] else Read(events[0])
  {
    hide Read;
    if events != [] {
      assert events[..0] == [];
    }
  }

  lemma ReadOne<D>(event: AgUiEvent<D>)
    ensures ReadAll([event]) == Read(event)
  {
    hide Read;
    assert [event][..0] == [];
  }

  lemma {:induction false} ReadNothing<D>(events: seq<AgUiEvent<D>>)
    requires forall i :: 0 <= i < |events| ==> Read(events[i]) == []
    ensures ReadAll(events) == []
  {
    if events != [] {
      hide Read;
      ReadNothing(events[..|events| - 1]);
    }
  }

  lemma StepRead(index: nat)
    ensures ReadStep(StepName(index)) == StepBegins(index)
  {
    Decimal.ShowCanonical(index);
    assert StepName(index)[5..] == Decimal.Show(index);
  }

  lemma ResolvedRead(provider: string, id: string, approve: bool)
    ensures ReadCustom("zhivex.approval.resolved", ResolvedValue(provider, id, approve))
         == Resolved(provider, id, approve)
  {
  }

  lemma ImageRead(image: Image)
    ensures ReadCustom("zhivex.image", ImageValue(image))
         == Shows(image.(id := if image.id == Some("") then None else image.id))
  {
    var value := ImageValue(image);
    ImageFields(image);
    hide ImageValue;
    assert image.index.Some? ==> (image.index.value as real).Floor == image.index.value;
  }

  lemma ImageFields(image: Image)
    ensures var value := ImageValue(image);
      && OnlyKeys(value, {"provider", "partial", "id", "index", "mediaType"})
      && At(value, "provider") == Some(Str(image.provider)) && At(value, "partial") == Some(Bool(image.partial))
      && At(value, "mediaType") == Some(Str(image.mediaType)) && At(value, "id") == Text(image.id)
      && At(value, "index") == if image.index.Some? then Some(Number(image.index.value as real)) else None
  {
  }

  lemma CloseMessageRead(m: Mapper)
    ensures ReadAll(CloseMessage(m).1) == Hushed(m.openMessageId.Some?)
    ensures CloseMessage(m).0.openMessageId.None?
  {
    if m.openMessageId.Some? {
      ReadOne(CloseMessage(m).1[0]);
    }
  }

  lemma {:induction false} CloseStepsRead(steps: seq<string>)
    ensures ReadAll(CloseSteps(steps)) == []
  {
    if steps != [] {
      var first: Event, later := StepFinished(steps[|steps| - 1]), CloseSteps(steps[..|steps| - 1]);
      CloseStepsRead(steps[..|steps| - 1]);
      ReadOne(first);
      ReadConcat([first], later);
    }
  }

  lemma FinishRunRead(options: Options, m: Mapper)
    ensures ReadAll(FinishRun(options, m).1) == if m.sawRunFinish then [] else Hushed(m.openMessageId.Some?) + [RunEnds]
    ensures FinishRun(options, m).0.openMessageId == if m.sawRunFinish then m.openMessageId else None
  {
    if !m.sawRunFinish {
      var ends, steps := CloseMessage(m).1, CloseSteps(m.openSteps);
      var last: Event := TerminalEvent(options, FinalPayload(m));
      CloseMessageRead(m);
      CloseStepsRead(m.openSteps);
      ReadOne(last);
      hide ReadAll, CloseSteps, CloseMessage;
      ReadConcat(ends, steps);
      ReadConcat(ends + steps, [last]);
    }
  }

  lemma ToolCallRead(m: Mapper, id: string, name: string, input: string)
    ensures var (next, events) := OnToolCall(m, id, name, input);
      && ReadAll(events) == Hushed(m.openMessageId.Some?) + [CallStarts(id, name), CallInput(id, input), CallEnds(id)]
      && next.openMessageId.None?
  {
    var (closed, ends) := CloseMessage(m);
    CloseMessageRead(m);
    var start: Event, args: Event, end: Event :=
      ToolCallStart(id, name, closed.parentMessageId), ToolCallArgs(id, input), ToolCallEnd(id);
    ReadOne(start);
    ReadOne(args);
    ReadOne(end);
    hide ReadAll, CloseMessage;
    assert [start, args, end] == [start] + [args] + [end];
    ReadConcat([start], [args]);
    ReadConcat([start] + [args], [end]);
    ReadConcat(ends, [start, args, end]);
  }

  lemma TextRead(m: Mapper, text: string)
    ensures var (next, events) := OnText(m, text);
      && ReadAll(events) == (if m.openMessageId.Some? then [] else [MessageOpens]) + [Says(text)]
      && next.openMessageId.Some?
  {
    var events := OnText(m, text).1;
    if m.openMessageId.Some? {
      ReadOne(events[0]);
    } else {
      ReadOne(events[0]);
      ReadOne(events[1]);
      ReadConcat([events[0]], [events[1]]);
      assert events == [events[0]] + [events[1]];
    }
  }

  lemma EmitStateRead(m: Mapper, next: PublicState)
    ensures ReadAll(EmitState(m, next).1) == []
    ensures EmitState(m, next).0.openMessageId == m.openMessageId
  {
    hide StateJson;
    ReadNothing(EmitState(m, next).1);
  }

  lemma RunFinishRead(options: Options, m: Mapper, status: AgentStatus, state: RunState)
    ensures var (next, events) := OnRunFinish(options, m, status, state);
      && ReadAll(events) == (if m.sawRunFinish then [] else Hushed(m.openMessageId.Some?) + [RunEnds])
      && next.openMessageId == if m.sawRunFinish then m.openMessageId else None
  {
    hide FinishRun, ReadAll, TerminalPayload, RememberAll, PublicRunFromState, WithRun;
    var (shown, states) := EmitState(m, WithRun(m.state, options.runId, state.view.runId, PublicRunFromState(state)));
    var interrupts := RememberAll(shown.interrupts, state.pendingApprovals);
    var ready := shown.(interrupts := interrupts,
                        terminal := Some(TerminalPayload(status, options, interrupts, shown.errorMessage)));
    EmitStateRead(m, WithRun(m.state, options.runId, state.view.runId, PublicRunFromState(state)));
    FinishRunRead(options, ready);
    ReadConcat(states, FinishRun(options, ready).1);
  }

  lemma TurnRead(options: Options, m: Mapper, event: AgentEvent)
    ensures var (next, events) := Next(options, m, event);
      && ReadAll(events) == Tell(event, m.openMessageId.Some?, m.sawRunFinish)
      && next.openMessageId.Some? == (match event
                                      case TextDelta(_) => true
                                      case ToolCall(_, _, _) => false
                                      case Finish => false
                                      case AgentRunFinish(_, _) => m.sawRunFinish && m.openMessageId.Some?
                                      case _ => m.openMessageId.Some?)
  {
    hide EmitState, CloseMessage, OnText, OnToolCall, OnRunFinish, ReadAll, Read, WithRun, PublicRunFromView, StepName,
      MessageId;
    match event
    case AgentRunUpdate(run) => EmitStateRead(m, WithRun(m.state, options.runId, run.runId, PublicRunFromView(run)));
    case TextDelta(text) => TextRead(m, text);
    case ToolCall(id, name, input) => ToolCallRead(m, id, name, input);
    case Finish => CloseMessageRead(m);
    case AgentRunFinish(status, state) => RunFinishRead(options, m, status, state);
    case _ => SimpleRead(options, m, event);
  }

  lemma SimpleRead(options: Options, m: Mapper, event: AgentEvent)
    requires !event.AgentRunUpdate? && !event.TextDelta? && !event.ToolCall? && !event.Finish? && !event.AgentRunFinish?
    ensures var (next, events) := Next(options, m, event);
      ReadAll(events) == Tell(event, m.openMessageId.Some?, m.sawRunFinish) && next.openMessageId == m.openMessageId
  {
    hide StepName, MessageId, ReadCustom, ReadStep, ResolvedValue, ProviderValue, ImageValue, Remember, DropLast,
      InterruptFromApproval, ReadAll;
    ReadFew(Next(options, m, event).1);
    if event.AgentApprovalResolved? {
      ResolvedRead(event.provider, event.approvalRequestId, event.approve);
    } else if event.ProviderData? {
      ProviderRead(event.provider);
    } else if event.ImageGeneration? {
      ImageRead(event.image);
    } else if event.AgentStepStart? {
      StepRead(event.stepIndex);
    }
  }

  lemma ProviderRead(provider: string)
    ensures ReadCustom("zhivex.provider-data", ProviderValue(provider)) == FromProvider(provider)
  {
  }

  lemma {:induction false} TraceRead(options: Options, source: seq<AgentEvent>)
    ensures ReadAll(Trace(options, source)) == TellAll(source)
    ensures After(options, source).openMessageId.Some? == Speaking(source)
  {
    if source == [] {
      ReadOne(Trace(options, source)[0]);
    } else {
      var init, last := source[..|source| - 1], source[|source| - 1];
      TraceRead(options, init);
      SawFinish(options, init);
      hide ReadAll, Tell, Next, HasFinish;
      Unfold(options, source);
      TurnRead(options, After(options, init), last);
      ReadConcat(Trace(options, init), Next(options, After(options, init), last).1);
    }
  }

  /**
   * The reader of the whole output is told exactly what the source said, in order: every text delta whole
   * and in the message it belongs to, every tool call with its input, every result, and what custom and
   * activity events carry; the run ends once, at its finish or at the end of the source.
   */
  lemma OutputTells(options: Options, source: seq<AgentEvent>)
    ensures ReadAll(Output(options, source)) == Whole(source)
  {
    TraceRead(options, source);
    SawFinish(options, source);
    hide ReadAll, TellAll, Trace, After, FinishRun, HasFinish, Speaking;
    var m := After(options, source);
    FinishRunRead(options, m);
    ReadConcat(Trace(options, source), FinishRun(options, m).1);
  }

  // ---- The texts ----

  /** The texts a reader is told, in order. */
  function Texts<D>(events: seq<AgUiEvent<D>>): seq<string> {
    if events == [] then []
    else
      var last := events[|events| - 1];
      Texts(events[..|events| - 1]) + if last.TextMessageContent? then [last.delta] else []
  }

  /** The text deltas of a source. */
  function Deltas(source: seq<AgentEvent>): seq<string> {
    if source == [] then []
    else
      var last := source[|source| - 1];
      Deltas(source[..|source| - 1]) + if last.TextDelta? then [last.textDelta] else []
  }

  function SaidIn(told: seq<Told>): seq<string> {
    if told == [] then []
    else SaidIn(told[..|told| - 1]) + if told[|told| - 1].Says? then [told[|told| - 1].text] else []
  }

  lemma {:induction false} SaidConcat(a: seq<Told>, b: seq<Told>)
    ensures SaidIn(a + b) == SaidIn(a) + SaidIn(b)
    decreases |b|
  {
    if b == [] {
      assert a + b == a;
    } else {
      assert (a + b)[..|a + b| - 1] == a + b[..|b| - 1];
      SaidConcat(a, b[..|b| - 1]);
    }
  }

  lemma {:induction false} TextsAreSaid<D>(events: seq<AgUiEvent<D>>)
    ensures Texts(events) == SaidIn(ReadAll(events))
  {
    if events != [] {
      var init, last := events[..|events| - 1], events[|events| - 1];
      TextsAreSaid(init);
      SaidConcat(ReadAll(init), Read(last));
      OneSaid(last);
    }
  }

  lemma OneSaid<D>(event: AgUiEvent<D>)
    ensures SaidIn(Read(event)) == if event.TextMessageContent? then [event.delta] else []
  {
    hide ReadCustom, ReadStep;
    assert |Read(event)| == 1 ==> Read(event)[..0] == [];
    if event.Custom? {
      CustomSaysNothing(event.name, event.value);
    }
    if event.StepStarted? {
      assert !ReadStep(event.stepName).Says? by { StepSaysNothing(event.stepName); }
    }
  }

  lemma CustomSaysNothing(name: string, value: Json)
    ensures !ReadCustom(name, value).Says?
  {
  }

  lemma StepSaysNothing(name: string)
    ensures !ReadStep(name).Says?
  {
  }

  lemma {:induction false} DeltasAreSaid(source: seq<AgentEvent>)
    ensures Deltas(source) == SaidIn(TellAll(source))
  {
    if source != [] {
      var init, last := source[..|source| - 1], source[|source| - 1];
      DeltasAreSaid(init);
      var told := Tell(last, Speaking(init), HasFinish(init));
      SaidConcat(TellAll(init), told);
      TellSays(last, Speaking(init), HasFinish(init));
    }
  }

  lemma TellSays(event: AgentEvent, speaking: bool, finished: bool)
    ensures SaidIn(Tell(event, speaking, finished)) == if event.TextDelta? then [event.textDelta] else []
  {
    var told := Tell(event, speaking, finished);
    if event.TextDelta? {
      assert told[..|told| - 1] == if speaking then [] else [MessageOpens];
      assert [MessageOpens][..0] == [];
    } else {
      NothingSaid(told);
    }
  }

  lemma {:induction false} NothingSaid(told: seq<Told>)
    requires forall i :: 0 <= i < |told| ==> !told[i].Says?
    ensures SaidIn(told) == []
  {
    if told != [] {
      NothingSaid(told[..|told| - 1]);
    }
  }

  /** No text is lost, changed or moved: the contents of the output are the source's deltas. */
  lemma TextsExact(options: Options, source: seq<AgentEvent>)
    ensures Texts(Output(options, source)) == Deltas(source)
  {
    hide ReadAll, Output, TellAll;
    OutputTells(options, source);
    TextsAreSaid(Output(options, source));
    DeltasAreSaid(source);
    var ends := if HasFinish(source) then [] else Hushed(Speaking(source)) + [RunEnds];
    SaidConcat(TellAll(source), ends);
    NothingSaid(ends);
  }
}
