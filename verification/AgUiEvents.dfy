/** Agent stream events, AG-UI events, and the mapper between them as a step function. */
module AgUiEvents {
  import opened Wrappers
  import opened Json
  import Decimal

  // ---- The public run state ----

  datatype CacheWriteDetails = CacheWriteDetails(ttl30mTokens: Option<real>, ttl12hTokens: Option<real>)

  datatype TokenUsage = TokenUsage(
    inputTokens: Option<real>, cachedInputTokens: Option<real>, cacheWriteTokens: Option<real>,
    cacheWriteTokensDetails: Option<CacheWriteDetails>, outputTokens: Option<real>, reasoningTokens: Option<real>,
    totalTokens: Option<real>, speed: Option<string>)

  datatype RunView = RunView(
    runId: string, status: string, agentId: Option<string>, parentRunId: Option<string>, provider: Option<string>,
    modelId: Option<string>, currentStep: real, maxSteps: Option<real>, usage: Option<TokenUsage>)

  datatype RunState = RunState(
    view: RunView, outputText: string, pendingApprovals: seq<Approval>)

  /** A field of an object literal that is present only when it has a value. */
  function Field(name: string, value: Option<Json>): map<string, Json> {
    if value.Some? then map[name := value.value] else map[]
  }

  /** A string that is spread into the object only when it is not empty. */
  function Text(value: Option<string>): Option<Json> {
    if value.Some? && value.value != "" then Some(Str(value.value)) else None
  }

  function Count(value: Option<real>): Option<Json> {
    if value.Some? then Some(Number(value.value)) else None
  }

  function DetailsJson(details: CacheWriteDetails): Json {
    Obj(Field("ttl30mTokens", Count(details.ttl30mTokens)) + Field("ttl12hTokens", Count(details.ttl12hTokens)))
  }

  function UsageJson(usage: TokenUsage): Json {
    Obj(Field("inputTokens", Count(usage.inputTokens))
        + Field("cachedInputTokens", Count(usage.cachedInputTokens))
        + Field("cacheWriteTokens", Count(usage.cacheWriteTokens))
        + Field("cacheWriteTokensDetails",
                if usage.cacheWriteTokensDetails.Some? then Some(DetailsJson(usage.cacheWriteTokensDetails.value))
                    else None)
        + Field("outputTokens", Count(usage.outputTokens))
        + Field("reasoningTokens", Count(usage.reasoningTokens))
        + Field("totalTokens", Count(usage.totalTokens))
        + Field("speed", if usage.speed.Some? then Some(Str(usage.speed.value)) else None))
  }

  function StepsJson(maxSteps: Option<real>): Json {
    if maxSteps.Some? then Number(maxSteps.value) else Str("unlimited")
  }

  function PublicRunFromView(run: RunView): Json {
    Obj(map["runId" := Str(run.runId), "status" := Str(run.status)]
        + Field("agentId", Text(run.agentId))
        + Field("parentRunId", Text(run.parentRunId))
        + Field("provider", Text(run.provider))
        + Field("modelId", Text(run.modelId))
        + map["currentStep" := Number(run.currentStep), "maxSteps" := StepsJson(run.maxSteps)]
        + Field("usage", if run.usage.Some? then Some(UsageJson(run.usage.value)) else None))
  }

  function PublicRunFromState(state: RunState): Json {
    var run := state.view;
    Obj(PublicRunFromView(run).fields
        + Field("provider", if run.provider.Some? then Some(Str(run.provider.value)) else None)
        + Field("modelId", if run.modelId.Some? then Some(Str(run.modelId.value)) else None)
        + map["outputText" := Str(state.outputText), "pendingApprovals" := Number(|state.pendingApprovals| as real)])
  }

  datatype PublicState = PublicState(run: Option<Json>, runs: map<string, Json>)

  function StateJson(state: PublicState): Json {
    Obj(map["run" := if state.run.Some? then state.run.value else Null, "runs" := Obj(state.runs)])
  }

  /** The state after the run `id` became `run`. */
  function WithRun(state: PublicState, runId: string, id: string, run: Json): PublicState {
    PublicState(if id == runId || state.run.None? then Some(run) else state.run, state.runs[id := run])
  }

  // ---- Events ----

  datatype Approval = Approval(provider: string, id: string, name: string, toolCallId: Option<string>,
      kind: Option<string>)

  datatype AgentStatus =
    | Queued | Running | Completed | Suspended | WaitingApproval | CancelRequested | Failed | Cancelled | TimedOut

  datatype Compaction = Compaction(id: string, beforeStep: int, messageCountBefore: int, messageCountAfter: int)

  /** What is told of an image; its bytes are not. */
  datatype Image = Image(provider: string, partial: bool, id: Option<string>, index: Option<int>, mediaType: string)

  datatype AgentEvent =
    | AgentRunStart
    | AgentApprovalResolved(provider: string, approvalRequestId: string, approve: bool)
    | AgentRunUpdate(run: RunView)
    | AgentStepStart(stepIndex: nat)
    | AgentStepFinish(stepIndex: nat)
    | TextDelta(textDelta: string)
    | ToolCall(id: string, name: string, input: string)
    | ToolResult(toolCallId: string, content: string)
    | ApprovalRequest(approval: Approval)
    | ProviderData(provider: string)
    | ImageGeneration(image: Image)
    | Finish
    | StreamError(message: string)
    | AgentCompaction(compaction: Compaction)
    | AgentRunFinish(status: AgentStatus, state: RunState)

  datatype Metadata = Metadata(provider: string, approvalRequestId: string, name: string, kind: string)

  datatype Interrupt = Interrupt(id: string, message: string, toolCallId: Option<string>, metadata: Option<Metadata>)

  datatype Outcome = SuccessOutcome | CancelledOutcome | InterruptOutcome(interrupts: seq<Interrupt>)

  /** `D` is what a state delta carries. */
  datatype AgUiEvent<D> =
    | RunStarted(threadId: string, runId: string)
    | TextMessageStart(messageId: string)
    | TextMessageContent(messageId: string, delta: string)
    | TextMessageEnd(messageId: string)
    | ToolCallStart(toolCallId: string, toolCallName: string, parentMessageId: Option<string>)
    | ToolCallArgs(toolCallId: string, delta: string)
    | ToolCallEnd(toolCallId: string)
    | ToolCallResult(messageId: string, toolCallId: string, content: string)
    | StateSnapshot(snapshot: Json)
    | StateDelta(change: D)
    | StepStarted(stepName: string)
    | StepFinished(stepName: string)
    | ActivitySnapshot(messageId: string, compaction: Compaction)
    | Custom(name: string, value: Json)
    | RunFinished(threadId: string, runId: string, outcome: Outcome)
    | RunError(message: string, code: Option<AgentStatus>)
  {
    predicate Terminal() {
      RunFinished? || RunError?
    }
  }

  /** What a delta is about: the public state before and after. */
  datatype Change = Change(before: Json, after: Json)

  type Event = AgUiEvent<Change>

  datatype Options = Options(threadId: string, runId: string)

  /** The variables of the event loop. */
  datatype Mapper = Mapper(
    messageSequence: nat, openMessageId: Option<string>, parentMessageId: Option<string>, openSteps: seq<string>,
    state: PublicState, previousState: Option<PublicState>, interrupts: seq<Interrupt>, terminal: Option<Payload>,
    errorMessage: Option<string>, sawRunFinish: bool)

  /** The payload of a terminal event. */
  datatype Payload = Finished(outcome: Outcome) | Errored(message: string, code: Option<AgentStatus>)

  const FRESH := Mapper(0, None, None, [], PublicState(None, map[]), None, [], None, None, false)

  function MessageId(n: nat): string {
    "msg_" + Decimal.Show(n)
  }

  function StepName(index: nat): string {
    "step:" + Decimal.Show(index)
  }

  function TerminalEvent<D>(options: Options, payload: Payload): AgUiEvent<D> {
    match payload
    case Finished(outcome) => RunFinished(options.threadId, options.runId, outcome)
    case Errored(message, code) => RunError(message, code)
  }

  // ---- The nested generators ----

  function CloseMessage(m: Mapper): (Mapper, seq<Event>) {
    match m.openMessageId
    case None => (m, [])
    case Some(id) => (m.(parentMessageId := Some(id), openMessageId := None), [TextMessageEnd(id)])
  }

  /** Open steps are closed from the last one opened. */
  function CloseSteps(steps: seq<string>): seq<Event> {
    if steps == [] then []
    else [StepFinished(steps[|steps| - 1])] + CloseSteps(steps[..|steps| - 1])
  }

  function EmitState(m: Mapper, next: PublicState): (Mapper, seq<Event>) {
    (m.(state := next, previousState := Some(next)),
     match m.previousState
     case None => [StateSnapshot(StateJson(next))]
     case Some(previous) =>
       if StateJson(previous) == StateJson(next) then []
       else [StateDelta(Change(StateJson(previous), StateJson(next)))])
  }

  function InterruptFromApproval(approval: Approval): Interrupt {
    Interrupt(approval.provider + ":" + approval.id, "Approval required for " + approval.name + ".",
              if approval.toolCallId == Some("") then None else approval.toolCallId,
              Some(Metadata(approval.provider, approval.id, approval.name,
                            if approval.kind.Some? then approval.kind.value else "provider")))
  }

  /** `Map.set` on the interrupts, which keep their first position. */
  function Remember(interrupts: seq<Interrupt>, interrupt: Interrupt): seq<Interrupt> {
    if interrupts == [] then [interrupt]
    else if interrupts[0].id == interrupt.id then [interrupt] + interrupts[1..]
    else [interrupts[0]] + Remember(interrupts[1..], interrupt)
  }

  function RememberAll(interrupts: seq<Interrupt>, approvals: seq<Approval>): seq<Interrupt> {
    if approvals == [] then interrupts
    else Remember(RememberAll(interrupts, approvals[..|approvals| - 1]),
        InterruptFromApproval(approvals[|approvals| - 1]))
  }

  function StatusText(status: AgentStatus): string {
    if status.Failed? then "failed" else "timed_out"
  }

  function TerminalPayload(status: AgentStatus, options: Options, interrupts: seq<Interrupt>,
      errorMessage: Option<string>): Payload {
    match status
    case WaitingApproval | Suspended =>
      Finished(InterruptOutcome(
        if |interrupts| > 0 then interrupts
        else [Interrupt(options.runId + ":approval", "Approval required.", None, None)]))
    case Cancelled | CancelRequested => Finished(CancelledOutcome)
    case Failed | TimedOut =>
      Errored(if errorMessage.Some? then errorMessage.value else "Agent run " + StatusText(status) + ".", Some(status))
    case _ => Finished(SuccessOutcome)
  }

  /** The payload of the terminal event that `finishRun` yields. */
  function FinalPayload(m: Mapper): Payload {
    if m.terminal.Some? then m.terminal.value
    else if m.errorMessage.Some? then Errored(m.errorMessage.value, None)
    else Finished(SuccessOutcome)
  }

  function FinishRun(options: Options, m: Mapper): (Mapper, seq<Event>) {
    if m.sawRunFinish then (m, [])
    else
      var (closed, ends) := CloseMessage(m);
      (closed.(sawRunFinish := true, openSteps := []),
       ends + CloseSteps(m.openSteps) + [TerminalEvent(options, FinalPayload(m))])
  }

  /** Removes the last occurrence, if there is one. */
  function DropLast(steps: seq<string>, name: string): seq<string> {
    if steps == [] then []
    else if steps[|steps| - 1] == name then steps[..|steps| - 1]
    else DropLast(steps[..|steps| - 1], name) + [steps[|steps| - 1]]
  }

  // ---- What custom events carry ----

  function ResolvedValue(provider: string, approvalRequestId: string, approve: bool): Json {
    Obj(map["provider" := Str(provider), "approvalRequestId" := Str(approvalRequestId), "approve" := Bool(approve)])
  }

  function ProviderValue(provider: string): Json {
    Obj(map["provider" := Str(provider)])
  }

  function ImageValue(image: Image): Json {
    Obj(map["provider" := Str(image.provider), "partial" := Bool(image.partial)]
        + Field("id", Text(image.id))
        + Field("index", if image.index.Some? then Some(Number(image.index.value as real)) else None)
        + map["mediaType" := Str(image.mediaType)])
  }

  // ---- One turn of the event loop ----

  function OnText(m: Mapper, text: string): (Mapper, seq<Event>) {
    match m.openMessageId
    case Some(id) => (m, [TextMessageContent(id, text)])
    case None =>
      var id := MessageId(m.messageSequence + 1);
      (m.(messageSequence := m.messageSequence + 1, openMessageId := Some(id)),
       [TextMessageStart(id), TextMessageContent(id, text)])
  }

  function OnToolCall(m: Mapper, id: string, name: string, input: string): (Mapper, seq<Event>) {
    var (closed, ends) := CloseMessage(m);
    (closed, ends + [ToolCallStart(id, name, closed.parentMessageId), ToolCallArgs(id, input), ToolCallEnd(id)])
  }

  function OnRunFinish(options: Options, m: Mapper, status: AgentStatus, state: RunState): (Mapper, seq<Event>) {
    var id := state.view.runId;
    var (shown, states) := EmitState(m, WithRun(m.state, options.runId, id, PublicRunFromState(state)));
    var interrupts := RememberAll(shown.interrupts, state.pendingApprovals);
    var payload := TerminalPayload(status, options, interrupts, shown.errorMessage);
    var (finished, ends) := FinishRun(options, shown.(interrupts := interrupts, terminal := Some(payload)));
    (finished, states + ends)
  }

  function Next(options: Options, m: Mapper, event: AgentEvent): (Mapper, seq<Event>) {
    match event
    case AgentRunStart => (m, [])
    case AgentApprovalResolved(provider, id, approve) =>
      (m, [Custom("zhivex.approval.resolved", ResolvedValue(provider, id, approve))])
    case AgentRunUpdate(run) => EmitState(m, WithRun(m.state, options.runId, run.runId, PublicRunFromView(run)))
    case AgentStepStart(index) => (m.(openSteps := m.openSteps + [StepName(index)]), [StepStarted(StepName(index))])
    case AgentStepFinish(index) => (m.(openSteps := DropLast(m.openSteps, StepName(index))),
        [StepFinished(StepName(index))])
    case TextDelta(text) => OnText(m, text)
    case ToolCall(id, name, input) => OnToolCall(m, id, name, input)
    case ToolResult(toolCallId, content) =>
      (m.(messageSequence := m.messageSequence + 1),
          [ToolCallResult(MessageId(m.messageSequence + 1), toolCallId, content)])
    case ApprovalRequest(approval) => (m.(interrupts := Remember(m.interrupts, InterruptFromApproval(approval))), [])
    case ProviderData(provider) => (m, [Custom("zhivex.provider-data", ProviderValue(provider))])
    case ImageGeneration(image) => (m, [Custom("zhivex.image", ImageValue(image))])
    case Finish => CloseMessage(m)
    case StreamError(message) => (m.(errorMessage := Some(if message == "" then "Agent run failed." else message)), [])
    case AgentCompaction(compaction) =>
      (m.(messageSequence := m.messageSequence + 1), [ActivitySnapshot(MessageId(m.messageSequence + 1), compaction)])
    case AgentRunFinish(status, state) => OnRunFinish(options, m, status, state)
  }

  // ---- A whole stream ----

  function After(options: Options, source: seq<AgentEvent>): Mapper {
    if source == [] then FRESH
    else Next(options, After(options, source[..|source| - 1]), source[|source| - 1]).0
  }

  /** Everything emitted while the source lasts. */
  function Trace(options: Options, source: seq<AgentEvent>): seq<Event> {
    if source == [] then [RunStarted(options.threadId, options.runId)]
    else
      var init := source[..|source| - 1];
      Trace(options, init) + Next(options, After(options, init), source[|source| - 1]).1
  }

  /** The whole output. */
  function Output(options: Options, source: seq<AgentEvent>): seq<Event> {
    Trace(options, source) + FinishRun(options, After(options, source)).1
  }
}
