/** The Azure OpenAI response stream: server events in, model events out. */
module AzureResponses {
  import opened Decimal
  import opened Json
  import opened Wrappers

  // ---- What the server sends ----

  /** An output item. Any other object that names its type is provider data. */
  datatype Item =
    | FunctionCall(id: Option<string>, callId: Option<string>, name: Option<string>, arguments: Option<string>)
    | HostedCall(id: Option<string>, callId: Option<string>, tool: Hosted, input: Json)
    | Message(texts: seq<string>)
    | ProviderItem(data: Json)
    | Untyped

  datatype Hosted = Shell | ApplyPatch

  function ToolName(tool: Hosted): string {
    match tool
    case Shell => "shell"
    case ApplyPatch => "apply_patch"
  }

  datatype Ending = Completed | Failed | Incomplete

  /** One element of the event stream, after its data was parsed. */
  datatype ServerEvent =
    | Done
    | NotJson
    | Broken
    | StreamError
    | TextDelta(text: string)
    | ItemEvent(done: bool, item: Item, itemId: Option<string>, outputIndex: Option<nat>)
    | ArgumentsDelta(itemId: Option<string>, outputIndex: Option<nat>, delta: Option<string>)
    | ArgumentsDone(itemId: Option<string>, outputIndex: Option<nat>, arguments: Option<string>)
    | Terminal(ending: Ending, status: Option<string>, incompleteReason: Option<string>)
    | Ignored

  // ---- What the caller receives ----

  datatype FinishReason = Stop | ToolCalls | Length | ContentFilter | Refusal | Error | Unknown

  datatype Call = Call(id: string, name: string, input: Json)

  datatype Output =
    | Text(text: string)
    | ProviderData(data: Json)
    | ToolCall(call: Call)
    | Finish(reason: Option<FinishReason>, status: string)

  /** A plain error, or a tool-call error that says whether effects are possible. */
  datatype Failure =
    | Plain(message: string)
    | ToolCallError(code: string, effectsPossible: bool)

  datatype Run = Run(output: seq<Output>, failure: Option<Failure>)

  const NOT_JSON := "Azure OpenAI response stream event was not valid JSON."
  const BROKEN := "The transport failed."
  const REPORTED := "Azure OpenAI reported a response stream error."
  const INCOMPLETE_CALL := "Incomplete Azure OpenAI function call."
  const NO_TERMINAL := "Azure OpenAI response stream ended without a terminal event."
  const MALFORMED := "AZURE_OPENAI_MALFORMED_TOOL_USE"
  const INTERRUPTED := "AZURE_OPENAI_STREAM_INTERRUPTED"
  const RESPONSE_FAILED := "AZURE_OPENAI_RESPONSE_FAILED"

  // ---- Function calls under construction ----

  datatype Buffer = Buffer(key: string, callId: string, name: string, args: string)

  function NewBuffer(key: string): Buffer {
    Buffer(key, key, "", "")
  }

  /** The buffer of a key, or a new one. */
  function Get(buffers: seq<Buffer>, key: string): Buffer {
    if buffers == [] then NewBuffer(key)
    else if buffers[0].key == key then buffers[0]
    else Get(buffers[1..], key)
  }

  /** A map keeps its insertion order: a known key keeps its place, a new one goes last. */
  function Put(buffers: seq<Buffer>, buffer: Buffer): seq<Buffer> {
    if buffers == [] then [buffer]
    else if buffers[0].key == buffer.key then [buffer] + buffers[1..]
    else [buffers[0]] + Put(buffers[1..], buffer)
  }

  function Or<T>(a: Option<T>, b: T): T {
    match a
    case Some(value) => value
    case None => b
  }

  /** A function-call item, or its arguments. */
  predicate IsToolEvent(event: ServerEvent) {
    (event.ItemEvent? && event.item.FunctionCall?) || event.ArgumentsDelta? || event.ArgumentsDone?
  }

  /** The key a tool event carries itself. */
  function KeyOf(event: ServerEvent): Option<string> {
    if !IsToolEvent(event) then None
    else if event.ItemEvent? && event.item.id.Some? then event.item.id
    else if event.itemId.Some? then event.itemId
    else match event.outputIndex
      case Some(index) => Some(Show(index))
      case None => None
  }

  /** The key a tool event is filed under: the number of buffers when it carries none. */
  function KeyAt(event: ServerEvent, size: nat): string {
    Or(KeyOf(event), Show(size))
  }

  function Apply(buffer: Buffer, event: ServerEvent): Buffer
    requires IsToolEvent(event)
  {
    match event
    case ItemEvent(_, item, _, _) =>
      buffer.(callId := Or(item.callId, buffer.callId),
              name := if buffer.name == "" then Or(item.name, "") else buffer.name,
              args := Or(item.arguments, buffer.args))
    case ArgumentsDelta(_, _, delta) => buffer.(args := buffer.args + Or(delta, ""))
    case ArgumentsDone(_, _, arguments) => buffer.(args := Or(arguments, buffer.args))
  }

  // ---- One event ----

  datatype State = State(buffers: seq<Buffer>, hosted: seq<Call>, output: seq<Output>, effects: bool)

  datatype Progress = Open(state: State) | Closed(run: Run)

  /** The error a caller sees: once provider data went out, effects are possible. */
  function Interrupt(effects: bool, message: string): Failure {
    if effects then ToolCallError(INTERRUPTED, true) else Plain(message)
  }

  function Fail(state: State, message: string): Run {
    Run(state.output, Some(Interrupt(state.effects, message)))
  }

  function HostedId(item: Item, outputIndex: Option<nat>): string
    requires item.HostedCall?
  {
    if item.callId.Some? then item.callId.value
    else if item.id.Some? then item.id.value
    else match outputIndex
      case Some(index) => Show(index)
      case None => ToolName(item.tool)
  }

  function TakeItem(state: State, event: ServerEvent): State
    requires event.ItemEvent? && !event.item.FunctionCall?
  {
    if !event.done then state
    else match event.item
      case HostedCall(_, _, tool, input) =>
        state.(hosted := state.hosted + [Call(HostedId(event.item, event.outputIndex), ToolName(tool), input)])
      case ProviderItem(data) => state.(output := state.output + [ProviderData(data)], effects := true)
      case _ => state
  }

  function TakeToolEvent(buffers: seq<Buffer>, event: ServerEvent): seq<Buffer>
    requires IsToolEvent(event)
  {
    Put(buffers, Apply(Get(buffers, KeyAt(event, |buffers|)), event))
  }

  /** Tool arguments must be a JSON object; no text counts as the empty one. */
  function ParseArguments(raw: string, json: string -> Option<Json>): Option<Json> {
    if raw == "" then Some(Obj(map[]))
    else match json(raw)
      case Some(Obj(fields)) => Some(Obj(fields))
      case _ => None
  }

  datatype Released = Released(calls: seq<Output>, failure: Option<Failure>)

  /** The function calls in order, up to the first that is incomplete or malformed. */
  function Release(buffers: seq<Buffer>, effects: bool, json: string -> Option<Json>): Released {
    if buffers == [] then Released([], None)
    else
      var before := Release(buffers[..|buffers| - 1], effects, json);
      if before.failure.Some? then before
      else ReleaseOne(before.calls, buffers[|buffers| - 1], effects, json)
  }

  function ReleaseOne(calls: seq<Output>, buffer: Buffer, effects: bool, json: string -> Option<Json>): Released {
    if buffer.callId == "" || buffer.name == "" then
      Released(calls, Some(Interrupt(effects, INCOMPLETE_CALL)))
    else match ParseArguments(buffer.args, json)
      case None => Released(calls, Some(ToolCallError(MALFORMED, false)))
      case Some(input) => Released(calls + [ToolCall(Call(buffer.callId, buffer.name, input))], None)
  }

  function CallOutputs(calls: seq<Call>): (outputs: seq<Output>)
    ensures |outputs| == |calls| && forall i :: 0 <= i < |calls| ==> outputs[i] == ToolCall(calls[i])
  {
    seq(|calls|, i requires 0 <= i < |calls| => ToolCall(calls[i]))
  }

  function StatusOf(event: ServerEvent): string
    requires event.Terminal?
  {
    if event.status.Some? then event.status.value
    else match event.ending
      case Completed => "completed"
      case Failed => "failed"
      case Incomplete => "incomplete"
  }

  /** The finish reason; `normalize` is the reason the core library gives any other status. */
  function Reason(status: string, hasCalls: bool, incompleteReason: Option<string>,
      normalize: string -> Option<FinishReason>): Option<FinishReason>
  {
    if hasCalls then Some(ToolCalls)
    else if status == "completed" then Some(Stop)
    else if status == "failed" then Some(Error)
    else if status == "incomplete" && incompleteReason == Some("content_filter") then Some(ContentFilter)
    else if status == "incomplete" && incompleteReason == Some("max_output_tokens") then Some(Length)
    else normalize(status)
  }

  function FinishRun(state: State, event: ServerEvent, json: string -> Option<Json>,
      normalize: string -> Option<FinishReason>): Run
    requires event.Terminal?
  {
    var status := StatusOf(event);
    var released := if status == "completed" then Release(state.buffers, state.effects, json) else Released([], None);
    if released.failure.Some? then Run(state.output + released.calls, released.failure)
    else
      var hosted := if status == "completed" then CallOutputs(state.hosted) else [];
      var hasCalls := status == "completed" && (state.buffers != [] || state.hosted != []);
      Run(state.output + released.calls + hosted
          + [Finish(Reason(status, hasCalls, event.incompleteReason, normalize), status)],
        if status == "failed" then Some(ToolCallError(RESPONSE_FAILED, state.effects)) else None)
  }

  function Step(state: State, event: ServerEvent, json: string -> Option<Json>,
      normalize: string -> Option<FinishReason>): Progress
  {
    if IsToolEvent(event) then Open(state.(buffers := TakeToolEvent(state.buffers, event)))
    else match event
      case Done => Closed(Fail(state, NO_TERMINAL))
      case NotJson => Closed(Fail(state, NOT_JSON))
      case Broken => Closed(Fail(state, BROKEN))
      case StreamError => Closed(Fail(state, REPORTED))
      case TextDelta(text) => Open(state.(output := state.output + [Text(text)]))
      case ItemEvent(_, _, _, _) => Open(TakeItem(state, event))
      case Terminal(_, _, _) => Closed(FinishRun(state, event, json, normalize))
      case _ => Open(state)
  }

  function After(events: seq<ServerEvent>, json: string -> Option<Json>,
      normalize: string -> Option<FinishReason>): Progress
  {
    if events == [] then Open(State([], [], [], false))
    else match After(events[..|events| - 1], json, normalize)
      case Closed(run) => Closed(run)
      case Open(state) => Step(state, events[|events| - 1], json, normalize)
  }

  /** Everything the caller receives for a list of server events. */
  function RunOf(events: seq<ServerEvent>, json: string -> Option<Json>,
      normalize: string -> Option<FinishReason>): Run
  {
    match After(events, json, normalize)
    case Closed(run) => run
    case Open(state) => Fail(state, NO_TERMINAL)
  }

  lemma AfterSnoc(events: seq<ServerEvent>, event: ServerEvent, json: string -> Option<Json>,
      normalize: string -> Option<FinishReason>)
    ensures After(events + [event], json, normalize)
         == match After(events, json, normalize)
            case Closed(run) => Closed(run)
            case Open(state) => Step(state, event, json, normalize)
  {
    assert (events + [event])[..|events|] == events;
  }

  lemma {:induction false} ClosedStays(events: seq<ServerEvent>, i: nat, json: string -> Option<Json>,
      normalize: string -> Option<FinishReason>)
    requires i <= |events| && After(events[..i], json, normalize).Closed?
    ensures After(events, json, normalize) == After(events[..i], json, normalize)
    decreases |events| - i
  {
    if i < |events| {
      assert events[..i + 1] == events[..i] + [events[i]];
      AfterSnoc(events[..i], events[i], json, normalize);
      ClosedStays(events, i + 1, json, normalize);
    } else {
      assert events[..i] == events;
    }
  }

  // ---- The generator ----

  /** The generator's loop over the server events. */
  method StreamResponses(events: seq<ServerEvent>, json: string -> Option<Json>,
      normalize: string -> Option<FinishReason>) returns (run: Run)
    ensures run == RunOf(events, json, normalize)
  {
    hide Step;
    var buffers: seq<Buffer>, hosted: seq<Call>, output: seq<Output>, effects := [], [], [], false;
    var i := 0;
    while i < |events|
      invariant 0 <= i <= |events|
      invariant After(events[..i], json, normalize) == Open(State(buffers, hosted, output, effects))
    {
      ghost var state := State(buffers, hosted, output, effects);
      var event := events[i];
      assert events[..i + 1] == events[..i] + [event];
      AfterSnoc(events[..i], event, json, normalize);
      var ended: Option<Run>;
      if IsToolEvent(event) {
        buffers := FileToolEvent(buffers, event);
        ended := None;
      } else {
        hosted, output, effects, ended := TakeEvent(buffers, hosted, output, effects, event, json, normalize);
      }
      assert Step(state, event, json, normalize)
        == if ended.Some? then Closed(ended.value) else Open(State(buffers, hosted, output, effects)) by {
        ToolStep(state, event, json, normalize);
      }
      i := i + 1;
      if ended.Some? {
        ClosedStays(events, i, json, normalize);
        return ended.value;
      }
    }
    assert events[..i] == events;
    run := Run(output, Some(Interrupt(effects, NO_TERMINAL)));
  }

  lemma ToolStep(state: State, event: ServerEvent, json: string -> Option<Json>,
      normalize: string -> Option<FinishReason>)
    ensures IsToolEvent(event) ==>
      Step(state, event, json, normalize) == Open(state.(buffers := TakeToolEvent(state.buffers, event)))
  {
  }

  /** A function-call item or its arguments: the buffer of its key is brought up to date. */
  method FileToolEvent(buffers: seq<Buffer>, event: ServerEvent) returns (r: seq<Buffer>)
    requires IsToolEvent(event)
    ensures r == TakeToolEvent(buffers, event)
  {
    var existing := Get(buffers, KeyAt(event, |buffers|));
    match event {
      case ItemEvent(_, item, _, _) =>
        existing := existing.(callId := Or(item.callId, existing.callId));
        if existing.name == "" {
          existing := existing.(name := Or(item.name, ""));
        }
        if item.arguments.Some? {
          existing := existing.(args := item.arguments.value);
        }
      case ArgumentsDelta(_, _, delta) =>
        existing := existing.(args := existing.args + Or(delta, ""));
      case ArgumentsDone(_, _, arguments) =>
        if arguments.Some? {
          existing := existing.(args := arguments.value);
        }
    }
    r := Put(buffers, existing);
  }

  /** Any other event; `ended` is the finished run when the event ends the stream. */
  method TakeEvent(buffers: seq<Buffer>, hosted: seq<Call>, output: seq<Output>, effects: bool, event: ServerEvent,
      json: string -> Option<Json>, normalize: string -> Option<FinishReason>)
    returns (hosted': seq<Call>, output': seq<Output>, effects': bool, ended: Option<Run>)
    requires !IsToolEvent(event)
    ensures Step(State(buffers, hosted, output, effects), event, json, normalize)
         == if ended.Some? then Closed(ended.value) else Open(State(buffers, hosted', output', effects'))
  {
    hosted', output', effects', ended := hosted, output, effects, None;
    match event {
      case TextDelta(text) =>
        output' := output + [Text(text)];
      case Done =>
        ended := Some(Run(output, Some(Interrupt(effects, NO_TERMINAL))));
      case NotJson =>
        ended := Some(Run(output, Some(Interrupt(effects, NOT_JSON))));
      case Broken =>
        ended := Some(Run(output, Some(Interrupt(effects, BROKEN))));
      case StreamError =>
        ended := Some(Run(output, Some(Interrupt(effects, REPORTED))));
      case ItemEvent(done, item, _, outputIndex) =>
        if item.HostedCall? && done {
          hosted' := hosted + [Call(HostedId(item, outputIndex), ToolName(item.tool), item.input)];
        }
        if item.ProviderItem? && done {
          effects' := true;
          output' := output + [ProviderData(item.data)];
        }
      case Terminal(_, _, _) =>
        var run := End(buffers, hosted, output, effects, event, json, normalize);
        ended := Some(run);
      case _ =>
    }
  }

  /** The terminal event: calls are released, the run is finished, a failed status is thrown. */
  method End(buffers: seq<Buffer>, hosted: seq<Call>, output: seq<Output>, effects: bool, event: ServerEvent,
      json: string -> Option<Json>, normalize: string -> Option<FinishReason>) returns (run: Run)
    requires event.Terminal?
    ensures run == FinishRun(State(buffers, hosted, output, effects), event, json, normalize)
  {
    hide Release;
    var status := StatusOf(event);
    var sent := output;
    if status == "completed" {
      var released := ReleaseCalls(buffers, effects, json);
      sent := sent + released.calls;
      if released.failure.Some? {
        return Run(sent, released.failure);
      }
      sent := sent + CallOutputs(hosted);
    } else {
      assert sent + [] + [] == sent;
    }
    var hasCalls := status == "completed" && (|buffers| > 0 || |hosted| > 0);
    sent := sent + [Finish(Reason(status, hasCalls, event.incompleteReason, normalize), status)];
    run := Run(sent, if status == "failed" then Some(ToolCallError(RESPONSE_FAILED, effects)) else None);
  }

  method ReleaseCalls(buffers: seq<Buffer>, effects: bool, json: string -> Option<Json>) returns (r: Released)
    ensures r == Release(buffers, effects, json)
  {
    r := Released([], None);
    var i := 0;
    while i < |buffers|
      invariant 0 <= i <= |buffers|
      invariant r == Release(buffers[..i], effects, json) && r.failure.None?
    {
      assert buffers[..i + 1][..i] == buffers[..i];
      r := ReleaseOne(r.calls, buffers[i], effects, json);
      i := i + 1;
      if r.failure.Some? {
        ReleaseStays(buffers, i, effects, json);
        return;
      }
    }
    assert buffers[..i] == buffers;
  }

  lemma {:induction false} ReleaseStays(buffers: seq<Buffer>, i: nat, effects: bool, json: string -> Option<Json>)
    requires i <= |buffers| && Release(buffers[..i], effects, json).failure.Some?
    ensures Release(buffers, effects, json) == Release(buffers[..i], effects, json)
    decreases |buffers| - i
  {
    if i < |buffers| {
      assert buffers[..i + 1][..i] == buffers[..i];
      ReleaseStays(buffers, i + 1, effects, json);
    } else {
      assert buffers[..i] == buffers;
    }
  }
}
