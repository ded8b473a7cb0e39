/** How an Azure OpenAI run ends, error by error and status by status, and where its calls are filed. */
module AzureEnds {
  import opened AzureBatch
  import opened AzureCalls
  import opened AzureLaws
  import opened AzureResponses
  import opened Decimal
  import opened Json
  import opened Wrappers

  // ---- The key of a call ----

  /** The item's own id comes first, then the event's item id, then its output index. */
  lemma KeyExact(event: ServerEvent)
    ensures KeyOf(event).Some? ==> IsToolEvent(event)
    ensures event.ItemEvent? && event.item.FunctionCall? && event.item.id.Some? ==> KeyOf(event) == event.item.id
    ensures event.ItemEvent? && event.item.FunctionCall? && event.item.id.None? && event.itemId.Some? ==>
      KeyOf(event) == event.itemId
    ensures (event.ArgumentsDelta? || event.ArgumentsDone?) && event.itemId.Some? ==> KeyOf(event) == event.itemId
    ensures IsToolEvent(event) && event.itemId.None? && (event.ItemEvent? ==> event.item.id.None?) ==>
      KeyOf(event) == if event.outputIndex.Some? then Some(Show(event.outputIndex.value)) else None
    ensures event.ItemEvent? && !event.item.FunctionCall? ==> KeyOf(event).None?
  {
  }

  // ---- The call ids of hosted calls ----

  /** The call id, or the item id, or the output index, or the tool's name. */
  predicate Identifies(id: string, item: Item, outputIndex: Option<nat>)
    requires item.HostedCall?
  {
    if item.callId.Some? then id == item.callId.value
    else if item.id.Some? then id == item.id.value
    else if outputIndex.Some? then id == Show(outputIndex.value)
    else id == if item.tool == Shell then "shell" else "apply_patch"
  }

  /** The events that report a hosted call done. */
  function HostedEvents(events: seq<ServerEvent>): (done: seq<ServerEvent>)
    ensures forall i :: 0 <= i < |done| ==> done[i].ItemEvent? && done[i].item.HostedCall?
  {
    if events == [] then []
    else
      var last := events[|events| - 1];
      HostedEvents(events[..|events| - 1])
      + if last.ItemEvent? && last.done && last.item.HostedCall? then [last] else []
  }

  /** Each hosted call that was reported done, in order, by its own event. */
  ghost predicate HostedExactly(hosted: seq<Call>, done: seq<ServerEvent>)
    requires forall i :: 0 <= i < |done| ==> done[i].ItemEvent? && done[i].item.HostedCall?
  {
    && |hosted| == |done|
    && forall i :: 0 <= i < |done| ==>
         && Identifies(hosted[i].id, done[i].item, done[i].outputIndex)
         && hosted[i].name == (if done[i].item.tool == Shell then "shell" else "apply_patch")
         && hosted[i].input == done[i].item.input
  }

  lemma {:induction false} HostedExact(events: seq<ServerEvent>, json: string -> Option<Json>,
      normalize: string -> Option<FinishReason>)
    requires Running(events)
    ensures After(events, json, normalize).Open?
    ensures HostedExactly(After(events, json, normalize).state.hosted, HostedEvents(events))
  {
    if events != [] {
      var init, event := events[..|events| - 1], events[|events| - 1];
      HostedExact(init, json, normalize);
      HostedStep(After(init, json, normalize).state, event, json, normalize);
    }
  }

  lemma HostedStep(state: State, event: ServerEvent, json: string -> Option<Json>,
      normalize: string -> Option<FinishReason>)
    requires !Ends(event)
    ensures var p := Step(state, event, json, normalize);
      && p.Open?
      && if event.ItemEvent? && event.done && event.item.HostedCall? then
           |p.state.hosted| == |state.hosted| + 1 && p.state.hosted[..|state.hosted|] == state.hosted
           && HostedExactly([p.state.hosted[|state.hosted|]], [event])
         else p.state.hosted == state.hosted
  {
  }

  // ---- Errors ----

  /** Once provider data went out, an error says that effects are possible; before, it is passed on. */
  ghost predicate Interrupts(failure: Failure, output: seq<Output>, message: string) {
    if HasProviderData(output) then failure == ToolCallError("AZURE_OPENAI_STREAM_INTERRUPTED", true)
    else failure == Plain(message)
  }

  /** What the error of a run without a terminal event says. */
  predicate TellsEnd(message: string, events: seq<ServerEvent>) {
    var n := Head(events);
    if n == |events| || events[n].Done? then
      message == "Azure OpenAI response stream ended without a terminal event."
    else if events[n].NotJson? then message == "Azure OpenAI response stream event was not valid JSON."
    else if events[n].StreamError? then message == "Azure OpenAI reported a response stream error."
    else message == BROKEN
  }

  lemma FailTold(state: State, message: string)
    requires state.effects <==> HasProviderData(state.output)
    ensures var run := Fail(state, message);
      run.output == state.output && run.failure.Some? && Interrupts(run.failure.value, run.output, message)
  {
    hide HasProviderData;
  }

  /** Without a terminal event the error tells what ended the stream. */
  lemma CutShortExact(events: seq<ServerEvent>, json: string -> Option<Json>, normalize: string -> Option<FinishReason>)
    returns (message: string)
    requires Head(events) < |events| ==> !events[Head(events)].Terminal?
    ensures var run := RunOf(events, json, normalize);
      run.failure.Some? && Interrupts(run.failure.value, run.output, message) && TellsEnd(message, events)
  {
    var n := Head(events);
    OpenOutput(events[..n], json, normalize);
    var state := After(events[..n], json, normalize).state;
    message := if n == |events| || events[n].Done? then NO_TERMINAL
               else if events[n].NotJson? then NOT_JSON
               else if events[n].StreamError? then REPORTED else BROKEN;
    FailTold(state, message);
    if n == |events| {
      assert events[..n] == events;
    } else {
      hide After, RunOf, Fail, Interrupts, HasProviderData;
      RunAtEnd(events, json, normalize);
      StepCutShort(state, events[n], json, normalize);
    }
  }

  lemma StepCutShort(state: State, event: ServerEvent, json: string -> Option<Json>,
      normalize: string -> Option<FinishReason>)
    requires Ends(event) && !event.Terminal?
    ensures Step(state, event, json, normalize)
         == Closed(Fail(state, if event.Done? then NO_TERMINAL else if event.NotJson? then NOT_JSON
                               else if event.StreamError? then REPORTED else BROKEN))
  {
  }

  // ---- The terminal event ----

  /** The status the response gives, or else the one of the event's own type. */
  predicate Says(event: ServerEvent, status: string)
    requires event.Terminal?
  {
    if event.status.Some? then status == event.status.value
    else if event.ending == Completed then status == "completed"
    else if event.ending == Failed then status == "failed"
    else status == "incomplete"
  }

  /** The finish reason that belongs to a status. */
  predicate Reasons(reason: Option<FinishReason>, status: string, incompleteReason: Option<string>, hasCalls: bool,
      normalize: string -> Option<FinishReason>)
  {
    if status == "completed" then reason == Some(if hasCalls then ToolCalls else Stop)
    else if status == "failed" then reason == Some(Error)
    else if status == "incomplete" && incompleteReason == Some("content_filter") then reason == Some(ContentFilter)
    else if status == "incomplete" && incompleteReason == Some("max_output_tokens") then reason == Some(Length)
    else reason == normalize(status)
  }

  /** The calls of a completed response, function calls first. */
  ghost predicate Calls(buffers: seq<Buffer>, hosted: seq<Call>, calls: seq<Output>, json: string -> Option<Json>) {
    && |calls| == |buffers| + |hosted|
    && (forall i :: 0 <= i < |buffers| ==> Gives(buffers[i], calls[i], json))
    && (forall i :: 0 <= i < |hosted| ==> calls[|buffers| + i] == ToolCall(hosted[i]))
  }

  /** A call with an id, a name and a JSON object for arguments; no text stands for the empty object. */
  predicate Gives(buffer: Buffer, call: Output, json: string -> Option<Json>) {
    && buffer.callId != "" && buffer.name != ""
    && call.ToolCall? && call.call.id == buffer.callId && call.call.name == buffer.name
    && call.call.input.Obj?
    && if buffer.args == "" then call.call.input == Obj(map[]) else json(buffer.args) == Some(call.call.input)
  }

  /** The calls before the first bad one, and its error. */
  ghost predicate Breaks(buffers: seq<Buffer>, k: nat, calls: seq<Output>, failure: Failure, output: seq<Output>,
      json: string -> Option<Json>)
  {
    && k < |buffers| && |calls| == k
    && (forall i :: 0 <= i < k ==> Gives(buffers[i], calls[i], json))
    && if buffers[k].callId == "" || buffers[k].name == "" then
         Interrupts(failure, output, "Incomplete Azure OpenAI function call.")
       else
         && failure == ToolCallError("AZURE_OPENAI_MALFORMED_TOOL_USE", false)
         && buffers[k].args != ""
         && (json(buffers[k].args).None? || !json(buffers[k].args).value.Obj?)
  }

  /** What a run gives when its terminal event comes in this state. */
  ghost predicate EndsWith(run: Run, state: State, event: ServerEvent, json: string -> Option<Json>,
      normalize: string -> Option<FinishReason>)
    requires event.Terminal?
  {
    exists status, calls :: Says(event, status) && Gone(run, state, event, status, calls, json, normalize)
  }

  ghost predicate Gone(run: Run, state: State, event: ServerEvent, status: string, calls: seq<Output>,
      json: string -> Option<Json>, normalize: string -> Option<FinishReason>)
    requires event.Terminal?
  {
    if status != "completed" then
      && Finishes(run, state.output, status, event, false, normalize)
      && run.failure == if status == "failed" then
          Some(ToolCallError("AZURE_OPENAI_RESPONSE_FAILED", HasProviderData(state.output)))
        else None
    else if run.failure.None? then
      && Calls(state.buffers, state.hosted, calls, json)
      && Finishes(run, state.output + calls, status, event, calls != [], normalize)
    else
      && run.output == state.output + calls
      && Breaks(state.buffers, |calls|, calls, run.failure.value, state.output, json)
  }

  predicate Finishes(run: Run, before: seq<Output>, status: string, event: ServerEvent, hasCalls: bool,
      normalize: string -> Option<FinishReason>)
    requires event.Terminal?
  {
    && |run.output| == |before| + 1 && run.output[..|before|] == before
    && run.output[|before|].Finish? && run.output[|before|].status == status
    && Reasons(run.output[|before|].reason, status, event.incompleteReason, hasCalls, normalize)
  }

  lemma {:induction false} ReleaseTold(buffers: seq<Buffer>, effects: bool, output: seq<Output>,
      json: string -> Option<Json>)
    requires effects <==> HasProviderData(output)
    ensures var released := Release(buffers, effects, json);
      if released.failure.None? then
        |released.calls| == |buffers| && forall i :: 0 <= i < |buffers| ==> Gives(buffers[i], released.calls[i], json)
      else Breaks(buffers, |released.calls|, released.calls, released.failure.value, output, json)
  {
    if buffers != [] {
      var n := |buffers| - 1;
      ReleaseTold(buffers[..n], effects, output, json);
      var before := Release(buffers[..n], effects, json);
      hide HasProviderData, Gives, Interrupts, ReleaseOne;
      if before.failure.None? {
        OneTold(before.calls, buffers[n], effects, output, json);
        MoreTold(buffers, before.calls, ReleaseOne(before.calls, buffers[n], effects, json), output, json);
      }
    }
  }

  lemma MoreTold(buffers: seq<Buffer>, calls: seq<Output>, released: Released, output: seq<Output>,
      json: string -> Option<Json>)
    requires buffers != [] && |calls| == |buffers| - 1
    requires forall i :: 0 <= i < |calls| ==> Gives(buffers[i], calls[i], json)
    requires
      if released.failure.None? then
        |released.calls| == |calls| + 1 && released.calls[..|calls|] == calls
        && Gives(buffers[|calls|], released.calls[|calls|], json)
      else released.calls == calls && Breaks([buffers[|calls|]], 0, [], released.failure.value, output, json)
    ensures
      if released.failure.None? then
        |released.calls| == |buffers| && forall i :: 0 <= i < |buffers| ==> Gives(buffers[i], released.calls[i], json)
      else Breaks(buffers, |released.calls|, released.calls, released.failure.value, output, json)
  {
    hide Gives, Interrupts;
    if released.failure.None? {
      assert forall i :: 0 <= i < |calls| ==> released.calls[i] == calls[i];
    }
  }

  lemma OneTold(calls: seq<Output>, buffer: Buffer, effects: bool, output: seq<Output>, json: string -> Option<Json>)
    requires effects <==> HasProviderData(output)
    ensures var released := ReleaseOne(calls, buffer, effects, json);
      if released.failure.None? then
        |released.calls| == |calls| + 1 && released.calls[..|calls|] == calls
        && Gives(buffer, released.calls[|calls|], json)
      else
        released.calls == calls && Breaks([buffer], 0, [], released.failure.value, output, json)
  {
    hide HasProviderData;
  }

  /** What the terminal event does, with the calls of a completed response released. */
  lemma FinishShape(state: State, event: ServerEvent, json: string -> Option<Json>,
      normalize: string -> Option<FinishReason>)
    requires event.Terminal?
    ensures Says(event, StatusOf(event))
    ensures var run, status := FinishRun(state, event, json, normalize), StatusOf(event);
      var released := Release(state.buffers, state.effects, json);
      if status != "completed" then
        && Finishes(run, state.output, status, event, false, normalize)
        && run.failure == if status == "failed" then Some(ToolCallError(RESPONSE_FAILED, state.effects)) else None
      else if released.failure.Some? then
        run.output == state.output + released.calls && run.failure == released.failure
      else
        && run.failure.None?
        && Finishes(run, state.output + (released.calls + CallOutputs(state.hosted)), status, event,
             state.buffers != [] || state.hosted != [], normalize)
  {
    hide Release;
    var calls, hosted := Release(state.buffers, state.effects, json).calls, CallOutputs(state.hosted);
    Associates(state.output, calls, hosted);
    assert state.output + [] + [] == state.output;
  }

  lemma FinishTold(state: State, event: ServerEvent, json: string -> Option<Json>,
      normalize: string -> Option<FinishReason>)
    requires event.Terminal? && (state.effects <==> HasProviderData(state.output))
    ensures EndsWith(FinishRun(state, event, json, normalize), state, event, json, normalize)
  {
    var released := Release(state.buffers, state.effects, json);
    ReleaseTold(state.buffers, state.effects, state.output, json);
    FinishShape(state, event, json, normalize);
    var run, status := FinishRun(state, event, json, normalize), StatusOf(event);
    hide Release, FinishRun, HasProviderData, Breaks, Gives, Says, StatusOf, Finishes;
    if status == "completed" && released.failure.None? {
      CallsTold(state.buffers, state.hosted, released.calls, json);
      assert Gone(run, state, event, status, released.calls + CallOutputs(state.hosted), json, normalize);
    } else {
      assert Gone(run, state, event, status, released.calls, json, normalize);
    }
  }

  lemma CallsTold(buffers: seq<Buffer>, hosted: seq<Call>, released: seq<Output>, json: string -> Option<Json>)
    requires |released| == |buffers| && forall i :: 0 <= i < |buffers| ==> Gives(buffers[i], released[i], json)
    ensures Calls(buffers, hosted, released + CallOutputs(hosted), json)
    ensures released + CallOutputs(hosted) != [] <==> buffers != [] || hosted != []
  {
    hide Gives;
  }

  /**
   * The end of every run that has a terminal event, error by error: the status, the calls or the first bad
   * one with its error, the finish with its reason, and the error of a failed response.
   */
  lemma TerminalExact(head: seq<ServerEvent>, terminal: ServerEvent, rest: seq<ServerEvent>,
      json: string -> Option<Json>, normalize: string -> Option<FinishReason>)
    requires Running(head) && terminal.Terminal?
    ensures After(head, json, normalize).Open?
    ensures EndsWith(RunOf(head + [terminal] + rest, json, normalize), After(head, json, normalize).state, terminal,
                     json, normalize)
  {
    EndsAt(head, terminal, rest, json, normalize);
    OpenOutput(head, json, normalize);
    hide After, RunOf, EndsWith, HasProviderData;
    FinishTold(After(head, json, normalize).state, terminal, json, normalize);
  }
}
