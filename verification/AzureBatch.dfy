/** The calls a stream releases are the calls parsed from the finished response. */
module AzureBatch {
  import opened AzureCalls
  import opened AzureLaws
  import opened AzureResponses
  import opened Json
  import opened Wrappers

  predicate IsFunction(item: Item) {
    item.FunctionCall?
  }

  predicate IsHosted(item: Item) {
    item.HostedCall?
  }

  function Kept(output: seq<Item>, keep: Item -> bool): (items: seq<Item>)
    ensures forall i :: 0 <= i < |items| ==> keep(items[i])
  {
    if output == [] then []
    else Kept(output[..|output| - 1], keep) + if keep(output[|output| - 1]) then [output[|output| - 1]] else []
  }

  /** The hosted calls that were reported done, in order. */
  function HostedDone(events: seq<ServerEvent>): (items: seq<Item>)
    ensures forall i :: 0 <= i < |items| ==> items[i].HostedCall?
  {
    if events == [] then []
    else
      var event := events[|events| - 1];
      HostedDone(events[..|events| - 1])
      + if event.ItemEvent? && event.done && event.item.HostedCall? then [event.item] else []
  }

  // ---- A stream that describes a response ----

  /** A function call as a finished response gives it: identified, named, with arguments. */
  predicate Complete(item: Item) {
    && item.FunctionCall?
    && item.id.Some?
    && Or(item.callId, item.id.value) != ""
    && item.name.Some? && item.name.value != ""
    && item.arguments.Some?
  }

  /** The last event of the call carries the finished item, and no earlier one contradicts it. */
  ghost predicate Tells(own: seq<ServerEvent>, item: Item)
    requires AllTool(own) && Complete(item)
  {
    && own != []
    && own[|own| - 1].ItemEvent? && own[|own| - 1].item == item
    && forall i :: 0 <= i < |own| ==> Consistent(own[i], item)
  }

  predicate Consistent(event: ServerEvent, item: Item)
    requires Complete(item)
  {
    && (NameIn(event) == "" || NameIn(event) == item.name.value)
    && (CallIdIn(event).Some? ==> item.callId.Some?)
  }

  /** The events before the end describe the output items of the finished response. */
  ghost predicate Describes(head: seq<ServerEvent>, output: seq<Item>) {
    && Keyed(head) && Running(head)
    && var calls := Kept(output, IsFunction);
    && |Keys(head)| == |calls|
    && (forall i :: 0 <= i < |calls| ==>
          Complete(calls[i]) && calls[i].id == Some(Keys(head)[i]) && Tells(Own(head, Keys(head)[i]), calls[i]))
    && HostedDone(head) == Kept(output, IsHosted)
    && (forall i :: 0 <= i < |HostedDone(head)| ==> HostedDone(head)[i].callId.Some? || HostedDone(head)[i].id.Some?)
  }

  function AsPart(call: Call): Part {
    CallPart(call.id, Some(call.name), call.input)
  }

  function AsParts(calls: seq<Call>): (parts: seq<Part>)
    ensures |parts| == |calls| && forall i :: 0 <= i < |calls| ==> parts[i] == AsPart(calls[i])
  {
    seq(|calls|, i requires 0 <= i < |calls| => AsPart(calls[i]))
  }

  // ---- One call ----

  /** The buffer of a call whose events tell the finished item holds just what the item says. */
  lemma BufferTellsItem(key: string, own: seq<ServerEvent>, item: Item)
    requires AllTool(own) && Complete(item) && item.id == Some(key) && Tells(own, item)
    ensures Build(key, own) == Buffer(key, Or(item.callId, key), item.name.value, item.arguments.value)
  {
    hide Build;
    var last := |own| - 1;
    assert Consistent(own[last], item) && NameIn(own[last]) == item.name.value && CallIdIn(own[last]) == item.callId;
    var b := Build(key, own);
    ArgumentsExact(key, own, last);
    assert own[last + 1..] == [];
    NameAndCallIdExact(key, own);
    assert b.name != "" ==> exists i :: FirstNameAt(own, i, b.name);
    if item.callId.None? {
      forall i | 0 <= i < |own| ensures CallIdIn(own[i]).None? {
        assert Consistent(own[i], item);
      }
    }
  }

  predicate Readable(item: Item, json: string -> Option<Json>)
    requires Complete(item)
  {
    var text := item.arguments.value;
    text != "" && json(text).Some? && json(text).value.Obj?
  }

  function StreamedCall(item: Item, json: string -> Option<Json>): Call
    requires Complete(item) && Readable(item, json)
  {
    Call(Or(item.callId, item.id.value), item.name.value, json(item.arguments.value).value)
  }

  lemma ReleasesCall(calls: seq<Output>, item: Item, effects: bool, json: string -> Option<Json>)
    requires Complete(item) && Readable(item, json)
    ensures var key := item.id.value;
      ReleaseOne(calls, Buffer(key, Or(item.callId, key), item.name.value, item.arguments.value), effects, json)
      == Released(calls + [ToolCall(StreamedCall(item, json))], None)
  {
  }

  // ---- All calls ----

  predicate AllReadable(items: seq<Item>, json: string -> Option<Json>) {
    forall i :: 0 <= i < |items| ==> Complete(items[i]) && Readable(items[i], json)
  }

  function StreamedCalls(items: seq<Item>, json: string -> Option<Json>): (calls: seq<Call>)
    requires AllReadable(items, json)
    ensures |calls| == |items| && forall i :: 0 <= i < |items| ==> calls[i] == StreamedCall(items[i], json)
  {
    seq(|items|, i requires 0 <= i < |items| => StreamedCall(items[i], json))
  }

  lemma {:induction false} ReleasesCalls(buffers: seq<Buffer>, items: seq<Item>, effects: bool,
      json: string -> Option<Json>)
    requires |buffers| == |items| && AllReadable(items, json)
    requires forall i :: 0 <= i < |items| ==>
      buffers[i] == Buffer(items[i].id.value, Or(items[i].callId, items[i].id.value), items[i].name.value,
                              items[i].arguments.value)
    ensures Release(buffers, effects, json) == Released(CallOutputs(StreamedCalls(items, json)), None)
  {
    hide Readable, Complete, ReleaseOne;
    if items == [] {
      assert CallOutputs([]) == [];
    } else {
      var n := |items| - 1;
      ReleasesCalls(buffers[..n], items[..n], effects, json);
      ReleasesCall(CallOutputs(StreamedCalls(items[..n], json)), items[n], effects, json);
      assert CallOutputs(StreamedCalls(items, json))
        == CallOutputs(StreamedCalls(items[..n], json)) + [ToolCall(StreamedCall(items[n], json))];
    }
  }

  /** The finished response gives the kept items' parts in order when no index is needed to name them. */
  lemma {:induction false} PartsOfKept(output: seq<Item>, keep: Item -> bool, calls: seq<Call>,
      json: string -> Option<Json>)
    requires |calls| == |Kept(output, keep)|
    requires forall i, index: nat :: 0 <= i < |calls| ==>
      ItemParts(Kept(output, keep)[i], index, json) == Some([AsPart(calls[i])])
    ensures PartsOf(output, keep, json) == Some(AsParts(calls))
  {
    hide ItemParts, AsPart;
    if output == [] {
    } else {
      var n := |output| - 1;
      var items, before := Kept(output, keep), Kept(output[..n], keep);
      var m := |before|;
      forall i, index: nat | 0 <= i < m ensures ItemParts(before[i], index, json) == Some([AsPart(calls[..m][i])]) {
        assert before[i] == items[i];
        assert ItemParts(items[i], index, json) == Some([AsPart(calls[i])]);
      }
      PartsOfKept(output[..n], keep, calls[..m], json);
      if keep(output[n]) {
        assert ItemParts(items[m], n, json) == Some([AsPart(calls[m])]);
        assert AsParts(calls) == AsParts(calls[..m]) + [AsPart(calls[m])];
      } else {
        assert calls[..m] == calls;
      }
    }
  }

  // ---- Hosted calls ----

  /** A hosted call as its item describes it; the id falls back on the position only without ids. */
  predicate Hosts(call: Call, item: Item)
    requires item.HostedCall?
  {
    && call.name == ToolName(item.tool)
    && call.input == item.input
    && (item.callId.Some? ==> call.id == item.callId.value)
    && (item.callId.None? && item.id.Some? ==> call.id == item.id.value)
  }

  ghost predicate HostedFrom(hosted: seq<Call>, items: seq<Item>)
    requires forall i :: 0 <= i < |items| ==> items[i].HostedCall?
  {
    |hosted| == |items| && forall i :: 0 <= i < |items| ==> Hosts(hosted[i], items[i])
  }

  lemma {:induction false} HostedByOrder(events: seq<ServerEvent>, json: string -> Option<Json>,
      normalize: string -> Option<FinishReason>)
    requires Running(events)
    ensures After(events, json, normalize).Open?
    ensures HostedFrom(After(events, json, normalize).state.hosted, HostedDone(events))
  {
    if events != [] {
      var init, event := events[..|events| - 1], events[|events| - 1];
      HostedByOrder(init, json, normalize);
      StepHosted(After(init, json, normalize).state, event, json, normalize);
    }
  }

  lemma StepHosted(state: State, event: ServerEvent, json: string -> Option<Json>,
      normalize: string -> Option<FinishReason>)
    requires !Ends(event)
    ensures var p := Step(state, event, json, normalize);
      && p.Open?
      && if event.ItemEvent? && event.done && event.item.HostedCall? then
           |p.state.hosted| == |state.hosted| + 1 && p.state.hosted[..|state.hosted|] == state.hosted
           && Hosts(p.state.hosted[|state.hosted|], event.item)
         else p.state.hosted == state.hosted
  {
  }

  // ---- Stream equals batch ----

  lemma EndsAt(head: seq<ServerEvent>, terminal: ServerEvent, rest: seq<ServerEvent>, json: string -> Option<Json>,
      normalize: string -> Option<FinishReason>)
    requires Running(head) && terminal.Terminal?
    ensures After(head, json, normalize).Open?
    ensures RunOf(head + [terminal] + rest, json, normalize)
         == FinishRun(After(head, json, normalize).state, terminal, json, normalize)
  {
    OpenOutput(head, json, normalize);
    var events := head + [terminal] + rest;
    var state := After(head, json, normalize).state;
    assert events[..|head|] == head && events[|head|] == terminal;
    assert Step(state, terminal, json, normalize) == Closed(FinishRun(state, terminal, json, normalize));
    hide Step, After, FinishRun;
    ClosesAt(events, |head|, json, normalize);
  }

  /** The buffers at the end are the finished function calls, in output order. */
  lemma BuffersTellItems(head: seq<ServerEvent>, output: seq<Item>, json: string -> Option<Json>,
      normalize: string -> Option<FinishReason>)
    requires Describes(head, output)
    ensures After(head, json, normalize).Open?
    ensures var buffers, calls := After(head, json, normalize).state.buffers, Kept(output, IsFunction);
      && |buffers| == |calls|
      && forall i :: 0 <= i < |calls| ==>
           Complete(calls[i])
           && buffers[i] == Buffer(calls[i].id.value, Or(calls[i].callId, calls[i].id.value), calls[i].name.value,
                                   calls[i].arguments.value)
  {
    hide After, Own, Build, Keys, Kept, Keyed, Running;
    BuffersByKey(head, json, normalize);
    var buffers, calls := After(head, json, normalize).state.buffers, Kept(output, IsFunction);
    forall i | 0 <= i < |calls|
      ensures Complete(calls[i])
      ensures buffers[i] == Buffer(calls[i].id.value, Or(calls[i].callId, calls[i].id.value), calls[i].name.value,
                                   calls[i].arguments.value)
    {
      var key := Keys(head)[i];
      assert KeysOf(buffers)[i] == key;
      BufferTellsItem(key, Own(head, key), calls[i]);
    }
  }

  /**
   * Stream equals batch: when the events describe the output items of a completed response and
   * every call's arguments are a JSON object, the stream releases, in order, exactly the function
   * calls and then the hosted calls that parsing the finished response gives.
   */
  lemma StreamEqualsBatch(head: seq<ServerEvent>, terminal: ServerEvent, rest: seq<ServerEvent>, output: seq<Item>,
      json: string -> Option<Json>, normalize: string -> Option<FinishReason>)
    returns (functionCalls: seq<Call>, hostedCalls: seq<Call>)
    requires Describes(head, output)
    requires terminal.Terminal? && StatusOf(terminal) == "completed"
    requires AllReadable(Kept(output, IsFunction), json)
    ensures PartsOf(output, IsFunction, json) == Some(AsParts(functionCalls))
    ensures PartsOf(output, IsHosted, json) == Some(AsParts(hostedCalls))
    ensures var run := RunOf(head + [terminal] + rest, json, normalize);
      && run.failure.None?
      && run.output == Yields(head) + CallOutputs(functionCalls) + CallOutputs(hostedCalls)
         + [Finish(Some(if functionCalls + hostedCalls == [] then Stop else ToolCalls), "completed")]
  {
    EndsAt(head, terminal, rest, json, normalize);
    BuffersTellItems(head, output, json, normalize);
    HostedByOrder(head, json, normalize);
    OpenOutput(head, json, normalize);
    hide After, Describes, RunOf, Yields, Own, Keys;
    var state, calls := After(head, json, normalize).state, Kept(output, IsFunction);
    ReleasesCalls(state.buffers, calls, state.effects, json);
    functionCalls, hostedCalls := StreamedCalls(calls, json), state.hosted;
    FunctionParts(output, json);
    HostedParts(head, output, hostedCalls, json);
  }

  lemma FunctionParts(output: seq<Item>, json: string -> Option<Json>)
    requires AllReadable(Kept(output, IsFunction), json)
    ensures PartsOf(output, IsFunction, json) == Some(AsParts(StreamedCalls(Kept(output, IsFunction), json)))
  {
    var calls := Kept(output, IsFunction);
    PartsOfKept(output, IsFunction, StreamedCalls(calls, json), json);
  }

  lemma HostedParts(head: seq<ServerEvent>, output: seq<Item>, hosted: seq<Call>, json: string -> Option<Json>)
    requires Describes(head, output) && HostedFrom(hosted, HostedDone(head))
    ensures PartsOf(output, IsHosted, json) == Some(AsParts(hosted))
  {
    PartsOfKept(output, IsHosted, hosted, json);
  }

  // ---- When a completed response fails ----

  /** Identified, named, and with arguments that are a JSON object. */
  predicate Usable(buffer: Buffer, json: string -> Option<Json>) {
    buffer.callId != "" && buffer.name != "" && ParseArguments(buffer.args, json).Some?
  }

  lemma {:induction false} ReleaseExact(buffers: seq<Buffer>, effects: bool, json: string -> Option<Json>)
    ensures Release(buffers, effects, json).failure.None?
        <==> forall i :: 0 <= i < |buffers| ==> Usable(buffers[i], json)
  {
    if buffers != [] {
      ReleaseExact(buffers[..|buffers| - 1], effects, json);
    }
  }

  /** A completed response succeeds exactly when every function call it built is usable. */
  lemma CompletedExact(head: seq<ServerEvent>, terminal: ServerEvent, rest: seq<ServerEvent>,
      json: string -> Option<Json>, normalize: string -> Option<FinishReason>)
    requires Running(head) && terminal.Terminal? && StatusOf(terminal) == "completed"
    ensures After(head, json, normalize).Open?
    ensures var buffers := After(head, json, normalize).state.buffers;
      RunOf(head + [terminal] + rest, json, normalize).failure.None?
      <==> forall i :: 0 <= i < |buffers| ==> Usable(buffers[i], json)
  {
    EndsAt(head, terminal, rest, json, normalize);
    hide After, RunOf, Usable, Release;
    var state := After(head, json, normalize).state;
    ReleaseExact(state.buffers, state.effects, json);
  }
}
