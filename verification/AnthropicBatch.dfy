/** A streamed message carries the text and the tool calls of the finished message. */
module AnthropicBatch {
  import opened Anthropic
  import opened Json
  import opened Wrappers

  // ---- Text and calls, however they were cut ----

  datatype Item = Words(text: string) | Tool(call: Call)

  /** Text next to text is one text; empty text is none. */
  function AddText(items: seq<Item>, text: string): seq<Item> {
    if text == "" then items
    else if items != [] && items[|items| - 1].Words? then
      items[..|items| - 1] + [Words(items[|items| - 1].text + text)]
    else items + [Words(text)]
  }

  function Add(items: seq<Item>, output: Output): seq<Item> {
    match output
    case Text(text) => AddText(items, text)
    case ToolCall(call) => items + [Tool(call)]
    case _ => items
  }

  /** The text and the calls of an output, in order. */
  function Condense(output: seq<Output>): seq<Item> {
    if output == [] then [] else Add(Condense(output[..|output| - 1]), output[|output| - 1])
  }

  lemma CondenseSnoc(output: seq<Output>, last: Output)
    ensures Condense(output + [last]) == Add(Condense(output), last)
  {
    assert (output + [last])[..|output|] == output;
  }

  lemma AddTextTwice(items: seq<Item>, a: string, b: string)
    ensures AddText(AddText(items, a), b) == AddText(items, a + b)
  {
    if a == "" {
      assert a + b == b;
    } else if b == "" {
      assert a + b == a;
    } else {
      var once := AddText(items, a);
      var last := once[|once| - 1].text;
      var before := if items != [] && items[|items| - 1].Words? then items[|items| - 1].text else "";
      assert before + a + b == before + (a + b);
      assert once[..|once| - 1]
          == if before != "" || (items != [] && items[|items| - 1].Words?) then items[..|items| - 1] else items;
      assert "" + (a + b) == a + b && "" + a == a;
    }
  }

  // ---- The finished message ----

  function BatchOutput(block: Block): Output {
    match block
    case TextBlock(text) => Text(text)
    case ToolUse(id, name, toolset, input) => ToolCall(Call(id, name, toolset, input))
    case DataBlock(data) => ProviderData(data)
  }

  /** What a stream makes of a block: an empty toolset name is dropped. */
  function StreamOutput(block: Block): Output {
    match block
    case ToolUse(id, name, toolset, input) => ToolCall(CallOf(Buffer(id, name, toolset, ""), input))
    case _ => BatchOutput(block)
  }

  /** The parts of the finished message's content, in order. */
  function Batch(sendings: seq<Sending>): seq<Output> {
    if sendings == [] then []
    else Batch(sendings[..|sendings| - 1]) + [BatchOutput(sendings[|sendings| - 1].block)]
  }

  // ---- A message on the wire ----

  /** A block under an index, and the events between its start and its stop. */
  datatype Sending = Sending(index: nat, block: Block, body: seq<ServerEvent>)

  function TextOf(body: seq<ServerEvent>): string {
    if body == [] then ""
    else TextOf(body[..|body| - 1]) + if body[|body| - 1].TextDelta? then body[|body| - 1].text else ""
  }

  function InputOf(body: seq<ServerEvent>): string {
    if body == [] then ""
    else InputOf(body[..|body| - 1]) + if body[|body| - 1].InputDelta? then body[|body| - 1].partial else ""
  }

  /** The events a block may have between its start and its stop. */
  predicate Fits(event: ServerEvent, index: nat, block: Block) {
    || event.Ping?
    || event.DataDelta?
    || (event.TextDelta? && block.TextBlock?)
    || (event.InputDelta? && event.index == index && block.ToolUse?)
  }

  /** The deltas, however they are cut, spell the block. */
  predicate Spells(s: Sending, json: string -> Option<Json>) {
    && (forall i :: 0 <= i < |s.body| ==> Fits(s.body[i], s.index, s.block))
    && (s.block.TextBlock? ==> TextOf(s.body) == s.block.text)
    && (s.block.ToolUse? ==>
          json(if InputOf(s.body) == "" then "{}" else InputOf(s.body)) == Some(s.block.input))
  }

  /** The block on the wire. What the start says of its text or its input is not read. */
  function WireOne(s: Sending): seq<ServerEvent> {
    [BlockStart(s.index, s.block)] + s.body + [BlockStop(s.index)]
  }

  function Wire(sendings: seq<Sending>): seq<ServerEvent> {
    if sendings == [] then [] else Wire(sendings[..|sendings| - 1]) + WireOne(sendings[|sendings| - 1])
  }

  /** The indices of the tool blocks. */
  function ToolIndices(sendings: seq<Sending>): set<nat> {
    if sendings == [] then {}
    else
      var s := sendings[|sendings| - 1];
      ToolIndices(sendings[..|sendings| - 1]) + if s.block.ToolUse? then {s.index} else {}
  }

  /** How many other blocks reuse the index of an earlier tool block. */
  function Reuses(sendings: seq<Sending>): nat {
    if sendings == [] then 0
    else
      var before, s := sendings[..|sendings| - 1], sendings[|sendings| - 1];
      Reuses(before) + if !s.block.ToolUse? && s.index in ToolIndices(before) then 1 else 0
  }

  // ---- One block ----

  lemma StepsSnoc(state: State, events: seq<ServerEvent>, event: ServerEvent, json: string -> Option<Json>)
    ensures Steps(state, events + [event], json) == Step(Steps(state, events, json), event, json)
  {
    assert (events + [event])[..|events|] == events;
  }

  /** The body of a block that is not a tool: its text is added, nothing else changes. */
  lemma {:induction false} TextBody(state: State, body: seq<ServerEvent>, index: nat, block: Block,
      json: string -> Option<Json>)
    requires !state.failed && !block.ToolUse?
    requires forall i :: 0 <= i < |body| ==> Fits(body[i], index, block)
    ensures var after := Steps(state, body, json);
      && after == state.(output := after.output)
      && Condense(after.output) == AddText(Condense(state.output), if block.TextBlock? then TextOf(body) else "")
  {
    if body != [] {
      var init, event := body[..|body| - 1], body[|body| - 1];
      TextBody(state, init, index, block, json);
      var before := Steps(state, init, json);
      BodyStep(before, event, index, block, json);
      if event.TextDelta? {
        AddTextTwice(Condense(state.output), TextOf(init), event.text);
      } else {
        assert TextOf(init) + "" == TextOf(init);
      }
    }
  }

  lemma BodyStep(state: State, event: ServerEvent, index: nat, block: Block, json: string -> Option<Json>)
    requires !state.failed && Fits(event, index, block) && !event.InputDelta?
    ensures var after := Step(state, event, json);
      && after == state.(output := after.output)
      && Condense(after.output) == AddText(Condense(state.output), if event.TextDelta? then event.text else "")
  {
    if event.TextDelta? {
      CondenseSnoc(state.output, Text(event.text));
    } else if event.DataDelta? {
      CondenseSnoc(state.output, ProviderData(event.data));
    }
  }

  /** The body of a tool block: its input text grows, no text or call comes out. */
  lemma {:induction false} ToolBody(state: State, body: seq<ServerEvent>, index: nat, block: Block,
      json: string -> Option<Json>)
    requires !state.failed && block.ToolUse? && index in state.buffers && state.buffers[index].input == ""
    requires forall i :: 0 <= i < |body| ==> Fits(body[i], index, block)
    ensures var after := Steps(state, body, json);
      && after == state.(output := after.output,
                         buffers := state.buffers[index := state.buffers[index].(input := InputOf(body))])
      && Condense(after.output) == Condense(state.output)
  {
    if body == [] {
      assert state.buffers[index := state.buffers[index].(input := "")] == state.buffers;
    } else {
      var init, event := body[..|body| - 1], body[|body| - 1];
      ToolBody(state, init, index, block, json);
      var before := Steps(state, init, json);
      if event.InputDelta? {
        assert Step(before, event, json).buffers[index].input == InputOf(init) + event.partial;
      } else {
        BodyStep(before, event, index, block, json);
        assert InputOf(init) + "" == InputOf(init);
      }
    }
  }

  /** What is known of a stream between two blocks. */
  predicate Ready(state: State, json: string -> Option<Json>) {
    && !state.failed
    && forall index :: index in state.buffers ==> ParseInput(state.buffers[index].input, json).Some?
  }

  lemma OneSteps(state: State, s: Sending, json: string -> Option<Json>)
    ensures Steps(state, WireOne(s), json)
         == Step(Steps(Step(state, BlockStart(s.index, s.block), json), s.body, json), BlockStop(s.index), json)
  {
    hide Step;
    var start, stop := [BlockStart(s.index, s.block)], BlockStop(s.index);
    StepsSnoc(state, start + s.body, stop, json);
    StepsAppend(state, start, s.body, json);
    StepsSnoc(state, [], BlockStart(s.index, s.block), json);
    assert [] + start == start;
  }

  /** A tool block gives its call. */
  lemma ToolSent(state: State, s: Sending, json: string -> Option<Json>)
    requires Ready(state, json) && Spells(s, json) && s.block.ToolUse?
    ensures var after := Steps(state, WireOne(s), json);
      && Ready(after, json)
      && after.buffers.Keys == state.buffers.Keys + {s.index}
      && Condense(after.output) == Add(Condense(state.output), StreamOutput(s.block))
  {
    OneSteps(state, s, json);
    var started := Step(state, BlockStart(s.index, s.block), json);
    assert started == state.(buffers :=
      state.buffers[s.index := Buffer(s.block.id, s.block.name, s.block.toolset, "")]);
    ToolBody(started, s.body, s.index, s.block, json);
    var filled := Steps(started, s.body, json);
    ToolStop(filled, s, json);
  }

  lemma ToolStop(filled: State, s: Sending, json: string -> Option<Json>)
    requires Spells(s, json) && s.block.ToolUse? && !filled.failed
    requires s.index in filled.buffers
    requires filled.buffers[s.index] == Buffer(s.block.id, s.block.name, s.block.toolset, InputOf(s.body))
    ensures var after := Step(filled, BlockStop(s.index), json);
      && after == filled.(output := after.output)
      && Condense(after.output) == Add(Condense(filled.output), StreamOutput(s.block))
  {
    CondenseSnoc(filled.output, StreamOutput(s.block));
  }

  /** The call a block's stop brings out again when the block reuses a tool's index. */
  function Repeated(state: State, index: nat, json: string -> Option<Json>): seq<Item>
    requires Ready(state, json)
  {
    if index in state.buffers then
      [Tool(CallOf(state.buffers[index], ParseInput(state.buffers[index].input, json).value))]
    else []
  }

  lemma OtherStarts(state: State, s: Sending, json: string -> Option<Json>)
    requires !state.failed && !s.block.ToolUse?
    ensures var started := Step(state, BlockStart(s.index, s.block), json);
      && started == state.(output := started.output)
      && Condense(started.output) == Condense(state.output)
  {
    if s.block.DataBlock? {
      CondenseSnoc(state.output, ProviderData(s.block.data));
    }
  }

  lemma OtherStops(state: State, index: nat, json: string -> Option<Json>)
    requires Ready(state, json)
    ensures var after := Step(state, BlockStop(index), json);
      && after == state.(output := after.output)
      && Condense(after.output) == Condense(state.output) + Repeated(state, index, json)
  {
    if index in state.buffers {
      var input := ParseInput(state.buffers[index].input, json).value;
      CondenseSnoc(state.output, ToolCall(CallOf(state.buffers[index], input)));
    }
  }

  /** Any other block gives its text, and once more the call of a tool whose index it reuses. */
  lemma OtherSent(state: State, s: Sending, json: string -> Option<Json>)
    requires Ready(state, json) && Spells(s, json) && !s.block.ToolUse?
    ensures var after := Steps(state, WireOne(s), json);
      && Ready(after, json)
      && after.buffers == state.buffers
      && Condense(after.output) == Add(Condense(state.output), BatchOutput(s.block)) + Repeated(state, s.index, json)
  {
    hide Step, Steps, Condense, WireOne, AddText;
    OneSteps(state, s, json);
    var started := Step(state, BlockStart(s.index, s.block), json);
    OtherStarts(state, s, json);
    TextBody(started, s.body, s.index, s.block, json);
    assert AddText(Condense(state.output), "") == Condense(state.output) by {
      NoText(Condense(state.output));
    }
    OtherStops(Steps(started, s.body, json), s.index, json);
  }

  lemma NoText(items: seq<Item>)
    ensures AddText(items, "") == items
  {
  }

  // ---- All blocks ----

  function Calls(items: seq<Item>): nat {
    if items == [] then 0 else Calls(items[..|items| - 1]) + if items[|items| - 1].Tool? then 1 else 0
  }

  lemma CallsSnoc(items: seq<Item>, item: Item)
    ensures Calls(items + [item]) == Calls(items) + if item.Tool? then 1 else 0
  {
    assert (items + [item])[..|items|] == items;
  }

  lemma CallsAdd(items: seq<Item>, output: Output)
    ensures Calls(Add(items, output)) == Calls(items) + if output.ToolCall? then 1 else 0
  {
    match output
    case Text(text) =>
      if text != "" {
        if items != [] && items[|items| - 1].Words? {
          CallsSnoc(items[..|items| - 1], Words(items[|items| - 1].text + text));
        } else {
          CallsSnoc(items, Words(text));
        }
      }
    case ToolCall(call) => CallsSnoc(items, Tool(call));
    case _ =>
  }

  /** No call with an empty toolset name. */
  predicate NoEmptyName(items: seq<Item>) {
    forall i :: 0 <= i < |items| && items[i].Tool? ==> items[i].call.toolset != Some("")
  }

  predicate EmptyNamed(block: Block) {
    block.ToolUse? && block.toolset == Some("")
  }

  lemma NamesAdd(items: seq<Item>, output: Output)
    ensures NoEmptyName(Add(items, output)) <==>
      NoEmptyName(items) && !(output.ToolCall? && output.call.toolset == Some(""))
  {
    var after := Add(items, output);
    if output.ToolCall? {
      assert forall i :: 0 <= i < |items| ==> after[i] == items[i];
      assert after[|items|] == Tool(output.call);
    } else {
      assert forall i :: 0 <= i < |items| && items[i].Tool? ==> after[i] == items[i];
      assert forall i :: 0 <= i < |after| && after[i].Tool? ==> i < |items| && items[i] == after[i];
    }
  }

  predicate SomeEmptyNamed(sendings: seq<Sending>) {
    exists i :: 0 <= i < |sendings| && EmptyNamed(sendings[i].block)
  }

  lemma SomeEmptyNamedSnoc(sendings: seq<Sending>)
    requires sendings != []
    ensures SomeEmptyNamed(sendings)
       <==> SomeEmptyNamed(sendings[..|sendings| - 1]) || EmptyNamed(sendings[|sendings| - 1].block)
  {
    var before := sendings[..|sendings| - 1];
    if SomeEmptyNamed(before) {
      var i :| 0 <= i < |before| && EmptyNamed(before[i].block);
      assert EmptyNamed(sendings[i].block);
    }
    if SomeEmptyNamed(sendings) && !EmptyNamed(sendings[|sendings| - 1].block) {
      var i :| 0 <= i < |sendings| && EmptyNamed(sendings[i].block);
      assert EmptyNamed(before[i].block);
    }
  }

  /** How what was streamed so far compares with the finished message. */
  ghost predicate Compares(items: seq<Item>, batch: seq<Item>, reuses: nat, emptyNamed: bool) {
    && Calls(items) == Calls(batch) + reuses
    && (reuses == 0 && !emptyNamed ==> items == batch)
    && NoEmptyName(items)
    && (NoEmptyName(batch) <==> !emptyNamed)
  }

  /** What a prefix of the blocks has given so far. */
  ghost predicate Given(state: State, sendings: seq<Sending>, json: string -> Option<Json>) {
    && Ready(state, json)
    && state.buffers.Keys == ToolIndices(sendings)
    && Compares(Condense(state.output), Condense(Batch(sendings)), Reuses(sendings), SomeEmptyNamed(sendings))
  }

  lemma ComparesTool(items: seq<Item>, batch: seq<Item>, reuses: nat, emptyNamed: bool, block: Block)
    requires Compares(items, batch, reuses, emptyNamed) && block.ToolUse?
    ensures Compares(Add(items, StreamOutput(block)), Add(batch, BatchOutput(block)), reuses,
                     emptyNamed || EmptyNamed(block))
  {
    OutputsOf(block);
    hide Calls, NoEmptyName, Add, EmptyNamed, StreamOutput, BatchOutput;
    CallsAdd(items, StreamOutput(block));
    NamesAdd(items, StreamOutput(block));
    CallsAdd(batch, BatchOutput(block));
    NamesAdd(batch, BatchOutput(block));
  }

  lemma ComparesOther(items: seq<Item>, batch: seq<Item>, reuses: nat, emptyNamed: bool, block: Block,
      repeated: seq<Item>)
    requires Compares(items, batch, reuses, emptyNamed) && !block.ToolUse?
    requires |repeated| <= 1 && forall i :: 0 <= i < |repeated| ==>
      repeated[i].Tool? && repeated[i].call.toolset != Some("")
    ensures Compares(Add(items, BatchOutput(block)) + repeated, Add(batch, BatchOutput(block)), reuses + |repeated|,
                     emptyNamed)
  {
    OutputsOf(block);
    hide Calls, NoEmptyName, Add, EmptyNamed, StreamOutput, BatchOutput;
    CallsAdd(items, BatchOutput(block));
    NamesAdd(items, BatchOutput(block));
    CallsAdd(batch, BatchOutput(block));
    NamesAdd(batch, BatchOutput(block));
    var more := Add(items, BatchOutput(block));
    if repeated == [] {
      assert more + [] == more;
    } else {
      var call := repeated[0].call;
      assert repeated == [Tool(call)];
      CallsSnoc(more, Tool(call));
      NamesAdd(more, ToolCall(call));
      AddTool(more, call);
    }
  }

  lemma AddTool(items: seq<Item>, call: Call)
    ensures Add(items, ToolCall(call)) == items + [Tool(call)]
  {
  }

  lemma {:induction false} WireGives(start: State, sendings: seq<Sending>, json: string -> Option<Json>)
    requires !start.failed && start.buffers == map[] && Condense(start.output) == []
    requires forall i :: 0 <= i < |sendings| ==> Spells(sendings[i], json)
    ensures Given(Steps(start, Wire(sendings), json), sendings, json)
  {
    if sendings == [] {
    } else {
      var before, s := sendings[..|sendings| - 1], sendings[|sendings| - 1];
      WireGives(start, before, json);
      StepsAppend(start, Wire(before), WireOne(s), json);
      hide Spells, Steps, WireOne;
      OneGives(Steps(start, Wire(before), json), sendings, json);
    }
  }

  lemma OneGives(state: State, sendings: seq<Sending>, json: string -> Option<Json>)
    requires sendings != [] && Given(state, sendings[..|sendings| - 1], json)
    requires Spells(sendings[|sendings| - 1], json)
    ensures Given(Steps(state, WireOne(sendings[|sendings| - 1]), json), sendings, json)
  {
    hide Spells, Steps, WireOne, Condense, BatchOutput, StreamOutput, Ready, Add, CallOf, ParseInput,
      Compares, SomeEmptyNamed, EmptyNamed, Repeated;
    var before, s := sendings[..|sendings| - 1], sendings[|sendings| - 1];
    SomeEmptyNamedSnoc(sendings);
    CondenseSnoc(Batch(before), BatchOutput(s.block));
    var items, batch := Condense(state.output), Condense(Batch(before));
    if s.block.ToolUse? {
      ToolSent(state, s, json);
      ComparesTool(items, batch, Reuses(before), SomeEmptyNamed(before), s.block);
    } else {
      OtherSent(state, s, json);
      RepeatedOnce(state, s.index, json);
      NotEmptyNamed(s.block);
      ComparesOther(items, batch, Reuses(before), SomeEmptyNamed(before), s.block, Repeated(state, s.index, json));
    }
  }

  lemma NotEmptyNamed(block: Block)
    requires !block.ToolUse?
    ensures !EmptyNamed(block)
  {
  }

  lemma OutputsOf(block: Block)
    ensures BatchOutput(block).ToolCall? == StreamOutput(block).ToolCall? == block.ToolUse?
    ensures BatchOutput(block).ToolCall? && BatchOutput(block).call.toolset == Some("") <==> EmptyNamed(block)
    ensures !(StreamOutput(block).ToolCall? && StreamOutput(block).call.toolset == Some(""))
    ensures !EmptyNamed(block) ==> StreamOutput(block) == BatchOutput(block)
    ensures !block.ToolUse? ==> StreamOutput(block) == BatchOutput(block)
  {
  }

  lemma RepeatedOnce(state: State, index: nat, json: string -> Option<Json>)
    requires Ready(state, json)
    ensures var repeated := Repeated(state, index, json);
      && |repeated| == (if index in state.buffers then 1 else 0)
      && forall i :: 0 <= i < |repeated| ==> repeated[i].Tool? && repeated[i].call.toolset != Some("")
  {
  }

  /**
   * Stream equals batch: blocks are sent one after the other, each cut into any deltas. The
   * streamed text and calls are those of the finished message exactly when no block that is not a
   * tool reuses the index of an earlier tool and no toolset name is empty; the finish carries the
   * last stop reason and usage.
   */
  lemma StreamEqualsBatchExact(thread: Option<Json>, raw: Option<RawUsage>, sendings: seq<Sending>,
      reason: Option<string>, last: Option<RawUsage>, details: Option<Json>, final: Option<string>,
      json: string -> Option<Json>)
    requires forall i :: 0 <= i < |sendings| ==> Spells(sendings[i], json)
    ensures var state := Steps(Start(),
        [MessageStart(thread, raw)] + Wire(sendings) + [MessageDelta(reason, last, details), MessageStop(final)], json);
      && !state.failed
      && (Condense(state.output) == Condense(Batch(sendings)) <==> Reuses(sendings) == 0 && !SomeEmptyNamed(sendings))
      && state.output != []
      && state.output[|state.output| - 1]
           == Finish(if reason.Some? then reason else final, TakeUsage(TakeUsage(None, raw), last))
  {
    hide Step, Steps, Spells, Condense, Batch, Calls, TakeUsage, Wire;
    var started := Steps(Start(), [MessageStart(thread, raw)], json);
    StartedQuietly(thread, raw, json);
    WireGives(started, sendings, json);
    WireKeepsTheRest(started, Wire(sendings), sendings, json);
    var sent := Steps(started, Wire(sendings), json);
    StepsAppend(Start(), [MessageStart(thread, raw)], Wire(sendings), json);
    var blocks := [MessageStart(thread, raw)] + Wire(sendings);
    StepsSnoc(Start(), blocks, MessageDelta(reason, last, details), json);
    StepsSnoc(Start(), blocks + [MessageDelta(reason, last, details)], MessageStop(final), json);
    assert blocks + [MessageDelta(reason, last, details), MessageStop(final)]
        == blocks + [MessageDelta(reason, last, details)] + [MessageStop(final)];
    Closing(sent, reason, last, details, final, json);
  }

  lemma StartedQuietly(thread: Option<Json>, raw: Option<RawUsage>, json: string -> Option<Json>)
    ensures var started := Steps(Start(), [MessageStart(thread, raw)], json);
      && started == Start().(output := DataIf(thread), usage := TakeUsage(None, raw))
      && Condense(started.output) == []
  {
    StepsSnoc(Start(), [], MessageStart(thread, raw), json);
    assert [] + [MessageStart(thread, raw)] == [MessageStart(thread, raw)];
    assert [] + DataIf(thread) == DataIf(thread);
  }

  /** Blocks touch neither the stop reason nor the usage. */
  lemma {:induction false} WireKeepsTheRest(state: State, events: seq<ServerEvent>, sendings: seq<Sending>,
      json: string -> Option<Json>)
    requires events == Wire(sendings)
    requires forall i :: 0 <= i < |sendings| ==> Spells(sendings[i], json)
    ensures var after := Steps(state, events, json);
      after.stopReason == state.stopReason && after.usage == state.usage
  {
    forall i | 0 <= i < |events| ensures !(events[i].MessageStart? || events[i].MessageDelta?) {
      WireHasBlocksOnly(sendings, i, json);
    }
    BlocksKeepTheRest(state, events, json);
  }

  lemma {:induction false} WireHasBlocksOnly(sendings: seq<Sending>, i: nat, json: string -> Option<Json>)
    requires i < |Wire(sendings)| && forall k :: 0 <= k < |sendings| ==> Spells(sendings[k], json)
    ensures !(Wire(sendings)[i].MessageStart? || Wire(sendings)[i].MessageDelta?)
  {
    var before, s := sendings[..|sendings| - 1], sendings[|sendings| - 1];
    if i < |Wire(before)| {
      WireHasBlocksOnly(before, i, json);
    } else {
      assert Spells(s, json);
      var k := i - |Wire(before)|;
      assert Wire(sendings)[i] == WireOne(s)[k];
      assert 1 <= k <= |s.body| ==> Fits(s.body[k - 1], s.index, s.block);
    }
  }

  lemma {:induction false} BlocksKeepTheRest(state: State, events: seq<ServerEvent>, json: string -> Option<Json>)
    requires forall i :: 0 <= i < |events| ==> !(events[i].MessageStart? || events[i].MessageDelta?)
    ensures var after := Steps(state, events, json);
      after.stopReason == state.stopReason && after.usage == state.usage
  {
    if events != [] {
      BlocksKeepTheRest(state, events[..|events| - 1], json);
    }
  }

  lemma Closing(sent: State, reason: Option<string>, last: Option<RawUsage>, details: Option<Json>,
      final: Option<string>, json: string -> Option<Json>)
    requires !sent.failed && sent.stopReason.None?
    ensures var state := Step(Step(sent, MessageDelta(reason, last, details), json), MessageStop(final), json);
      && !state.failed
      && Condense(state.output) == Condense(sent.output)
      && state.output != []
      && state.output[|state.output| - 1]
           == Finish(if reason.Some? then reason else final, TakeUsage(sent.usage, last))
  {
    var told := sent.(stopReason := reason, usage := TakeUsage(sent.usage, last),
                      output := sent.output + DataIf(details));
    assert Step(sent, MessageDelta(reason, last, details), json) == told;
    StopStep(told, final, json);
    hide Step, TakeUsage, Condense;
    DetailsSilent(sent.output, details);
    CondenseSnoc(told.output, Finish(if reason.Some? then reason else final, told.usage));
  }

  lemma StopStep(told: State, final: Option<string>, json: string -> Option<Json>)
    requires !told.failed
    ensures Step(told, MessageStop(final), json) == told.(output := told.output
      + [Finish(if told.stopReason.Some? then told.stopReason else final, told.usage)])
  {
  }

  lemma DetailsSilent(output: seq<Output>, details: Option<Json>)
    ensures Condense(output + DataIf(details)) == Condense(output)
  {
    if details.Some? {
      CondenseSnoc(output, ProviderData(details.value));
    } else {
      assert output + [] == output;
    }
  }

  // ---- Where stream and message differ ----

  /** A tool block and a text block under the same index: the text's stop releases the call again. */
  lemma ReusedIndexExample(index: nat, id: string, name: string, input: Json, text: string,
      json: string -> Option<Json>)
    requires text != "" && json("{}") == Some(input)
    ensures var call, block := Tool(Call(id, name, None, input)), ToolUse(id, name, None, input);
      var sendings := [Sending(index, block, []), Sending(index, TextBlock(text), [TextDelta(index, text)])];
      && !Steps(Start(), Wire(sendings), json).failed
      && Condense(Steps(Start(), Wire(sendings), json).output) == [call, Words(text), call]
      && Condense(Batch(sendings)) == [call, Words(text)]
  {
    var call, block := Call(id, name, None, input), ToolUse(id, name, None, input);
    var words := TextBlock(text);
    var one, two := Sending(index, block, []), Sending(index, words, [TextDelta(index, text)]);
    ReusedWire(one, two);
    ReusedSteps(BlockStart(index, block), index, words, text, call, json);
    hide Step, Steps, Wire;
    assert [one, two][..1] == [one] && [one][..0] == [];
    assert Batch([one]) == [] + [ToolCall(call)] && Batch([one, two]) == Batch([one]) + [Text(text)];
    CondensedThree(ToolCall(call), Text(text));
  }

  /** A tool block whose toolset name is empty: the stream leaves the name out, the finished message keeps it. */
  lemma EmptyToolsetExample(index: nat, id: string, name: string, input: Json, json: string -> Option<Json>)
    requires json("{}") == Some(input)
    ensures var sending := Sending(index, ToolUse(id, name, Some(""), input), []);
      && !Steps(Start(), Wire([sending]), json).failed
      && Condense(Steps(Start(), Wire([sending]), json).output) == [Tool(Call(id, name, None, input))]
      && Condense(Batch([sending])) == [Tool(Call(id, name, Some(""), input))]
  {
    var sending := Sending(index, ToolUse(id, name, Some(""), input), []);
    assert Spells(sending, json) && Ready(Start(), json);
    assert [sending][..0] == [];
    assert Wire([sending]) == WireOne(sending) by {
      assert Wire([]) + WireOne(sending) == WireOne(sending);
    }
    ToolSent(Start(), sending, json);
    assert Batch([sending]) == [BatchOutput(sending.block)];
    CondenseSnoc([], BatchOutput(sending.block));
  }

  lemma ReusedWire(one: Sending, two: Sending)
    requires one.body == [] && |two.body| == 1
    ensures Wire([one, two]) == [BlockStart(one.index, one.block), BlockStop(one.index)]
      + [BlockStart(two.index, two.block), two.body[0], BlockStop(two.index)]
  {
    assert [one, two][..1] == [one] && [one][..0] == [];
    assert WireOne(one) == [BlockStart(one.index, one.block), BlockStop(one.index)];
    assert WireOne(two) == [BlockStart(two.index, two.block), two.body[0], BlockStop(two.index)];
    assert Wire([one]) == [] + WireOne(one) == WireOne(one);
  }

  lemma CondensedThree(call: Output, words: Output)
    requires call.ToolCall? && words.Text? && words.text != ""
    ensures Condense([] + [call] + [words]) == [Tool(call.call), Words(words.text)]
    ensures Condense([call, words, call]) == [Tool(call.call), Words(words.text), Tool(call.call)]
  {
    CondensedTwo(call, words);
    assert [] + [call] + [words] == [call, words];
    assert [call, words, call][..2] == [call, words];
  }

  lemma CondensedTwo(call: Output, words: Output)
    requires call.ToolCall? && words.Text? && words.text != ""
    ensures Condense([call, words]) == [Tool(call.call), Words(words.text)]
  {
    assert [call, words][..1] == [call] && [call][..0] == [];
    assert Condense([call]) == [Tool(call.call)];
  }

  lemma ReusedSteps(start: ServerEvent, index: nat, words: Block, text: string, call: Call,
      json: string -> Option<Json>)
    requires start == BlockStart(index, ToolUse(call.id, call.name, None, call.input)) && call.toolset.None?
    requires words == TextBlock(text) && json("{}") == Some(call.input)
    ensures Steps(Start(),
        [start, BlockStop(index)] + [BlockStart(index, words), TextDelta(index, text), BlockStop(index)], json)
         == Start().(buffers := map[index := Buffer(call.id, call.name, None, "")],
                     output := [ToolCall(call), Text(text), ToolCall(call)])
  {
    var stop, begin, delta := BlockStop(index), BlockStart(index, words), TextDelta(index, text);
    var first := [start, stop];
    var s0 := Start().(buffers := map[index := Buffer(call.id, call.name, None, "")]);
    var s1 := s0.(output := [ToolCall(call)]);
    assert Step(Start(), start, json) == s0;
    assert Step(s0, stop, json) == s1;
    LateStop(s1, index, words, text, call, json);
    hide Step;
    StepsSnoc(Start(), [], start, json);
    StepsSnoc(Start(), [start], stop, json);
    assert [] + [start] == [start] && [start] + [stop] == first;
    StepsAppend(Start(), first, [begin, delta, stop], json);
  }

  lemma LateStop(s1: State, index: nat, words: Block, text: string, call: Call, json: string -> Option<Json>)
    requires s1 == Start().(buffers := map[index := Buffer(call.id, call.name, None, "")], output := [ToolCall(call)])
    requires call.toolset.None? && words == TextBlock(text) && json("{}") == Some(call.input)
    ensures Steps(s1, [BlockStart(index, words), TextDelta(index, text), BlockStop(index)], json)
         == s1.(output := [ToolCall(call), Text(text), ToolCall(call)])
  {
    var stop, begin, delta := BlockStop(index), BlockStart(index, words), TextDelta(index, text);
    var s2 := s1.(output := [ToolCall(call), Text(text)]);
    assert Step(s1, begin, json) == s1;
    assert Step(s1, delta, json) == s2;
    assert Step(s2, stop, json) == s2.(output := s2.output + [ToolCall(call)]);
    hide Step;
    StepsSnoc(s1, [], begin, json);
    StepsSnoc(s1, [begin], delta, json);
    StepsSnoc(s1, [begin, delta], stop, json);
    assert [] + [begin] == [begin] && [begin] + [delta] == [begin, delta];
    assert [begin, delta] + [stop] == [begin, delta, stop];
  }
}
