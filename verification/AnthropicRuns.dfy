/** The outputs of any Anthropic event list, told from the events alone, and when the stream throws. */
module AnthropicRuns {
  import opened Anthropic
  import opened Json
  import opened Wrappers

  // ---- What the events say ----

  /** The tool block under an index: the last one that was started there, and the input sent to it since. */
  function OpenTool(events: seq<ServerEvent>, index: nat): Option<(Block, string)> {
    if events == [] then None
    else
      var before := OpenTool(events[..|events| - 1], index);
      match events[|events| - 1]
      case BlockStart(at, block) => if at == index && block.ToolUse? then Some((block, "")) else before
      case InputDelta(at, partial) =>
        if at == index && before.Some? then Some((before.value.0, before.value.1 + partial)) else before
      case _ => before
  }

  /** The input of an open tool; no text stands for an empty object. */
  function InputAt(events: seq<ServerEvent>, index: nat, json: string -> Option<Json>): Option<Json> {
    var tool := OpenTool(events, index);
    if tool.None? then None else json(if tool.value.1 == "" then "{}" else tool.value.1)
  }

  /** The event throws: its data is no JSON, or it stops a tool whose input is none. */
  predicate Throws(before: seq<ServerEvent>, event: ServerEvent, json: string -> Option<Json>) {
    match event
    case Garbled => true
    case BlockStop(index) => OpenTool(before, index).Some? && InputAt(before, index, json).None?
    case _ => false
  }

  /** The stop reason given last by a message delta. */
  function ReasonOf(events: seq<ServerEvent>): Option<string> {
    if events == [] then None
    else match events[|events| - 1]
      case MessageDelta(reason, _, _) => if reason.Some? then reason else ReasonOf(events[..|events| - 1])
      case _ => ReasonOf(events[..|events| - 1])
  }

  function Data(data: Option<Json>): seq<Output> {
    if data.None? then [] else [ProviderData(data.value)]
  }

  /** What one event brings out; a finish is told without its usage. */
  function Brings(before: seq<ServerEvent>, event: ServerEvent, json: string -> Option<Json>): seq<Output> {
    match event
    case MessageStart(thread, _) => Data(thread)
    case BlockStart(_, block) => if block.DataBlock? then [ProviderData(block.data)] else []
    case TextDelta(_, text) => [Text(text)]
    case DataDelta(_, data) => [ProviderData(data)]
    case BlockStop(index) =>
      var tool, input := OpenTool(before, index), InputAt(before, index, json);
      if tool.None? || input.None? || !tool.value.0.ToolUse? then []
      else
        var name := tool.value.0.toolset;
        [ToolCall(Call(tool.value.0.id, tool.value.0.name,
                       if name.Some? && name.value == "" then None else name, input.value))]
    case MessageDelta(_, _, details) => Data(details)
    case MessageStop(reason) => [Finish(if ReasonOf(before).Some? then ReasonOf(before) else reason, None)]
    case _ => []
  }

  /** What the events bring out up to the one that throws. */
  function BringsAll(events: seq<ServerEvent>, json: string -> Option<Json>): seq<Output> {
    if events == [] then []
    else
      var init, last := events[..|events| - 1], events[|events| - 1];
      BringsAll(init, json) + if ThrowsIn(init, json) then [] else Brings(init, last, json)
  }

  predicate ThrowsIn(events: seq<ServerEvent>, json: string -> Option<Json>) {
    exists i :: 0 <= i < |events| && Throws(events[..i], events[i], json)
  }

  /** The outputs with the usage of finishes left out. */
  function Bare(output: seq<Output>): seq<Output> {
    if output == [] then []
    else
      var last := output[|output| - 1];
      Bare(output[..|output| - 1]) + [if last.Finish? then Finish(last.reason, None) else last]
  }

  // ---- The stream follows ----

  lemma ThrowsSnoc(events: seq<ServerEvent>, json: string -> Option<Json>)
    requires events != []
    ensures var n := |events| - 1;
      ThrowsIn(events, json) <==> ThrowsIn(events[..n], json) || Throws(events[..n], events[n], json)
  {
    hide Throws;
    var n := |events| - 1;
    assert forall i :: 0 <= i < n ==> events[..n][..i] == events[..i];
    if ThrowsIn(events[..n], json) {
      var i :| 0 <= i < n && Throws(events[..n][..i], events[..n][i], json);
      assert Throws(events[..i], events[i], json);
    }
  }

  lemma {:induction false} BareConcat(a: seq<Output>, b: seq<Output>)
    ensures Bare(a + b) == Bare(a) + Bare(b)
    decreases |b|
  {
    if b == [] {
      assert a + b == a;
    } else {
      var init, last := b[..|b| - 1], b[|b| - 1];
      assert (a + b)[..|a + b| - 1] == a + init && (a + b)[|a + b| - 1] == last;
      BareConcat(a, init);
      Associates(Bare(a), Bare(init), [if last.Finish? then Finish(last.reason, None) else last]);
    }
  }

  lemma BareFew(output: seq<Output>)
    requires |output| <= 1
    ensures Bare(output)
         == if output != [] && output[0].Finish? then [Finish(output[0].reason, None)] else output
  {
    if output != [] {
      assert output[..0] == [];
    }
  }

  /** The buffer under an index holds what the events tell of its tool. */
  ghost predicate MirrorsAt(state: State, events: seq<ServerEvent>, index: nat) {
    var tool := OpenTool(events, index);
    if index !in state.buffers then tool.None?
    else
      && tool.Some? && tool.value.0.ToolUse?
      && state.buffers[index]
         == Buffer(tool.value.0.id, tool.value.0.name, tool.value.0.toolset, tool.value.1)
  }

  lemma StepMirrors(state: State, events: seq<ServerEvent>, event: ServerEvent, json: string -> Option<Json>,
      index: nat)
    requires !state.failed && MirrorsAt(state, events, index)
    ensures MirrorsAt(Step(state, event, json), events + [event], index)
  {
    assert (events + [event])[..|events|] == events;
  }

  lemma {:induction false} StepsMirror(events: seq<ServerEvent>, json: string -> Option<Json>, index: nat)
    requires !Steps(Start(), events, json).failed
    ensures MirrorsAt(Steps(Start(), events, json), events, index)
  {
    if events != [] {
      var init, last := events[..|events| - 1], events[|events| - 1];
      StepsMirror(init, json, index);
      StepMirrors(Steps(Start(), init, json), init, last, json, index);
      assert init + [last] == events;
    }
  }

  lemma {:induction false} ReasonKept(events: seq<ServerEvent>, json: string -> Option<Json>)
    requires !Steps(Start(), events, json).failed
    ensures Steps(Start(), events, json).stopReason == ReasonOf(events)
  {
    if events != [] {
      ReasonKept(events[..|events| - 1], json);
    }
  }

  /** One event, when nothing was thrown so far. */
  lemma StepBrings(state: State, before: seq<ServerEvent>, event: ServerEvent, json: string -> Option<Json>)
    requires !state.failed && state.stopReason == ReasonOf(before)
    requires event.BlockStop? ==> MirrorsAt(state, before, event.index)
    ensures var next := Step(state, event, json);
      && next.failed == Throws(before, event, json)
      && Bare(next.output) == Bare(state.output) + if next.failed then [] else Brings(before, event, json)
  {
    var more := StepAdds(state, before, event, json);
    hide *;
    BareConcat(state.output, more);
  }

  lemma StepAdds(state: State, before: seq<ServerEvent>, event: ServerEvent, json: string -> Option<Json>)
    returns (more: seq<Output>)
    requires !state.failed && state.stopReason == ReasonOf(before)
    requires event.BlockStop? ==> MirrorsAt(state, before, event.index)
    ensures var next := Step(state, event, json);
      && next.failed == Throws(before, event, json)
      && next.output == state.output + more
      && Bare(more) == if next.failed then [] else Brings(before, event, json)
  {
    hide ReasonOf, OpenTool;
    var next := Step(state, event, json);
    if event.BlockStop? {
      more := if next.failed then [] else Brings(before, event, json);
      StopAdds(state, before, event.index, json);
    } else {
      more := match event
        case MessageStart(thread, _) => DataIf(thread)
        case MessageDelta(_, _, details) => DataIf(details)
        case MessageStop(reason) => [Finish(Later(reason, state.stopReason), state.usage)]
        case _ => Brings(before, event, json);
    }
    BareFew(more);
    hide Bare, InputAt;
    assert next.output == state.output + more;
  }

  lemma StopAdds(state: State, before: seq<ServerEvent>, index: nat, json: string -> Option<Json>)
    requires !state.failed && MirrorsAt(state, before, index)
    ensures var next := Step(state, BlockStop(index), json);
      && next.failed == Throws(before, BlockStop(index), json)
      && next.output == state.output + if next.failed then [] else Brings(before, BlockStop(index), json)
  {
    hide OpenTool;
    assert state.output + [] == state.output;
  }

  /**
   * For every event list: the stream throws exactly when some event is garbled or stops a tool whose
   * input is not JSON, and until then it brings out exactly what the events say, in order: all text, all
   * provider data, each tool call when its block stops, and finishes with the last stop reason.
   */
  lemma {:induction false} RunExact(events: seq<ServerEvent>, json: string -> Option<Json>)
    ensures Steps(Start(), events, json).failed <==> ThrowsIn(events, json)
    ensures Bare(Steps(Start(), events, json).output) == BringsAll(events, json)
  {
    if events != [] {
      var init, last := events[..|events| - 1], events[|events| - 1];
      var state := Steps(Start(), init, json);
      RunExact(init, json);
      ThrowsSnoc(events, json);
      assert Steps(Start(), events, json) == Step(state, last, json);
      hide ThrowsIn, Throws, Brings, Steps;
      if state.failed {
        FailedStep(state, last, json);
      } else {
        ReasonKept(init, json);
        if last.BlockStop? {
          StepsMirror(init, json, last.index);
        }
        StepBrings(state, init, last, json);
      }
    }
  }

  lemma FailedStep(state: State, event: ServerEvent, json: string -> Option<Json>)
    requires state.failed
    ensures Step(state, event, json) == state
  {
  }

  /** A finish carries the usage reported until then. */
  lemma FinishUsage(events: seq<ServerEvent>, reason: Option<string>, json: string -> Option<Json>)
    requires !Steps(Start(), events, json).failed
    ensures var state := Steps(Start(), events + [MessageStop(reason)], json);
      && state.output != [] && state.output[|state.output| - 1].Finish?
      && state.output[|state.output| - 1].usage == Steps(Start(), events, json).usage
  {
    assert (events + [MessageStop(reason)])[..|events|] == events;
  }
}
