/** The Anthropic message stream: server events in, model events out, and the usage they add up to. */
module Anthropic {
  import opened Json
  import opened Wrappers

  // ---- Usage ----

  /** Counters as the server sends them; any of them may be missing. */
  datatype Counters = Counters(input: Option<real>, output: Option<real>, cacheRead: Option<real>,
      cacheWrite: Option<real>)

  datatype RawUsage = RawUsage(counters: Counters, iterations: seq<Counters>, thinking: Option<real>,
      speed: Option<string>)

  datatype Usage = Usage(input: Option<real>, cached: Option<real>, cacheWrite: Option<real>, output: Option<real>,
                         reasoning: Option<real>, total: Option<real>, speed: Option<string>)

  function OrZero(x: Option<real>): real {
    match x
    case Some(value) => value
    case None => 0.0
  }

  function Later<T>(a: Option<T>, b: Option<T>): Option<T> {
    if b.Some? then b else a
  }

  /** The sum of two counters, where a missing one adds nothing; missing when both are. */
  function Plus(a: Option<real>, b: Option<real>): Option<real> {
    if a.None? && b.None? then None else Some(OrZero(a) + OrZero(b))
  }

  /** The sum of the counters a field gives over the iterations. */
  function Sum(iterations: seq<Counters>, field: Counters -> Option<real>): Option<real> {
    if iterations == [] then None
    else Plus(Sum(iterations[..|iterations| - 1], field), field(iterations[|iterations| - 1]))
  }

  function SumCounters(iterations: seq<Counters>): Counters {
    Counters(Sum(iterations, (c: Counters) => c.input), Sum(iterations, (c: Counters) => c.output),
             Sum(iterations, (c: Counters) => c.cacheRead), Sum(iterations, (c: Counters) => c.cacheWrite))
  }

  function Override(base: Counters, totals: Counters): Counters {
    Counters(Later(base.input, totals.input), Later(base.output, totals.output),
             Later(base.cacheRead, totals.cacheRead), Later(base.cacheWrite, totals.cacheWrite))
  }

  /** Input counts what was read fresh, read from the cache and written to it; total adds the output. */
  function UsageOf(raw: RawUsage): Usage {
    var c := Override(raw.counters, SumCounters(raw.iterations));
    var input := Plus(Plus(c.input, c.cacheRead), c.cacheWrite);
    Usage(input, c.cacheRead, c.cacheWrite, c.output, raw.thinking, Plus(input, c.output), raw.speed)
  }

  // ---- What usage means ----

  /** Some iteration defines the field. */
  ghost predicate Defined(iterations: seq<Counters>, field: Counters -> Option<real>) {
    exists i :: 0 <= i < |iterations| && field(iterations[i]).Some?
  }

  /** The sum of the field over the iterations that define it. */
  function Total(iterations: seq<Counters>, field: Counters -> Option<real>): real {
    if iterations == [] then 0.0
    else
      var first := field(iterations[0]);
      (if first.Some? then first.value else 0.0) + Total(iterations[1..], field)
  }

  /** The iterations' sum stands for the top-level counter when some iteration defines the field. */
  ghost predicate Effective(raw: RawUsage, field: Counters -> Option<real>, value: Option<real>) {
    if Defined(raw.iterations, field) then value == Some(Total(raw.iterations, field))
    else value == field(raw.counters)
  }

  function Amount(value: Option<real>): real {
    if value.None? then 0.0 else value.value
  }

  /**
   * Cached, cache-write and output counters are the effective ones. Input is missing when all three of
   * uncached, cached and cache-write input are, and their sum otherwise; total is input plus output.
   */
  ghost predicate Accounts(raw: RawUsage, usage: Usage) {
    && Effective(raw, (c: Counters) => c.cacheRead, usage.cached)
    && Effective(raw, (c: Counters) => c.cacheWrite, usage.cacheWrite)
    && Effective(raw, (c: Counters) => c.output, usage.output)
    && (exists uncached ::
          && Effective(raw, (c: Counters) => c.input, uncached)
          && (usage.input.None? <==> uncached.None? && usage.cached.None? && usage.cacheWrite.None?)
          && (usage.input.Some? ==>
                usage.input.value == Amount(uncached) + Amount(usage.cached) + Amount(usage.cacheWrite)))
    && (usage.total.None? <==> usage.input.None? && usage.output.None?)
    && (usage.total.Some? ==> usage.total.value == Amount(usage.input) + Amount(usage.output))
    && usage.reasoning == raw.thinking
    && usage.speed == raw.speed
  }

  lemma {:induction false} TotalSnoc(iterations: seq<Counters>, last: Counters, field: Counters -> Option<real>)
    ensures Total(iterations + [last], field) == Total(iterations, field) + Amount(field(last))
  {
    if iterations == [] {
      assert [] + [last] == [last] && [last][1..] == [];
    } else {
      assert (iterations + [last])[0] == iterations[0] && (iterations + [last])[1..] == iterations[1..] + [last];
      TotalSnoc(iterations[1..], last, field);
    }
  }

  lemma {:induction false} SumExact(iterations: seq<Counters>, field: Counters -> Option<real>)
    ensures Sum(iterations, field) == if Defined(iterations, field) then Some(Total(iterations, field)) else None
    ensures !Defined(iterations, field) ==> Total(iterations, field) == 0.0
  {
    if iterations != [] {
      var init, last := iterations[..|iterations| - 1], iterations[|iterations| - 1];
      SumExact(init, field);
      assert init + [last] == iterations;
      TotalSnoc(init, last, field);
      DefinedSnoc(init, last, field);
    }
  }

  lemma DefinedSnoc(iterations: seq<Counters>, last: Counters, field: Counters -> Option<real>)
    ensures Defined(iterations + [last], field) <==> Defined(iterations, field) || field(last).Some?
  {
    var all := iterations + [last];
    assert all[|iterations|] == last;
    if Defined(iterations, field) {
      var i :| 0 <= i < |iterations| && field(iterations[i]).Some?;
      assert field(all[i]).Some?;
    }
  }

  lemma EffectiveOf(raw: RawUsage, field: Counters -> Option<real>)
    ensures Effective(raw, field, Later(field(raw.counters), Sum(raw.iterations, field)))
  {
    SumExact(raw.iterations, field);
  }

  lemma UsageAccounts(raw: RawUsage)
    ensures Accounts(raw, UsageOf(raw))
  {
    var c := Override(raw.counters, SumCounters(raw.iterations));
    EffectiveOf(raw, (c: Counters) => c.input);
    EffectiveOf(raw, (c: Counters) => c.cacheRead);
    EffectiveOf(raw, (c: Counters) => c.cacheWrite);
    EffectiveOf(raw, (c: Counters) => c.output);
    hide Effective, Sum;
    assert Effective(raw, (c: Counters) => c.input, c.input);
  }

  /** One iteration more: each counter it defines is added. */
  function AddCounters(totals: Counters, c: Counters): Counters {
    Counters(Plus(totals.input, c.input), Plus(totals.output, c.output), Plus(totals.cacheRead, c.cacheRead),
             Plus(totals.cacheWrite, c.cacheWrite))
  }

  lemma SumStep(iterations: seq<Counters>, i: nat)
    requires i < |iterations|
    ensures SumCounters(iterations[..i + 1]) == AddCounters(SumCounters(iterations[..i]), iterations[i])
  {
    assert iterations[..i + 1][..i] == iterations[..i];
    hide Plus;
  }

  /** The loop over the iterations. */
  method MapUsage(raw: RawUsage) returns (usage: Usage)
    ensures usage == UsageOf(raw)
    ensures Accounts(raw, usage)
  {
    UsageAccounts(raw);
    var totals := Counters(None, None, None, None);
    var i := 0;
    assert SumCounters(raw.iterations[..0]) == totals;
    hide Accounts, Sum, SumCounters;
    while i < |raw.iterations|
      invariant 0 <= i <= |raw.iterations|
      invariant totals == SumCounters(raw.iterations[..i])
    {
      SumStep(raw.iterations, i);
      totals := AddIteration(totals, raw.iterations[i]);
      i := i + 1;
    }
    assert raw.iterations[..i] == raw.iterations;
    var c := Override(raw.counters, totals);
    var input := if c.input.None? && c.cacheRead.None? && c.cacheWrite.None? then None
                 else Some(OrZero(c.input) + OrZero(c.cacheRead) + OrZero(c.cacheWrite));
    var total := if input.None? && c.output.None? then None else Some(OrZero(input) + OrZero(c.output));
    usage := Usage(input, c.cacheRead, c.cacheWrite, c.output, raw.thinking, total, raw.speed);
  }

  /** The body of the loop: a counter that is a number is added to its total. */
  method AddIteration(totals: Counters, iteration: Counters) returns (r: Counters)
    ensures r == AddCounters(totals, iteration)
  {
    r := totals;
    if iteration.input.Some? {
      r := r.(input := Some(OrZero(r.input) + iteration.input.value));
    }
    if iteration.output.Some? {
      r := r.(output := Some(OrZero(r.output) + iteration.output.value));
    }
    if iteration.cacheRead.Some? {
      r := r.(cacheRead := Some(OrZero(r.cacheRead) + iteration.cacheRead.value));
    }
    if iteration.cacheWrite.Some? {
      r := r.(cacheWrite := Some(OrZero(r.cacheWrite) + iteration.cacheWrite.value));
    }
  }

  /** A later report replaces the fields it defines; the total is taken again. */
  function MergeUsage(previous: Option<Usage>, next: Usage): Usage {
    match previous
    case None => next.(total := Plus(next.input, next.output))
    case Some(p) =>
      var input, output := Later(p.input, next.input), Later(p.output, next.output);
      Usage(input, Later(p.cached, next.cached), Later(p.cacheWrite, next.cacheWrite), output,
            Later(p.reasoning, next.reasoning), Plus(input, output), Later(p.speed, next.speed))
  }

  // ---- The stream ----

  /** A content block, as a finished message holds it and as a stream announces it. */
  datatype Block =
    | TextBlock(text: string)
    | ToolUse(id: string, name: string, toolset: Option<string>, input: Json)
    | DataBlock(data: Json)

  datatype Call = Call(id: string, name: string, toolset: Option<string>, input: Json)

  datatype Output =
    | Text(text: string)
    | ToolCall(call: Call)
    | ProviderData(data: Json)
    | Finish(reason: Option<string>, usage: Option<Usage>)

  /** One server event; Garbled has data that is not JSON. */
  datatype ServerEvent =
    | MessageStart(thread: Option<Json>, usage: Option<RawUsage>)
    | BlockStart(index: nat, block: Block)
    | TextDelta(index: nat, text: string)
    | InputDelta(index: nat, partial: string)
    | DataDelta(index: nat, data: Json)
    | BlockStop(index: nat)
    | MessageDelta(stopReason: Option<string>, usage: Option<RawUsage>, details: Option<Json>)
    | MessageStop(stopReason: Option<string>)
    | Garbled
    | Ping

  datatype Buffer = Buffer(id: string, name: string, toolset: Option<string>, input: string)

  datatype State = State(buffers: map<nat, Buffer>, stopReason: Option<string>, usage: Option<Usage>,
                         output: seq<Output>, failed: bool)

  function Start(): State {
    State(map[], None, None, [], false)
  }

  function TakeUsage(usage: Option<Usage>, raw: Option<RawUsage>): Option<Usage> {
    match raw
    case None => usage
    case Some(r) => Some(MergeUsage(usage, UsageOf(r)))
  }

  function DataIf(data: Option<Json>): seq<Output> {
    match data
    case None => []
    case Some(d) => [ProviderData(d)]
  }

  /** An empty toolset name counts as none. */
  function CallOf(buffer: Buffer, input: Json): Call {
    Call(buffer.id, buffer.name, if buffer.toolset == Some("") then None else buffer.toolset, input)
  }

  function ParseInput(text: string, json: string -> Option<Json>): Option<Json> {
    json(if text == "" then "{}" else text)
  }

  function Step(state: State, event: ServerEvent, json: string -> Option<Json>): State {
    if state.failed then state
    else match event
      case MessageStart(thread, usage) =>
        state.(output := state.output + DataIf(thread), usage := TakeUsage(state.usage, usage))
      case BlockStart(index, ToolUse(id, name, toolset, _)) =>
        state.(buffers := state.buffers[index := Buffer(id, name, toolset, "")])
      case BlockStart(_, DataBlock(data)) => state.(output := state.output + [ProviderData(data)])
      case BlockStart(_, TextBlock(_)) => state
      case TextDelta(_, text) => state.(output := state.output + [Text(text)])
      case DataDelta(_, data) => state.(output := state.output + [ProviderData(data)])
      case InputDelta(index, partial) =>
        if index !in state.buffers then state
        else
          var b := state.buffers[index];
          state.(buffers := state.buffers[index := b.(input := b.input + partial)])
      case BlockStop(index) =>
        if index !in state.buffers then state
        else
          (match ParseInput(state.buffers[index].input, json)
           case None => state.(failed := true)
           case Some(input) => state.(output := state.output + [ToolCall(CallOf(state.buffers[index], input))]))
      case MessageDelta(stopReason, usage, details) =>
        state.(stopReason := Later(state.stopReason, stopReason), usage := TakeUsage(state.usage, usage),
               output := state.output + DataIf(details))
      case MessageStop(stopReason) =>
        state.(output := state.output + [Finish(Later(stopReason, state.stopReason), state.usage)])
      case Garbled => state.(failed := true)
      case Ping => state
  }

  function Steps(state: State, events: seq<ServerEvent>, json: string -> Option<Json>): State {
    if events == [] then state
    else Step(Steps(state, events[..|events| - 1], json), events[|events| - 1], json)
  }

  lemma {:induction false} FailedStays(state: State, events: seq<ServerEvent>, json: string -> Option<Json>)
    requires state.failed
    ensures Steps(state, events, json) == state
  {
    if events != [] {
      FailedStays(state, events[..|events| - 1], json);
    }
  }

  lemma {:induction false} StepsAppend(state: State, a: seq<ServerEvent>, b: seq<ServerEvent>,
      json: string -> Option<Json>)
    ensures Steps(state, a + b, json) == Steps(Steps(state, a, json), b, json)
    decreases |b|
  {
    if b == [] {
      assert a + b == a;
    } else {
      hide Step;
      var all := a + b;
      assert all[..|all| - 1] == a + b[..|b| - 1] && all[|all| - 1] == b[|b| - 1];
      StepsAppend(state, a, b[..|b| - 1], json);
    }
  }

  /** The generator's loop over the server events; `failed` is an exception thrown to the caller. */
  method StreamMessage(events: seq<ServerEvent>, json: string -> Option<Json>)
    returns (output: seq<Output>, failed: bool)
    ensures var state := Steps(Start(), events, json);
      output == state.output && failed == state.failed
  {
    var buffers: map<nat, Buffer>, stopReason: Option<string>, usage: Option<Usage> := map[], None, None;
    output, failed := [], false;
    var i := 0;
    while i < |events|
      invariant 0 <= i <= |events| && !failed
      invariant Steps(Start(), events[..i], json) == State(buffers, stopReason, usage, output, false)
    {
      var event := events[i];
      assert events[..i + 1][..i] == events[..i];
      buffers, stopReason, usage, output, failed := TakeEvent(buffers, stopReason, usage, output, event, json);
      i := i + 1;
      if failed {
        StepsAppend(Start(), events[..i], events[i..], json);
        assert events[..i] + events[i..] == events;
        FailedStays(Steps(Start(), events[..i], json), events[i..], json);
        return;
      }
    }
    assert events[..i] == events;
  }

  method TakeEvent(buffers: map<nat, Buffer>, stopReason: Option<string>, usage: Option<Usage>, output: seq<Output>,
      event: ServerEvent, json: string -> Option<Json>)
    returns (buffers': map<nat, Buffer>, stopReason': Option<string>, usage': Option<Usage>, output': seq<Output>,
      failed: bool)
    ensures State(buffers', stopReason', usage', output', failed)
         == Step(State(buffers, stopReason, usage, output, false), event, json)
  {
    buffers', stopReason', usage', output', failed := buffers, stopReason, usage, output, false;
    match event {
      case MessageStart(thread, raw) =>
        output' := output + DataIf(thread);
        usage' := AddUsage(usage, raw);
      case BlockStart(index, block) =>
        if block.ToolUse? {
          buffers' := buffers[index := Buffer(block.id, block.name, block.toolset, "")];
        }
        if block.DataBlock? {
          output' := output + [ProviderData(block.data)];
        }
      case TextDelta(_, text) =>
        output' := output + [Text(text)];
      case DataDelta(_, data) =>
        output' := output + [ProviderData(data)];
      case InputDelta(index, partial) =>
        if index in buffers {
          var current := buffers[index];
          buffers' := buffers[index := current.(input := current.input + partial)];
        }
      case BlockStop(index) =>
        if index in buffers {
          var current := buffers[index];
          match ParseInput(current.input, json) {
            case None => failed := true;
            case Some(input) => output' := output + [ToolCall(CallOf(current, input))];
          }
        }
      case MessageDelta(reason, raw, details) =>
        stopReason' := if reason.Some? then reason else stopReason;
        usage' := AddUsage(usage, raw);
        output' := output + DataIf(details);
      case MessageStop(reason) =>
        output' := output + [Finish(if stopReason.Some? then stopReason else reason, usage)];
      case Garbled =>
        failed := true;
      case Ping =>
    }
  }

  method AddUsage(usage: Option<Usage>, raw: Option<RawUsage>) returns (r: Option<Usage>)
    ensures r == TakeUsage(usage, raw)
  {
    match raw {
      case None => r := usage;
      case Some(report) =>
        var next := MapUsage(report);
        r := Some(MergeUsage(usage, next));
    }
  }

  // ---- The usage at the end ----

  /** The usage reports of a stream, in order. */
  function Reports(events: seq<ServerEvent>): seq<Usage> {
    if events == [] then []
    else
      var event := events[|events| - 1];
      Reports(events[..|events| - 1])
      + if (event.MessageStart? || event.MessageDelta?) && event.usage.Some? then [UsageOf(event.usage.value)] else []
  }

  /** A field's value is the last one defined by any report. */
  ghost predicate LastDefined<T>(reports: seq<Usage>, field: Usage -> Option<T>, value: Option<T>) {
    if value.None? then forall i :: 0 <= i < |reports| ==> field(reports[i]).None?
    else exists i :: LastDefinedAt(reports, field, value, i)
  }

  ghost predicate LastDefinedAt<T>(reports: seq<Usage>, field: Usage -> Option<T>, value: Option<T>, i: int) {
    0 <= i < |reports| && field(reports[i]) == value && forall j :: i < j < |reports| ==> field(reports[j]).None?
  }

  /** The merged usage of a list of reports. */
  ghost predicate Summarizes(usage: Usage, reports: seq<Usage>) {
    && LastDefined(reports, (u: Usage) => u.input, usage.input)
    && LastDefined(reports, (u: Usage) => u.cached, usage.cached)
    && LastDefined(reports, (u: Usage) => u.cacheWrite, usage.cacheWrite)
    && LastDefined(reports, (u: Usage) => u.output, usage.output)
    && LastDefined(reports, (u: Usage) => u.reasoning, usage.reasoning)
    && LastDefined(reports, (u: Usage) => u.speed, usage.speed)
    && (usage.total.None? <==> usage.input.None? && usage.output.None?)
    && (usage.total.Some? ==> usage.total.value == Amount(usage.input) + Amount(usage.output))
  }

  lemma LaterIsLast<T>(reports: seq<Usage>, field: Usage -> Option<T>, value: Option<T>, next: Usage)
    requires LastDefined(reports, field, value)
    ensures LastDefined(reports + [next], field, Later(value, field(next)))
  {
    var more := reports + [next];
    assert forall i :: 0 <= i < |reports| ==> more[i] == reports[i];
    if field(next).Some? {
      assert LastDefinedAt(more, field, field(next), |reports|);
    } else if value.Some? {
      var i :| LastDefinedAt(reports, field, value, i);
      assert LastDefinedAt(more, field, value, i);
    }
  }

  lemma FirstReport<T>(field: Usage -> Option<T>, next: Usage)
    ensures LastDefined([next], field, field(next))
  {
    if field(next).Some? {
      assert LastDefinedAt([next], field, field(next), 0);
    }
  }

  lemma MergeSummarizes(usage: Usage, reports: seq<Usage>, next: Usage)
    requires Summarizes(usage, reports)
    ensures Summarizes(MergeUsage(Some(usage), next), reports + [next])
  {
    hide LastDefined;
    LaterIsLast(reports, (u: Usage) => u.input, usage.input, next);
    LaterIsLast(reports, (u: Usage) => u.cached, usage.cached, next);
    LaterIsLast(reports, (u: Usage) => u.cacheWrite, usage.cacheWrite, next);
    LaterIsLast(reports, (u: Usage) => u.output, usage.output, next);
    LaterIsLast(reports, (u: Usage) => u.reasoning, usage.reasoning, next);
    LaterIsLast(reports, (u: Usage) => u.speed, usage.speed, next);
  }

  lemma FirstSummarizes(next: Usage)
    ensures Summarizes(MergeUsage(None, next), [next])
  {
    hide LastDefined;
    FirstReport((u: Usage) => u.input, next);
    FirstReport((u: Usage) => u.cached, next);
    FirstReport((u: Usage) => u.cacheWrite, next);
    FirstReport((u: Usage) => u.output, next);
    FirstReport((u: Usage) => u.reasoning, next);
    FirstReport((u: Usage) => u.speed, next);
  }

  /**
   * The usage of a stream that has not failed: none when nothing was reported; otherwise each
   * field is the last defined report of it, and the total is input plus output.
   */
  lemma {:induction false} UsageExact(events: seq<ServerEvent>, json: string -> Option<Json>)
    requires !Steps(Start(), events, json).failed
    ensures var usage := Steps(Start(), events, json).usage;
      && (usage.None? <==> Reports(events) == [])
      && (usage.Some? ==> Summarizes(usage.value, Reports(events)))
  {
    if events != [] {
      var init, event := events[..|events| - 1], events[|events| - 1];
      UsageExact(init, json);
      var state := Steps(Start(), init, json);
      StepUsage(state, event, json);
      hide Summarizes, Step;
      if (event.MessageStart? || event.MessageDelta?) && event.usage.Some? {
        var next := UsageOf(event.usage.value);
        if state.usage.Some? {
          MergeSummarizes(state.usage.value, Reports(init), next);
        } else {
          FirstSummarizes(next);
          assert [] + [next] == [next];
        }
      } else {
        assert Reports(init) + [] == Reports(init);
      }
    }
  }

  lemma StepUsage(state: State, event: ServerEvent, json: string -> Option<Json>)
    requires !state.failed
    ensures Step(state, event, json).usage
         == if event.MessageStart? || event.MessageDelta? then TakeUsage(state.usage, event.usage) else state.usage
  {
  }
}
