/** What every Azure OpenAI response stream keeps: the order of its outputs and the effects flag. */
module AzureLaws {
  import opened AzureResponses
  import opened Json
  import opened Wrappers

  // ---- Order of the outputs ----

  /** Events that end the stream. */
  predicate Ends(event: ServerEvent) {
    event.Done? || event.NotJson? || event.Broken? || event.StreamError? || event.Terminal?
  }

  /** How many events come before the one that ends the stream. */
  function Head(events: seq<ServerEvent>): (n: nat)
    ensures n <= |events|
    ensures n < |events| ==> Ends(events[n])
    ensures forall i :: 0 <= i < n ==> !Ends(events[i])
  {
    if events == [] then 0
    else
      var n := Head(events[..|events| - 1]);
      if n == |events| - 1 && !Ends(events[n]) then |events| else n
  }

  /** The text and provider data the events themselves carry. */
  function Yields(events: seq<ServerEvent>): seq<Output> {
    if events == [] then []
    else Yields(events[..|events| - 1]) + Yield(events[|events| - 1])
  }

  function Yield(event: ServerEvent): seq<Output> {
    match event
    case TextDelta(text) => [Text(text)]
    case ItemEvent(done, item, _, _) => if done && item.ProviderItem? then [ProviderData(item.data)] else []
    case _ => []
  }

  ghost predicate HasProviderData(output: seq<Output>) {
    exists i :: 0 <= i < |output| && output[i].ProviderData?
  }

  predicate AllCalls(output: seq<Output>) {
    forall i :: 0 <= i < |output| ==> output[i].ToolCall?
  }

  /** Before the end, exactly the events' own text and provider data went out. */
  lemma {:induction false} OpenOutput(events: seq<ServerEvent>, json: string -> Option<Json>,
      normalize: string -> Option<FinishReason>)
    requires forall i :: 0 <= i < |events| ==> !Ends(events[i])
    ensures var p := After(events, json, normalize);
      && p.Open?
      && p.state.output == Yields(events)
      && (p.state.effects <==> HasProviderData(p.state.output))
  {
    if events != [] {
      var init, event := events[..|events| - 1], events[|events| - 1];
      OpenOutput(init, json, normalize);
      StepOpen(After(init, json, normalize).state, event, json, normalize);
    }
  }

  lemma StepOpen(state: State, event: ServerEvent, json: string -> Option<Json>,
      normalize: string -> Option<FinishReason>)
    requires !Ends(event) && (state.effects <==> HasProviderData(state.output))
    ensures var p := Step(state, event, json, normalize);
      && p.Open?
      && p.state.output == state.output + Yield(event)
      && (p.state.effects <==> HasProviderData(p.state.output))
  {
    ProviderDataAppend(state.output, Yield(event));
    assert HasProviderData(Yield(event)) <==> Yield(event) != [] && Yield(event)[0].ProviderData?;
    assert state.output + [] == state.output;
  }

  lemma ProviderDataAppend(a: seq<Output>, b: seq<Output>)
    ensures HasProviderData(a + b) <==> HasProviderData(a) || HasProviderData(b)
  {
    if HasProviderData(a) {
      var i :| 0 <= i < |a| && a[i].ProviderData?;
      assert (a + b)[i].ProviderData?;
    }
    if HasProviderData(b) {
      var i :| 0 <= i < |b| && b[i].ProviderData?;
      assert (a + b)[|a| + i].ProviderData?;
    }
  }

  lemma {:induction false} ReleasedAreCalls(buffers: seq<Buffer>, effects: bool, json: string -> Option<Json>)
    ensures AllCalls(Release(buffers, effects, json).calls)
    ensures Release(buffers, effects, json).failure.None? ==> |Release(buffers, effects, json).calls| == |buffers|
  {
    if buffers != [] {
      ReleasedAreCalls(buffers[..|buffers| - 1], effects, json);
    }
  }

  /** The outputs that follow the text and provider data. */
  datatype Tail = Tail(calls: seq<Output>, finish: seq<Output>)

  predicate Splits(run: Run, shown: seq<Output>, tail: Tail) {
    && run.output == shown + tail.calls + tail.finish
    && AllCalls(tail.calls)
    && (tail.finish == [] || (|tail.finish| == 1 && tail.finish[0].Finish?))
  }

  /**
   * Every run, whatever the server sends: first the events' own text and provider data, nothing
   * lost; then tool calls, only when the terminal status is "completed"; then at most one finish.
   * Without a terminal event the run ends in an error, and a run without error has its finish.
   */
  lemma OutputOrder(events: seq<ServerEvent>, json: string -> Option<Json>,
      normalize: string -> Option<FinishReason>) returns (tail: Tail)
    ensures var run := RunOf(events, json, normalize);
      var n := Head(events);
      var terminal := n < |events| && events[n].Terminal?;
      && Splits(run, Yields(events[..n]), tail)
      && (tail.calls != [] ==> terminal && StatusOf(events[n]) == "completed")
      && (tail.finish != [] ==> terminal && tail.finish[0].status == StatusOf(events[n]))
      && (run.failure.None? <==> tail.finish != [] && tail.finish[0].status != "failed")
      && (terminal && StatusOf(events[n]) != "completed" ==> tail.finish != [])
      && (run.failure.None? && tail.finish[0].status == "completed" ==>
            (tail.finish[0].reason == Some(ToolCalls) <==> tail.calls != []))
  {
    var n := Head(events);
    OpenOutput(events[..n], json, normalize);
    var state := After(events[..n], json, normalize).state;
    if n == |events| {
      assert events[..n] == events;
      tail := Tail([], []);
      assert state.output + [] + [] == state.output;
    } else {
      RunAtEnd(events, json, normalize);
      tail := EndOrder(state, events[n], json, normalize);
    }
  }

  /** The run is decided at the event that ends the stream. */
  lemma RunAtEnd(events: seq<ServerEvent>, json: string -> Option<Json>, normalize: string -> Option<FinishReason>)
    requires Head(events) < |events|
    ensures var n := Head(events);
      && After(events[..n], json, normalize).Open?
      && Step(After(events[..n], json, normalize).state, events[n], json, normalize)
          == Closed(RunOf(events, json, normalize))
  {
    hide Step, After, Ends, Yields, HasProviderData;
    var n := Head(events);
    OpenOutput(events[..n], json, normalize);
    StepEnds(After(events[..n], json, normalize).state, events[n], json, normalize);
    ClosesAt(events, n, json, normalize);
  }

  lemma ClosesAt(events: seq<ServerEvent>, n: nat, json: string -> Option<Json>,
      normalize: string -> Option<FinishReason>)
    requires n < |events| && After(events[..n], json, normalize).Open?
    requires Step(After(events[..n], json, normalize).state, events[n], json, normalize).Closed?
    ensures After(events, json, normalize)
        == Step(After(events[..n], json, normalize).state, events[n], json, normalize)
  {
    hide Step, After;
    assert events[..n + 1] == events[..n] + [events[n]];
    AfterSnoc(events[..n], events[n], json, normalize);
    ClosedStays(events, n + 1, json, normalize);
  }

  lemma StepEnds(state: State, event: ServerEvent, json: string -> Option<Json>,
      normalize: string -> Option<FinishReason>)
    requires Ends(event)
    ensures Step(state, event, json, normalize).Closed?
  {
  }

  lemma EndOrder(state: State, event: ServerEvent, json: string -> Option<Json>,
      normalize: string -> Option<FinishReason>) returns (tail: Tail)
    requires Ends(event)
    ensures Step(state, event, json, normalize).Closed?
    ensures var run := Step(state, event, json, normalize).run;
      && Splits(run, state.output, tail)
      && (tail.calls != [] ==> event.Terminal? && StatusOf(event) == "completed")
      && (tail.finish != [] ==> event.Terminal? && tail.finish[0].status == StatusOf(event))
      && (run.failure.None? <==> tail.finish != [] && tail.finish[0].status != "failed")
      && (event.Terminal? && StatusOf(event) != "completed" ==> tail.finish != [])
      && (run.failure.None? && tail.finish[0].status == "completed" ==>
            (tail.finish[0].reason == Some(ToolCalls) <==> tail.calls != []))
  {
    if !event.Terminal? {
      tail := Tail([], []);
      assert state.output + [] + [] == state.output;
    } else {
      tail := FinishOrder(state, event, json, normalize);
    }
  }

  lemma FinishOrder(state: State, event: ServerEvent, json: string -> Option<Json>,
      normalize: string -> Option<FinishReason>) returns (tail: Tail)
    requires event.Terminal?
    ensures var run := FinishRun(state, event, json, normalize);
      && Splits(run, state.output, tail)
      && (tail.calls != [] ==> StatusOf(event) == "completed")
      && (tail.finish != [] ==> tail.finish[0].status == StatusOf(event))
      && (run.failure.None? <==> tail.finish != [] && tail.finish[0].status != "failed")
      && (StatusOf(event) != "completed" ==> tail.finish != [])
      && (run.failure.None? && tail.finish[0].status == "completed" ==>
            (tail.finish[0].reason == Some(ToolCalls) <==> tail.calls != []))
  {
    hide Release;
    ReleasedAreCalls(state.buffers, state.effects, json);
    var run := FinishRun(state, event, json, normalize);
    var status := StatusOf(event);
    if status == "completed" {
      var released := Release(state.buffers, state.effects, json);
      if released.failure.Some? {
        tail := Tail(released.calls, []);
        assert run.output + [] == run.output;
      } else {
        var calls, finish := released.calls + CallOutputs(state.hosted), run.output[|run.output| - 1..];
        assert run.output == state.output + calls + finish;
        tail := Tail(calls, finish);
      }
    } else {
      tail := Tail([], run.output[|run.output| - 1..]);
      assert run.output == state.output + [] + tail.finish;
    }
  }

  // ---- Whether effects are possible ----

  predicate SaysEffectsPossible(failure: Failure) {
    failure.ToolCallError? && failure.effectsPossible
  }

  predicate IsMalformed(failure: Failure) {
    failure.ToolCallError? && failure.code == MALFORMED
  }

  /**
   * An error says that effects are possible exactly when provider data went out before it, except
   * that malformed arguments never say so.
   */
  lemma EffectsExact(events: seq<ServerEvent>, json: string -> Option<Json>, normalize: string -> Option<FinishReason>)
    ensures var run := RunOf(events, json, normalize);
      run.failure.Some? ==>
        (SaysEffectsPossible(run.failure.value) <==> HasProviderData(run.output) && !IsMalformed(run.failure.value))
  {
    var n := Head(events);
    OpenOutput(events[..n], json, normalize);
    var state := After(events[..n], json, normalize).state;
    if n == |events| {
      assert events[..n] == events;
    } else {
      RunAtEnd(events, json, normalize);
      if events[n].Terminal? {
        FinishEffects(state, events[n], json, normalize);
      }
    }
  }

  lemma FinishEffects(state: State, event: ServerEvent, json: string -> Option<Json>,
      normalize: string -> Option<FinishReason>)
    requires event.Terminal? && (state.effects <==> HasProviderData(state.output))
    ensures var run := FinishRun(state, event, json, normalize);
      run.failure.Some? ==>
        (SaysEffectsPossible(run.failure.value) <==> HasProviderData(run.output) && !IsMalformed(run.failure.value))
  {
    var tail := FinishOrder(state, event, json, normalize);
    ReleaseFailure(state.buffers, state.effects, json);
    ProviderDataAppend(state.output, tail.calls);
    ProviderDataAppend(state.output + tail.calls, tail.finish);
  }

  lemma {:induction false} ReleaseFailure(buffers: seq<Buffer>, effects: bool, json: string -> Option<Json>)
    ensures var f := Release(buffers, effects, json).failure;
      f.Some? ==> (SaysEffectsPossible(f.value) <==> effects && !IsMalformed(f.value))
  {
    if buffers != [] {
      ReleaseFailure(buffers[..|buffers| - 1], effects, json);
    }
  }
}
