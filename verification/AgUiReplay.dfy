/** A client that replays the state events holds the server's public state. */
module AgUiReplay {
  import opened Wrappers
  import opened Json
  import opened JsonPatch
  import opened PatchLaws
  import opened AgUiEvents

  type Emitted = AgUiEvent<seq<Op>>

  // ---- The emitted events ----

  /** An emitted event is the event of the mapper, with a diff of the two states in a delta. */
  ghost predicate Realizes(emitted: Emitted, event: Event) {
    match event
    case StateDelta(change) => emitted.StateDelta? && IsPatch(change.before, change.after, emitted.change)
    case _ => !emitted.StateDelta? && emitted == Retype(event)
  }

  /** The same event at the other delta type. */
  function Retype(event: Event): Emitted {
    match event
    case RunStarted(threadId, runId) => RunStarted(threadId, runId)
    case TextMessageStart(id) => TextMessageStart(id)
    case TextMessageContent(id, delta) => TextMessageContent(id, delta)
    case TextMessageEnd(id) => TextMessageEnd(id)
    case ToolCallStart(id, name, parent) => ToolCallStart(id, name, parent)
    case ToolCallArgs(id, delta) => ToolCallArgs(id, delta)
    case ToolCallEnd(id) => ToolCallEnd(id)
    case ToolCallResult(id, call, content) => ToolCallResult(id, call, content)
    case StateSnapshot(snapshot) => StateSnapshot(snapshot)
    case StateDelta(_) => StateDelta([])
    case StepStarted(name) => StepStarted(name)
    case StepFinished(name) => StepFinished(name)
    case ActivitySnapshot(id, compaction) => ActivitySnapshot(id, compaction)
    case Custom(name, value) => Custom(name, value)
    case RunFinished(threadId, runId, outcome) => RunFinished(threadId, runId, outcome)
    case RunError(message, code) => RunError(message, code)
  }

  ghost predicate RealizesAll(emitted: seq<Emitted>, events: seq<Event>) {
    |emitted| == |events| && forall i :: 0 <= i < |events| ==> Realizes(emitted[i], events[i])
  }

  // ---- The two views of the state ----

  /** What a client holds: nothing yet, a document, or a patch it could not apply. */
  datatype Client = Waiting | Holding(document: Json) | Broken

  function Receive(client: Client, e: Emitted): Client {
    match e
    case StateSnapshot(snapshot) => Holding(snapshot)
    case StateDelta(ops) =>
      if client.Holding? then
        var patched := ApplyAll(client.document, ops);
        if patched.Success? then Holding(patched.value) else Broken
      else Broken
    case _ => client
  }

  function Replay(emitted: seq<Emitted>): Client {
    if emitted == [] then Waiting else Receive(Replay(emitted[..|emitted| - 1]), emitted[|emitted| - 1])
  }

  /** The public state the server last showed. */
  function Shown(events: seq<Event>): Client {
    if events == [] then Waiting
    else match events[|events| - 1]
      case StateSnapshot(snapshot) => Holding(snapshot)
      case StateDelta(change) => Holding(change.after)
      case _ => Shown(events[..|events| - 1])
  }

  /** Every delta starts from the state shown before it. */
  ghost predicate Chained(events: seq<Event>) {
    forall i :: 0 <= i < |events| && events[i].StateDelta? ==> Shown(events[..i]) == Holding(events[i].change.before)
  }

  ghost predicate ChangesSafe(events: seq<Event>, n: nat) {
    forall i :: 0 <= i < n && i < |events| && events[i].StateDelta? ==>
        Safe(events[i].change.before, events[i].change.after)
  }

  ghost predicate InStep(emitted: seq<Emitted>, events: seq<Event>, n: nat)
    requires |emitted| == |events|
  {
    forall k :: 0 <= k <= n && k <= |events| ==> Replay(emitted[..k]) == Shown(events[..k])
  }

  lemma ReplayTurn(emitted: seq<Emitted>, events: seq<Event>, n: nat)
    requires RealizesAll(emitted, events) && Chained(events) && n < |events|
    requires Replay(emitted[..n]) == Shown(events[..n])
    ensures Replay(emitted[..n + 1]) == Shown(events[..n + 1])
      <==> (events[n].StateDelta? ==> Safe(events[n].change.before, events[n].change.after))
  {
    hide Safe, ApplyAll, IsPatch;
    assert emitted[..n + 1][..n] == emitted[..n] && events[..n + 1][..n] == events[..n];
    assert Realizes(emitted[n], events[n]);
    if events[n].StateDelta? {
      RoundTripExact(events[n].change.before, events[n].change.after, emitted[n].change);
    }
  }

  /** The client is in step at every point up to `n` exactly when every change so far was safe. */
  lemma {:induction false} InStepExact(emitted: seq<Emitted>, events: seq<Event>, n: nat)
    requires RealizesAll(emitted, events) && Chained(events) && n <= |events|
    ensures InStep(emitted, events, n) <==> ChangesSafe(events, n)
  {
    hide Safe, Realizes, Chained;
    if n == 0 {
      assert emitted[..0] == [] && events[..0] == [];
    } else {
      InStepExact(emitted, events, n - 1);
      if InStep(emitted, events, n - 1) {
        ReplayTurn(emitted, events, n - 1);
      }
      assert InStep(emitted, events, n)
          <==> InStep(emitted, events, n - 1) && Replay(emitted[..n]) == Shown(events[..n]);
      assert ChangesSafe(events, n) == (ChangesSafe(events, n - 1)
        && (events[n - 1].StateDelta? ==> Safe(events[n - 1].change.before, events[n - 1].change.after)));
    }
  }

  // ---- The mapper's deltas are chained ----

  lemma {:induction false} ShownConcat(a: seq<Event>, b: seq<Event>)
    ensures Shown(a + b) == if Shown(b).Waiting? then Shown(a) else Shown(b)
    decreases |b|
  {
    if b == [] {
      assert a + b == a;
    } else {
      assert (a + b)[..|a + b| - 1] == a + b[..|b| - 1];
      ShownConcat(a, b[..|b| - 1]);
    }
  }

  predicate Stateless(e: Event) {
    !e.StateSnapshot? && !e.StateDelta?
  }

  lemma {:induction false} StatelessShown(events: seq<Event>)
    requires forall i :: 0 <= i < |events| ==> Stateless(events[i])
    ensures Shown(events) == Waiting
  {
    if events != [] {
      StatelessShown(events[..|events| - 1]);
    }
  }

  ghost function ShownState(m: Mapper): Client {
    if m.previousState.Some? then Holding(StateJson(m.previousState.value)) else Waiting
  }

  /** Whether an event publishes a run, and which one. */
  function Published(event: AgentEvent): Option<(string, Json)> {
    match event
    case AgentRunUpdate(run) => Some((run.runId, PublicRunFromView(run)))
    case AgentRunFinish(_, state) => Some((state.view.runId, PublicRunFromState(state)))
    case _ => None
  }

  /** Events that publish no run emit no state event. */
  lemma StatelessTurn(options: Options, m: Mapper, event: AgentEvent)
    requires Published(event).None?
    ensures var (next, events) := Next(options, m, event);
      && next.previousState == m.previousState
      && forall i :: 0 <= i < |events| ==> Stateless(events[i])
  {
    hide MessageId, StepName;
  }

  /** The run's end: the state event, if any, then events without state. */
  lemma FinishTurn(options: Options, m: Mapper, status: AgentStatus, state: RunState) returns (rest: seq<Event>)
    ensures var (next, events) := OnRunFinish(options, m, status, state);
      var (shown, states) := EmitState(m, WithRun(m.state, options.runId, state.view.runId, PublicRunFromState(state)));
      && next.previousState == shown.previousState
      && events == states + rest
    ensures forall i :: 0 <= i < |rest| ==> Stateless(rest[i])
  {
    hide CloseSteps, EmitState, WithRun, PublicRunFromState, TerminalPayload, RememberAll;
    var (shown, states) := EmitState(m, WithRun(m.state, options.runId, state.view.runId, PublicRunFromState(state)));
    var interrupts := RememberAll(shown.interrupts, state.pendingApprovals);
    var ready := shown.(interrupts := interrupts,
                        terminal := Some(TerminalPayload(status, options, interrupts, shown.errorMessage)));
    rest := FinishRun(options, ready).1;
    CloseStepsStateless(ready.openSteps);
  }

  lemma {:induction false} CloseStepsStateless(steps: seq<string>)
    ensures forall i :: 0 <= i < |CloseSteps(steps)| ==> Stateless(CloseSteps(steps)[i])
  {
    if steps != [] {
      CloseStepsStateless(steps[..|steps| - 1]);
    }
  }

  /** Appending to a chained trace one state event that starts from what was shown. */
  lemma ChainedAppend(events: seq<Event>, states: seq<Event>, rest: seq<Event>)
    requires Chained(events) && |states| <= 1
    requires states != [] && states[0].StateDelta? ==> Shown(events) == Holding(states[0].change.before)
    requires forall i :: 0 <= i < |rest| ==> Stateless(rest[i])
    ensures Chained(events + states + rest)
  {
    var all := events + states + rest;
    forall i | 0 <= i < |all| && all[i].StateDelta? ensures Shown(all[..i]) == Holding(all[i].change.before) {
      if i < |events| {
        assert all[..i] == events[..i];
      } else {
        assert i == |events| && all[..i] == events;
      }
    }
  }

  lemma EmittedShown(m: Mapper, next: PublicState)
    ensures var (shown, states) := EmitState(m, next);
      && |states| <= 1
      && (states == [] ==> ShownState(shown) == ShownState(m))
      && (states != [] ==> Shown(states) == ShownState(shown))
      && Shown([]) == Waiting
  {
    hide StateJson;
  }

  /** Showing a new state after the one the mapper remembers. */
  lemma EmitChained(m: Mapper, next: PublicState, trace: seq<Event>, rest: seq<Event>)
    requires Chained(trace) && Shown(trace) == ShownState(m)
    requires forall i :: 0 <= i < |rest| ==> Stateless(rest[i])
    ensures var (shown, states) := EmitState(m, next);
      Chained(trace + (states + rest)) && Shown(trace + (states + rest)) == ShownState(shown)
  {
    hide StateJson, Chained, Shown, Stateless;
    var (shown, states) := EmitState(m, next);
    ShownConcat(trace, states + rest);
    ShownConcat(states, rest);
    StatelessShown(rest);
    EmittedShown(m, next);
    ChainedAppend(trace, states, rest);
    assert trace + states + rest == trace + (states + rest);
  }

  lemma RestChained(m: Mapper, trace: seq<Event>, rest: seq<Event>)
    requires Chained(trace) && Shown(trace) == ShownState(m)
    requires forall i :: 0 <= i < |rest| ==> Stateless(rest[i])
    ensures Chained(trace + rest) && Shown(trace + rest) == ShownState(m)
  {
    hide ShownState;
    ShownConcat(trace, rest);
    StatelessShown(rest);
    ChainedAppend(trace, [], rest);
    assert trace + [] + rest == trace + rest;
  }

  lemma TurnChained(options: Options, m: Mapper, event: AgentEvent, trace: seq<Event>)
    requires Chained(trace) && Shown(trace) == ShownState(m)
    ensures var (next, events) := Next(options, m, event);
      Chained(trace + events) && Shown(trace + events) == ShownState(next)
  {
    hide StateJson, EmitState, WithRun, PublicRunFromView, PublicRunFromState, Chained, Shown, OnRunFinish, OnText,
        OnToolCall, CloseMessage;
    match event
    case AgentRunFinish(status, state) =>
      var rest := FinishTurn(options, m, status, state);
      EmitChained(m, WithRun(m.state, options.runId, state.view.runId, PublicRunFromState(state)), trace, rest);
    case AgentRunUpdate(run) =>
      var next := WithRun(m.state, options.runId, run.runId, PublicRunFromView(run));
      EmitChained(m, next, trace, []);
      assert EmitState(m, next).1 + [] == EmitState(m, next).1;
    case _ =>
      StatelessTurn(options, m, event);
      RestChained(m, trace, Next(options, m, event).1);
  }

  lemma {:induction false} TraceChained(options: Options, source: seq<AgentEvent>)
    ensures Chained(Trace(options, source))
    ensures Shown(Trace(options, source)) == ShownState(After(options, source))
  {
    if source == [] {
      assert Trace(options, source)[..0] == [];
    } else {
      var init, last := source[..|source| - 1], source[|source| - 1];
      TraceChained(options, init);
      TurnChained(options, After(options, init), last, Trace(options, init));
    }
  }

  lemma OutputChained(options: Options, source: seq<AgentEvent>)
    ensures Chained(Output(options, source))
    ensures Shown(Output(options, source)) == ShownState(After(options, source))
  {
    hide Chained, Shown, CloseSteps, Trace, Stateless;
    var m := After(options, source);
    TraceChained(options, source);
    EndsStateless(options, m);
    RestChained(m, Trace(options, source), FinishRun(options, m).1);
  }

  lemma EndsStateless(options: Options, m: Mapper)
    ensures forall i :: 0 <= i < |FinishRun(options, m).1| ==> Stateless(FinishRun(options, m).1[i])
  {
    hide CloseSteps;
    CloseStepsStateless(m.openSteps);
  }
}
