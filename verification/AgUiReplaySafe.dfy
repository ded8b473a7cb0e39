/** When the replayed deltas are right, in terms of the run ids a source publishes. */
module AgUiReplaySafe {
  import opened Wrappers
  import opened Json
  import opened PatchLaws
  import opened AgUiEvents
  import opened AgUiRuns
  import opened AgUiReplay

  // ---- Public runs are plain objects ----

  ghost predicate Plain(doc: Json) {
    ArrayFree(doc) && NoReservedKeys(doc)
  }

  ghost predicate PlainFields(fields: map<string, Json>) {
    forall k :: k in fields ==> !Reserved(k) && Plain(fields[k])
  }

  lemma PlainObject(fields: map<string, Json>)
    requires PlainFields(fields)
    ensures Plain(Obj(fields))
  {
  }

  lemma PlainUnion(a: map<string, Json>, b: map<string, Json>)
    requires PlainFields(a) && PlainFields(b)
    ensures PlainFields(a + b)
  {
  }

  lemma PlainField(name: string, value: Option<Json>)
    requires !Reserved(name) && (value.Some? ==> Plain(value.value))
    ensures PlainFields(Field(name, value))
  {
  }

  lemma DetailsPlain(details: CacheWriteDetails)
    ensures Plain(DetailsJson(details))
  {
    var a, b := Field("ttl30mTokens", Count(details.ttl30mTokens)), Field("ttl12hTokens", Count(details.ttl12hTokens));
    PlainField("ttl30mTokens", Count(details.ttl30mTokens));
    PlainField("ttl12hTokens", Count(details.ttl12hTokens));
    PlainUnion(a, b);
    PlainObject(a + b);
  }

  /** One more optional field keeps an object literal plain. */
  lemma PlainMore(fields: map<string, Json>, name: string, value: Option<Json>)
    requires PlainFields(fields) && !Reserved(name) && (value.Some? ==> Plain(value.value))
    ensures PlainFields(fields + Field(name, value))
  {
    PlainField(name, value);
    PlainUnion(fields, Field(name, value));
  }

  lemma UsagePlain(usage: TokenUsage)
    ensures Plain(UsageJson(usage))
  {
    hide Field, PlainFields;
    var details := if usage.cacheWriteTokensDetails.Some? then Some(DetailsJson(usage.cacheWriteTokensDetails.value))
        else None;
    if usage.cacheWriteTokensDetails.Some? {
      DetailsPlain(usage.cacheWriteTokensDetails.value);
    }
    var speed := if usage.speed.Some? then Some(Str(usage.speed.value)) else None;
    PlainField("inputTokens", Count(usage.inputTokens));
    var f1 := Field("inputTokens", Count(usage.inputTokens));
    PlainMore(f1, "cachedInputTokens", Count(usage.cachedInputTokens));
    var f2 := f1 + Field("cachedInputTokens", Count(usage.cachedInputTokens));
    PlainMore(f2, "cacheWriteTokens", Count(usage.cacheWriteTokens));
    var f3 := f2 + Field("cacheWriteTokens", Count(usage.cacheWriteTokens));
    PlainMore(f3, "cacheWriteTokensDetails", details);
    var f4 := f3 + Field("cacheWriteTokensDetails", details);
    PlainMore(f4, "outputTokens", Count(usage.outputTokens));
    var f5 := f4 + Field("outputTokens", Count(usage.outputTokens));
    PlainMore(f5, "reasoningTokens", Count(usage.reasoningTokens));
    var f6 := f5 + Field("reasoningTokens", Count(usage.reasoningTokens));
    PlainMore(f6, "totalTokens", Count(usage.totalTokens));
    var f7 := f6 + Field("totalTokens", Count(usage.totalTokens));
    PlainMore(f7, "speed", speed);
    PlainObject(f7 + Field("speed", speed));
  }

  lemma ViewPlain(run: RunView)
    ensures PublicRunFromView(run).Obj? && PlainFields(PublicRunFromView(run).fields)
  {
    hide Field, PlainFields, UsageJson;
    var usage := if run.usage.Some? then Some(UsageJson(run.usage.value)) else None;
    if run.usage.Some? {
      UsagePlain(run.usage.value);
    }
    var f0 := map["runId" := Str(run.runId), "status" := Str(run.status)];
    var steps := map["currentStep" := Number(run.currentStep), "maxSteps" := StepsJson(run.maxSteps)];
    TwoPlain("runId", Str(run.runId), "status", Str(run.status));
    TwoPlain("currentStep", Number(run.currentStep), "maxSteps", StepsJson(run.maxSteps));
    PlainMore(f0, "agentId", Text(run.agentId));
    var f1 := f0 + Field("agentId", Text(run.agentId));
    PlainMore(f1, "parentRunId", Text(run.parentRunId));
    var f2 := f1 + Field("parentRunId", Text(run.parentRunId));
    PlainMore(f2, "provider", Text(run.provider));
    var f3 := f2 + Field("provider", Text(run.provider));
    PlainMore(f3, "modelId", Text(run.modelId));
    var f4 := f3 + Field("modelId", Text(run.modelId));
    PlainUnion(f4, steps);
    PlainMore(f4 + steps, "usage", usage);
  }

  lemma TwoPlain(j: string, x: Json, k: string, y: Json)
    requires !Reserved(j) && !Reserved(k) && Plain(x) && Plain(y)
    ensures PlainFields(map[j := x, k := y])
  {
  }

  lemma RunPlain(state: RunState)
    ensures Plain(PublicRunFromState(state)) && PublicRunFromState(state).Obj?
  {
    hide Field, PlainFields, PublicRunFromView;
    var run := state.view;
    var provider := if run.provider.Some? then Some(Str(run.provider.value)) else None;
    var model := if run.modelId.Some? then Some(Str(run.modelId.value)) else None;
    ViewPlain(run);
    var f0 := PublicRunFromView(run).fields;
    PlainMore(f0, "provider", provider);
    var f1 := f0 + Field("provider", provider);
    PlainMore(f1, "modelId", model);
    var f2 := f1 + Field("modelId", model);
    TwoPlain("outputText", Str(state.outputText), "pendingApprovals", Number(|state.pendingApprovals| as real));
    var pending := Number(|state.pendingApprovals| as real);
    var more := map["outputText" := Str(state.outputText), "pendingApprovals" := pending];
    PlainUnion(f2, more);
    PlainObject(f2 + more);
  }

  lemma PublishedPlain(event: AgentEvent)
    requires Published(event).Some?
    ensures Plain(Published(event).value.1)
  {
    match event
    case AgentRunUpdate(run) =>
      ViewPlain(run);
      PlainObject(PublicRunFromView(run).fields);
    case AgentRunFinish(_, state) => RunPlain(state);
  }

  ghost predicate PlainState(state: PublicState) {
    && (state.run.Some? ==> Plain(state.run.value))
    && (forall id :: id in state.runs ==> Plain(state.runs[id]))
  }

  lemma {:induction false} StatePlain(options: Options, source: seq<AgentEvent>)
    ensures PlainState(After(options, source).state)
    ensures forall id :: id in After(options, source).state.runs ==> PublishedId(source, id)
  {
    if source != [] {
      var init, last := source[..|source| - 1], source[|source| - 1];
      StatePlain(options, init);
      StateTurn(options, After(options, init), last);
      if Published(last).Some? {
        PublishedPlain(last);
      }
      forall id | id in After(options, source).state.runs ensures PublishedId(source, id) {
        if id in After(options, init).state.runs {
          var i :| 0 <= i < |init| && Published(init[i]).Some? && Published(init[i]).value.0 == id;
          assert Published(source[i]).Some?;
        } else {
          assert Published(source[|source| - 1]).Some?;
        }
      }
    }
  }

  /** Some event of the source publishes the run `id`. */
  ghost predicate PublishedId(source: seq<AgentEvent>, id: string) {
    exists i :: 0 <= i < |source| && Published(source[i]).Some? && Published(source[i]).value.0 == id
  }

  lemma StateTurn(options: Options, m: Mapper, event: AgentEvent)
    ensures Next(options, m, event).0.state ==
      match Published(event) case None => m.state case Some((id, run)) => WithRun(m.state, options.runId, id, run)
  {
    hide MessageId, StepName, WithRun, PublicRunFromView, PublicRunFromState, StateJson, CloseSteps;
  }

  // ---- Safe updates ----

  /** The run is already shown as it is, or its id is not reserved while no run is called "__proto__". */
  ghost predicate Replayable(state: PublicState, id: string, run: Json) {
    (id in state.runs && state.runs[id] == run) || (!Reserved(id) && PROTO !in state.runs)
  }

  lemma PlainSafe(before: Json, after: Json)
    requires Plain(before) && Plain(after)
    ensures Safe(before, after)
  {
    NoReservedKeysSafe(before, after);
  }

  lemma RunsSafe(runs: map<string, Json>, id: string, run: Json)
    requires (forall k :: k in runs ==> Plain(runs[k])) && Plain(run)
    ensures Safe(Obj(runs), Obj(runs[id := run]))
        <==> (id in runs && runs[id] == run) || (!Reserved(id) && PROTO !in runs)
  {
    var next := runs[id := run];
    forall k | k in runs && k in next ensures Safe(runs[k], next[k]) {
      PlainSafe(runs[k], next[k]);
    }
    forall k | k in runs ensures ArrayFree(runs[k]) {
      assert Plain(runs[k]);
    }
    if id in runs && runs[id] == run {
      assert next == runs;
      assert ArrayFree(Obj(runs));
    } else {
      assert Obj(runs) != Obj(next) by {
        assert id in next && next[id] == run;
      }
    }
  }

  lemma UpdateSafe(state: PublicState, runId: string, id: string, run: Json)
    requires PlainState(state) && Plain(run)
    ensures Safe(StateJson(state), StateJson(WithRun(state, runId, id, run))) <==> Replayable(state, id, run)
  {
    var next := WithRun(state, runId, id, run);
    var before, after := StateJson(state).fields, StateJson(next).fields;
    RunsSafe(state.runs, id, run);
    PlainSafe(before["run"], after["run"]);
    assert before.Keys == {"run", "runs"} == after.Keys;
    hide Replayable, PlainState, Plain;
    SafeTwo(before, after);
  }

  lemma SafeTwo(before: map<string, Json>, after: map<string, Json>)
    requires before.Keys == {"run", "runs"} == after.Keys
    ensures Safe(Obj(before), Obj(after)) <==> Safe(before["run"], after["run"]) && Safe(before["runs"], after["runs"])
  {
  }

  /** An update that changes nothing is replayable. */
  lemma RepeatReplayable(state: PublicState, runId: string, id: string, run: Json)
    requires StateJson(state) == StateJson(WithRun(state, runId, id, run))
    ensures Replayable(state, id, run)
  {
    var next := WithRun(state, runId, id, run);
    assert StateJson(state).fields["runs"] == StateJson(next).fields["runs"];
    assert next.runs[id] == run;
  }

  // ---- The whole stream ----

  ghost predicate SafeEvents(events: seq<Event>) {
    forall i :: 0 <= i < |events| && events[i].StateDelta? ==> Safe(events[i].change.before, events[i].change.after)
  }

  /** Every published run can be replayed on what was shown before it. */
  ghost predicate ReplayableSource(options: Options, source: seq<AgentEvent>) {
    forall i :: 0 <= i < |source| && Published(source[i]).Some? && After(options, source[..i]).previousState.Some? ==>
      Replayable(After(options, source[..i]).state, Published(source[i]).value.0, Published(source[i]).value.1)
  }

  lemma SafeEventsConcat(a: seq<Event>, b: seq<Event>)
    ensures SafeEvents(a + b) <==> SafeEvents(a) && SafeEvents(b)
  {
    hide Safe;
    forall i | 0 <= i < |b| ensures (a + b)[|a| + i] == b[i] {
    }
    forall i | 0 <= i < |a| ensures (a + b)[i] == a[i] {
    }
  }

  lemma EmitSafe(m: Mapper, runId: string, id: string, run: Json)
    requires PlainState(m.state) && Plain(run)
    requires m.previousState.Some? ==> m.previousState == Some(m.state)
    ensures SafeEvents(EmitState(m, WithRun(m.state, runId, id, run)).1)
      <==> (m.previousState.Some? ==> Replayable(m.state, id, run))
  {
    hide Safe, StateJson, WithRun, Replayable, PlainState;
    UpdateSafe(m.state, runId, id, run);
    if StateJson(m.state) == StateJson(WithRun(m.state, runId, id, run)) {
      RepeatReplayable(m.state, runId, id, run);
    }
    var events := EmitState(m, WithRun(m.state, runId, id, run)).1;
    if m.previousState.Some? && events != [] {
      assert SafeEvents(events) <==> Safe(events[0].change.before, events[0].change.after);
    }
  }

  lemma TurnSafe(options: Options, m: Mapper, event: AgentEvent)
    requires PlainState(m.state)
    requires m.previousState.Some? ==> m.previousState == Some(m.state)
    ensures SafeEvents(Next(options, m, event).1)
      <==> (Published(event).Some? && m.previousState.Some? ==>
              Replayable(m.state, Published(event).value.0, Published(event).value.1))
  {
    hide Safe, StateJson, WithRun, Replayable, PlainState, PublicRunFromView, PublicRunFromState, EmitState,
         OnRunFinish, OnText, OnToolCall, CloseMessage, MessageId, StepName;
    match event
    case AgentRunFinish(status, state) =>
      PublishedPlain(event);
      var rest := FinishTurn(options, m, status, state);
      EmitSafe(m, options.runId, state.view.runId, PublicRunFromState(state));
      SafeEventsConcat(EmitState(m, WithRun(m.state, options.runId, state.view.runId, PublicRunFromState(state))).1,
          rest);
      assert SafeEvents(rest);
    case AgentRunUpdate(run) =>
      PublishedPlain(event);
      EmitSafe(m, options.runId, run.runId, PublicRunFromView(run));
    case _ => StatelessTurn(options, m, event);
  }

  lemma ReplayableSnoc(options: Options, source: seq<AgentEvent>)
    requires source != []
    ensures var init, last := source[..|source| - 1], source[|source| - 1];
      var m := After(options, init);
      ReplayableSource(options, source) <==>
        && ReplayableSource(options, init)
        && (Published(last).Some? && m.previousState.Some? ==>
              Replayable(m.state, Published(last).value.0, Published(last).value.1))
  {
    hide Replayable, After;
    var init := source[..|source| - 1];
    assert forall i :: 0 <= i < |init| ==> init[..i] == source[..i] && init[i] == source[i];
  }

  lemma {:induction false} TraceSafeExact(options: Options, source: seq<AgentEvent>)
    ensures SafeEvents(Trace(options, source)) <==> ReplayableSource(options, source)
  {
    hide Safe, Replayable, PlainState, PublishedId;
    if source != [] {
      var init, last := source[..|source| - 1], source[|source| - 1];
      TraceSafeExact(options, init);
      StatePlain(options, init);
      SawFinish(options, init);
      TurnSafe(options, After(options, init), last);
      SafeEventsConcat(Trace(options, init), Next(options, After(options, init), last).1);
      ReplayableSnoc(options, source);
    }
  }

  /**
   * For every source and every output of the mapper for it: a client that applies the deltas to the one
   * snapshot holds the mapper's public state at every point of the stream exactly when each published run
   * either repeats what is shown or has an id that is not reserved, with no run called "__proto__".
   */
  lemma ReplayExact(options: Options, source: seq<AgentEvent>, emitted: seq<Emitted>)
    requires RealizesAll(emitted, Output(options, source))
    ensures InStep(emitted, Output(options, source), |emitted|) <==> ReplayableSource(options, source)
  {
    hide Safe, Realizes, Chained, ReplayableSource, Trace;
    var out, ends := Output(options, source), FinishRun(options, After(options, source)).1;
    OutputChained(options, source);
    InStepExact(emitted, out, |out|);
    EndsStateless(options, After(options, source));
    SafeEventsConcat(Trace(options, source), ends);
    TraceSafeExact(options, source);
    assert ChangesSafe(out, |out|) <==> SafeEvents(out);
  }

  /** A source that publishes under no reserved id can be replayed. */
  lemma UnreservedReplayable(options: Options, source: seq<AgentEvent>)
    requires forall i :: 0 <= i < |source| && Published(source[i]).Some? ==> !Reserved(Published(source[i]).value.0)
    ensures ReplayableSource(options, source)
  {
    forall i | 0 <= i < |source| && Published(source[i]).Some? && After(options, source[..i]).previousState.Some?
      ensures Replayable(After(options, source[..i]).state, Published(source[i]).value.0, Published(source[i]).value.1)
    {
      UnreservedAt(options, source, i);
    }
    hide After, Replayable, Published;
  }

  lemma UnreservedAt(options: Options, source: seq<AgentEvent>, i: nat)
    requires forall i :: 0 <= i < |source| && Published(source[i]).Some? ==> !Reserved(Published(source[i]).value.0)
    requires i < |source| && Published(source[i]).Some?
    ensures Replayable(After(options, source[..i]).state, Published(source[i]).value.0, Published(source[i]).value.1)
  {
    hide After, Published;
    StatePlain(options, source[..i]);
    assert forall k :: 0 <= k < i ==> source[..i][k] == source[k];
    assert !PublishedId(source[..i], PROTO);
  }

  /** When no run id is reserved, the replayed state is the mapper's public state, to the end. */
  lemma ReplayHoldsState(options: Options, source: seq<AgentEvent>, emitted: seq<Emitted>)
    requires RealizesAll(emitted, Output(options, source))
    requires forall i :: 0 <= i < |source| && Published(source[i]).Some? ==> !Reserved(Published(source[i]).value.0)
    ensures InStep(emitted, Output(options, source), |emitted|)
    ensures Replay(emitted) == ShownState(After(options, source))
  {
    UnreservedReplayable(options, source);
    ReplayExact(options, source, emitted);
    OutputChained(options, source);
    hide ReplayableSource, Realizes, Chained, Trace, FinishRun;
    var out := Output(options, source);
    assert emitted[..|emitted|] == emitted && out[..|out|] == out;
  }
}
