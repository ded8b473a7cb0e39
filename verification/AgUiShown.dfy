/** The public state that the AG-UI output shows: which runs, which fields of them, and nothing else. */
module AgUiShown {
  import opened Wrappers
  import opened Json
  import opened AgUiEvents
  import opened AgUiContent
  import opened AgUiReplay
  import opened AgUiReplaySafe

  // ---- Which runs are shown ----

  /** What the source published last about the run. */
  function LastRun(source: seq<AgentEvent>, id: string): Option<Json> {
    if source == [] then None
    else match Published(source[|source| - 1])
      case Some((published, run)) => if published == id then Some(run) else LastRun(source[..|source| - 1], id)
      case None => LastRun(source[..|source| - 1], id)
  }

  /** The first run the source published. */
  function FirstRun(source: seq<AgentEvent>): Option<Json> {
    if source == [] then None
    else if FirstRun(source[..|source| - 1]).Some? then FirstRun(source[..|source| - 1])
    else match Published(source[|source| - 1])
      case Some((_, run)) => Some(run)
      case None => None
  }

  /** The stream's own run as it was published last; before it is, the run that was published first. */
  function ActiveRun(options: Options, source: seq<AgentEvent>): Option<Json> {
    if LastRun(source, options.runId).Some? then LastRun(source, options.runId) else FirstRun(source)
  }

  /** The document shows the active run and every run by its id. */
  ghost predicate ShowsRuns(doc: Json, options: Options, source: seq<AgentEvent>) {
    && OnlyKeys(doc, {"run", "runs"})
    && At(doc, "run") == ActiveRun(options, source)
    && At(doc, "runs").Some? && At(doc, "runs").value.Obj?
    && forall id :: At(At(doc, "runs").value, id) == LastRun(source, id)
  }

  lemma {:induction false} LastIsFirst(source: seq<AgentEvent>, id: string)
    ensures LastRun(source, id).Some? ==> FirstRun(source).Some?
  {
    hide Published;
    if source != [] {
      LastIsFirst(source[..|source| - 1], id);
    }
  }

  lemma {:induction false} StateExact(options: Options, source: seq<AgentEvent>)
    ensures var state := After(options, source).state;
      && state.run == ActiveRun(options, source)
      && forall id :: LastRun(source, id) == if id in state.runs then Some(state.runs[id]) else None
  {
    if source != [] {
      var init, last := source[..|source| - 1], source[|source| - 1];
      StateExact(options, init);
      StateTurn(options, After(options, init), last);
      LastIsFirst(init, options.runId);
      hide Next, Published;
    }
  }

  lemma {:induction false} PublishedExact(options: Options, source: seq<AgentEvent>)
    ensures After(options, source).previousState
         == if FirstRun(source).Some? then Some(After(options, source).state) else None
  {
    if source != [] {
      var init, last := source[..|source| - 1], source[|source| - 1];
      PublishedExact(options, init);
      TurnPublishes(options, After(options, init), last);
      hide Next, Published;
    }
  }

  lemma TurnPublishes(options: Options, m: Mapper, event: AgentEvent)
    ensures var next := Next(options, m, event).0;
      && next.previousState == (if Published(event).Some? then Some(next.state) else m.previousState)
      && (Published(event).None? ==> next.state == m.state)
  {
    hide MessageId, StepName, WithRun, PublicRunFromView, PublicRunFromState, StateJson, CloseSteps, TerminalPayload,
      RememberAll, Remember, ImageValue, ResolvedValue, ProviderValue;
  }

  /**
   * What the output shows in the end, for every source: nothing while no run was published, and then
   * each run as it was published last, with the stream's own run as the active one.
   */
  lemma OutputShows(options: Options, source: seq<AgentEvent>)
    ensures FirstRun(source).None? ==> Shown(Output(options, source)) == Waiting
    ensures FirstRun(source).Some? ==>
      Shown(Output(options, source)).Holding? && ShowsRuns(Shown(Output(options, source)).document, options, source)
  {
    hide Output, After, Shown, Published;
    OutputChained(options, source);
    StateExact(options, source);
    PublishedExact(options, source);
    if FirstRun(source).Some? {
      ActiveSome(options, source);
      DocumentShows(After(options, source).state, options, source);
    }
  }

  lemma ActiveSome(options: Options, source: seq<AgentEvent>)
    requires FirstRun(source).Some?
    ensures ActiveRun(options, source).Some?
  {
  }

  lemma DocumentShows(state: PublicState, options: Options, source: seq<AgentEvent>)
    requires state.run == ActiveRun(options, source) && state.run.Some?
    requires forall id :: LastRun(source, id) == if id in state.runs then Some(state.runs[id]) else None
    ensures ShowsRuns(StateJson(state), options, source)
  {
    hide LastRun, ActiveRun, FirstRun;
    var doc := StateJson(state);
    assert At(doc, "runs") == Some(Obj(state.runs));
  }

  // ---- Which fields of a run are shown ----

  /** A field that is there, with this text, exactly when the text is not empty. */
  predicate ShowsText(doc: Json, key: string, value: Option<string>) {
    if value.None? || value.value == "" then At(doc, key).None? else At(doc, key) == Some(Str(value.value))
  }

  predicate ShowsCount(doc: Json, key: string, value: Option<real>) {
    if value.None? then At(doc, key).None? else At(doc, key) == Some(Number(value.value))
  }

  predicate ShowsUsage(doc: Json, usage: TokenUsage) {
    && ShowsCount(doc, "inputTokens", usage.inputTokens)
    && ShowsCount(doc, "cachedInputTokens", usage.cachedInputTokens)
    && ShowsCount(doc, "cacheWriteTokens", usage.cacheWriteTokens)
    && ShowsCount(doc, "outputTokens", usage.outputTokens)
    && ShowsCount(doc, "reasoningTokens", usage.reasoningTokens)
    && ShowsCount(doc, "totalTokens", usage.totalTokens)
    && At(doc, "speed") == (if usage.speed.Some? then Some(Str(usage.speed.value)) else None)
    && At(doc, "cacheWriteTokensDetails").Some? == usage.cacheWriteTokensDetails.Some?
    && (usage.cacheWriteTokensDetails.Some? ==>
          var details := At(doc, "cacheWriteTokensDetails").value;
          && ShowsCount(details, "ttl30mTokens", usage.cacheWriteTokensDetails.value.ttl30mTokens)
          && ShowsCount(details, "ttl12hTokens", usage.cacheWriteTokensDetails.value.ttl12hTokens))
  }

  /** What is shown of every run. */
  predicate ShowsRun(doc: Json, run: RunView) {
    && At(doc, "runId") == Some(Str(run.runId))
    && At(doc, "status") == Some(Str(run.status))
    && ShowsText(doc, "agentId", run.agentId)
    && ShowsText(doc, "parentRunId", run.parentRunId)
    && At(doc, "currentStep") == Some(Number(run.currentStep))
    && At(doc, "maxSteps") == Some(if run.maxSteps.Some? then Number(run.maxSteps.value) else Str("unlimited"))
    && At(doc, "usage").Some? == run.usage.Some?
    && (run.usage.Some? ==> ShowsUsage(At(doc, "usage").value, run.usage.value))
  }

  const VIEW_KEYS := {"runId", "status", "agentId", "parentRunId", "provider", "modelId", "currentStep", "maxSteps",
                      "usage"}

  lemma AtField(fields: map<string, Json>, name: string, value: Option<Json>, key: string)
    ensures At(Obj(fields + Field(name, value)), key)
         == if key == name && value.Some? then value else At(Obj(fields), key)
  {
  }

  lemma AtOne(name: string, value: Option<Json>, key: string)
    ensures At(Obj(Field(name, value)), key) == if key == name then value else None
  {
  }

  lemma AtTwo(fields: map<string, Json>, j: string, x: Json, k: string, y: Json, key: string)
    requires j != k
    ensures At(Obj(fields + map[j := x, k := y]), key)
         == if key == j then Some(x) else if key == k then Some(y) else At(Obj(fields), key)
  {
  }

  function DetailsOf(usage: TokenUsage): Option<Json> {
    if usage.cacheWriteTokensDetails.Some? then Some(DetailsJson(usage.cacheWriteTokensDetails.value)) else None
  }

  lemma UsageAt(usage: TokenUsage, key: string)
    ensures At(UsageJson(usage), key) ==
      match key
      case "inputTokens" => Count(usage.inputTokens)
      case "cachedInputTokens" => Count(usage.cachedInputTokens)
      case "cacheWriteTokens" => Count(usage.cacheWriteTokens)
      case "cacheWriteTokensDetails" => DetailsOf(usage)
      case "outputTokens" => Count(usage.outputTokens)
      case "reasoningTokens" => Count(usage.reasoningTokens)
      case "totalTokens" => Count(usage.totalTokens)
      case "speed" => (if usage.speed.Some? then Some(Str(usage.speed.value)) else None)
      case _ => None
  {
    hide Field, Count, DetailsJson, At;
    var speed := if usage.speed.Some? then Some(Str(usage.speed.value)) else None;
    var f1 := Field("inputTokens", Count(usage.inputTokens));
    var f2 := f1 + Field("cachedInputTokens", Count(usage.cachedInputTokens));
    var f3 := f2 + Field("cacheWriteTokens", Count(usage.cacheWriteTokens));
    var f4 := f3 + Field("cacheWriteTokensDetails", DetailsOf(usage));
    var f5 := f4 + Field("outputTokens", Count(usage.outputTokens));
    var f6 := f5 + Field("reasoningTokens", Count(usage.reasoningTokens));
    var f7 := f6 + Field("totalTokens", Count(usage.totalTokens));
    assert UsageJson(usage) == Obj(f7 + Field("speed", speed));
    hide UsageJson;
    AtOne("inputTokens", Count(usage.inputTokens), key);
    AtField(f1, "cachedInputTokens", Count(usage.cachedInputTokens), key);
    AtField(f2, "cacheWriteTokens", Count(usage.cacheWriteTokens), key);
    AtField(f3, "cacheWriteTokensDetails", DetailsOf(usage), key);
    AtField(f4, "outputTokens", Count(usage.outputTokens), key);
    AtField(f5, "reasoningTokens", Count(usage.reasoningTokens), key);
    AtField(f6, "totalTokens", Count(usage.totalTokens), key);
    AtField(f7, "speed", speed, key);
  }

  lemma DetailsAt(details: CacheWriteDetails, key: string)
    ensures At(DetailsJson(details), key) ==
      match key
      case "ttl30mTokens" => Count(details.ttl30mTokens)
      case "ttl12hTokens" => Count(details.ttl12hTokens)
      case _ => None
  {
    AtOne("ttl30mTokens", Count(details.ttl30mTokens), key);
    AtField(Field("ttl30mTokens", Count(details.ttl30mTokens)), "ttl12hTokens", Count(details.ttl12hTokens), key);
  }

  lemma UsageShown(usage: TokenUsage)
    ensures ShowsUsage(UsageJson(usage), usage)
  {
    hide UsageJson, DetailsJson, At;
    UsageAt(usage, "inputTokens");
    UsageAt(usage, "cachedInputTokens");
    UsageAt(usage, "cacheWriteTokens");
    UsageAt(usage, "cacheWriteTokensDetails");
    UsageAt(usage, "outputTokens");
    UsageAt(usage, "reasoningTokens");
    UsageAt(usage, "totalTokens");
    UsageAt(usage, "speed");
    if usage.cacheWriteTokensDetails.Some? {
      DetailsAt(usage.cacheWriteTokensDetails.value, "ttl30mTokens");
      DetailsAt(usage.cacheWriteTokensDetails.value, "ttl12hTokens");
    }
  }

  function UsageOf(run: RunView): Option<Json> {
    if run.usage.Some? then Some(UsageJson(run.usage.value)) else None
  }

  lemma ViewAt(run: RunView, key: string)
    ensures PublicRunFromView(run).Obj?
    ensures At(PublicRunFromView(run), key) ==
      match key
      case "runId" => Some(Str(run.runId))
      case "status" => Some(Str(run.status))
      case "agentId" => Text(run.agentId)
      case "parentRunId" => Text(run.parentRunId)
      case "provider" => Text(run.provider)
      case "modelId" => Text(run.modelId)
      case "currentStep" => Some(Number(run.currentStep))
      case "maxSteps" => Some(StepsJson(run.maxSteps))
      case "usage" => UsageOf(run)
      case _ => None
  {
    hide Field, Text, StepsJson, UsageJson, At;
    var f0: map<string, Json> := map["runId" := Str(run.runId), "status" := Str(run.status)];
    var f1 := f0 + Field("agentId", Text(run.agentId));
    var f2 := f1 + Field("parentRunId", Text(run.parentRunId));
    var f3 := f2 + Field("provider", Text(run.provider));
    var f4 := f3 + Field("modelId", Text(run.modelId));
    var f5 := f4 + map["currentStep" := Number(run.currentStep), "maxSteps" := StepsJson(run.maxSteps)];
    assert PublicRunFromView(run) == Obj(f5 + Field("usage", UsageOf(run)));
    hide PublicRunFromView;
    AtTwo(map[], "runId", Str(run.runId), "status", Str(run.status), key);
    assert map[] + f0 == f0;
    AtNothing(key);
    AtField(f0, "agentId", Text(run.agentId), key);
    AtField(f1, "parentRunId", Text(run.parentRunId), key);
    AtField(f2, "provider", Text(run.provider), key);
    AtField(f3, "modelId", Text(run.modelId), key);
    AtTwo(f4, "currentStep", Number(run.currentStep), "maxSteps", StepsJson(run.maxSteps), key);
    AtField(f5, "usage", UsageOf(run), key);
  }

  lemma AtNothing(key: string)
    ensures At(Obj(map[]), key) == None
  {
  }

  /** Only keys under which something is found. */
  lemma KeysFound(doc: Json, keys: set<string>)
    requires doc.Obj? && forall key :: At(doc, key).Some? ==> key in keys
    ensures OnlyKeys(doc, keys)
  {
    forall key | key in doc.fields ensures key in keys {
      assert At(doc, key).Some?;
    }
  }

  /** An update shows these fields of the run and no others. */
  lemma ViewShown(run: RunView)
    ensures var doc := PublicRunFromView(run);
      && ShowsRun(doc, run)
      && ShowsText(doc, "provider", run.provider) && ShowsText(doc, "modelId", run.modelId)
      && OnlyKeys(doc, VIEW_KEYS)
  {
    var doc := PublicRunFromView(run);
    forall key ensures At(doc, key).Some? ==> key in VIEW_KEYS {
      ViewAt(run, key);
    }
    ViewAt(run, "runId");
    hide PublicRunFromView, UsageJson;
    KeysFound(doc, VIEW_KEYS);
    hide At;
    ViewAt(run, "status");
    ViewAt(run, "agentId");
    ViewAt(run, "parentRunId");
    ViewAt(run, "provider");
    ViewAt(run, "modelId");
    ViewAt(run, "currentStep");
    ViewAt(run, "maxSteps");
    ViewAt(run, "usage");
    if run.usage.Some? {
      UsageShown(run.usage.value);
    }
  }

  /**
   * A finish shows also the output text and how many approvals are pending, but of the state it carries
   * nothing else: no messages, no arguments of approvals.
   */
  lemma FinalShown(state: RunState)
    ensures var doc := PublicRunFromState(state);
      && ShowsRun(doc, state.view)
      && (state.view.provider.Some? ==> At(doc, "provider") == Some(Str(state.view.provider.value)))
      && (state.view.modelId.Some? ==> At(doc, "modelId") == Some(Str(state.view.modelId.value)))
      && At(doc, "outputText") == Some(Str(state.outputText))
      && At(doc, "pendingApprovals") == Some(Number(|state.pendingApprovals| as real))
      && OnlyKeys(doc, VIEW_KEYS + {"outputText", "pendingApprovals"})
  {
    ViewShown(state.view);
    FinalAdds(state);
    hide *;
    ShowsSame(PublicRunFromView(state.view), PublicRunFromState(state), state.view);
  }

  lemma FinalAdds(state: RunState)
    ensures var view, doc := PublicRunFromView(state.view), PublicRunFromState(state);
      && (state.view.provider.Some? ==> At(doc, "provider") == Some(Str(state.view.provider.value)))
      && (state.view.modelId.Some? ==> At(doc, "modelId") == Some(Str(state.view.modelId.value)))
      && At(doc, "outputText") == Some(Str(state.outputText))
      && At(doc, "pendingApprovals") == Some(Number(|state.pendingApprovals| as real))
      && OnlyKeys(doc, VIEW_KEYS + {"outputText", "pendingApprovals"})
      && forall key :: key in VIEW_KEYS - {"provider", "modelId"} ==> At(doc, key) == At(view, key)
  {
    var doc := PublicRunFromState(state);
    forall key ensures At(doc, key).Some? ==> key in VIEW_KEYS + {"outputText", "pendingApprovals"} {
      FinalAt(state, key);
      ViewAt(state.view, key);
    }
    hide PublicRunFromView, PublicRunFromState;
    FinalAt(state, "runId");
    KeysFound(doc, VIEW_KEYS + {"outputText", "pendingApprovals"});
    hide At;
    forall key | key in VIEW_KEYS - {"provider", "modelId"}
      ensures At(doc, key) == At(PublicRunFromView(state.view), key)
    {
      FinalAt(state, key);
    }
    FinalAt(state, "provider");
    FinalAt(state, "modelId");
    FinalAt(state, "outputText");
    FinalAt(state, "pendingApprovals");
  }

  lemma FinalAt(state: RunState, key: string)
    ensures PublicRunFromState(state).Obj?
    ensures At(PublicRunFromState(state), key) ==
      match key
      case "provider" =>
        if state.view.provider.Some? then Some(Str(state.view.provider.value))
        else At(PublicRunFromView(state.view), key)
      case "modelId" =>
        if state.view.modelId.Some? then Some(Str(state.view.modelId.value))
        else At(PublicRunFromView(state.view), key)
      case "outputText" => Some(Str(state.outputText))
      case "pendingApprovals" => Some(Number(|state.pendingApprovals| as real))
      case _ => At(PublicRunFromView(state.view), key)
  {
    var run := state.view;
    var provider := if run.provider.Some? then Some(Str(run.provider.value)) else None;
    var model := if run.modelId.Some? then Some(Str(run.modelId.value)) else None;
    var f0 := PublicRunFromView(run).fields;
    hide PublicRunFromView, Field, At;
    var f1 := f0 + Field("provider", provider);
    var f2 := f1 + Field("modelId", model);
    AtField(f0, "provider", provider, key);
    AtField(f1, "modelId", model, key);
    AtTwo(f2, "outputText", Str(state.outputText), "pendingApprovals", Number(|state.pendingApprovals| as real), key);
  }

  lemma ShowsSame(view: Json, doc: Json, run: RunView)
    requires ShowsRun(view, run)
    requires forall key :: key in VIEW_KEYS - {"provider", "modelId"} ==> At(doc, key) == At(view, key)
    ensures ShowsRun(doc, run)
  {
    hide ShowsUsage, At;
  }
}
