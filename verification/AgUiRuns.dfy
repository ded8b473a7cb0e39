/** How a stream ends, and the conservation of steps. */
module AgUiRuns {
  import opened Wrappers
  import opened AgUiEvents
  import opened AgUiGrammar

  predicate HasFinish(source: seq<AgentEvent>) {
    exists i :: 0 <= i < |source| && source[i].AgentRunFinish?
  }

  /** `source` has its first agent-run-finish at `f`. */
  predicate FirstFinish(source: seq<AgentEvent>, f: nat) {
    f < |source| && source[f].AgentRunFinish? && forall i :: 0 <= i < f ==> !source[i].AgentRunFinish?
  }

  lemma {:induction false} SawFinish(options: Options, source: seq<AgentEvent>)
    ensures After(options, source).sawRunFinish <==> HasFinish(source)
    ensures var m := After(options, source);
      && (m.previousState.Some? ==> m.previousState == Some(m.state))
      && (m.sawRunFinish ==> m.previousState.Some?)
  {
    if source != [] {
      var init, last := source[..|source| - 1], source[|source| - 1];
      SawFinish(options, init);
      assert HasFinish(source) <==> HasFinish(init) || last.AgentRunFinish? by {
        if HasFinish(init) {
          var i :| 0 <= i < |init| && init[i].AgentRunFinish?;
          assert source[i].AgentRunFinish?;
        }
      }
      StepFacts(options, After(options, init), last);
    }
  }

  lemma StepFacts(options: Options, m: Mapper, event: AgentEvent)
    ensures var next := Next(options, m, event).0;
      && next.sawRunFinish == (m.sawRunFinish || event.AgentRunFinish?)
      && (m.previousState.Some? ==> next.previousState.Some?)
      && (event.AgentRunFinish? ==> next.previousState.Some?)
      && ((m.previousState.Some? ==> m.previousState == Some(m.state))
          ==> (next.previousState.Some? ==> next.previousState == Some(next.state)))
  {
    hide MessageId, StepName;
  }

  // ---- The end of the stream ----

  /** Events that yield nothing once the run has finished. */
  predicate Quiet(options: Options, state: PublicState, event: AgentEvent) {
    match event
    case AgentRunStart => true
    case ApprovalRequest(_) => true
    case StreamError(_) => true
    case Finish => true
    case AgentRunUpdate(run) =>
      StateJson(WithRun(state, options.runId, run.runId, PublicRunFromView(run))) == StateJson(state)
    case AgentRunFinish(_, final) =>
      StateJson(WithRun(state, options.runId, final.view.runId, PublicRunFromState(final))) == StateJson(state)
    case _ => false
  }

  /** After the finish, with no message open, exactly the quiet events yield nothing. */
  lemma QuietExact(options: Options, m: Mapper, event: AgentEvent)
    requires m.sawRunFinish && m.openMessageId.None? && m.previousState == Some(m.state)
    ensures Next(options, m, event).1 == [] <==> Quiet(options, m.state, event)
    ensures Quiet(options, m.state, event) ==>
      Next(options, m, event).0.openMessageId.None? && Next(options, m, event).0.openSteps == m.openSteps
  {
    hide MessageId, StepName, PublicRunFromView, PublicRunFromState;
  }

  ghost predicate QuietTail(options: Options, source: seq<AgentEvent>, f: nat) {
    forall i :: f < i < |source| ==> Quiet(options, After(options, source[..i]).state, source[i])
  }

  lemma Unfold(options: Options, source: seq<AgentEvent>)
    requires source != []
    ensures var init, last := source[..|source| - 1], source[|source| - 1];
      && After(options, source) == Next(options, After(options, init), last).0
      && Trace(options, source) == Trace(options, init) + Next(options, After(options, init), last).1
  {
    hide Next;
  }

  lemma TraceAtFinish(options: Options, source: seq<AgentEvent>, f: nat)
    requires FirstFinish(source, f)
    ensures var trace := Trace(options, source[..f + 1]);
      trace != [] && trace[|trace| - 1].Terminal()
    ensures var m := After(options, source[..f + 1]);
      m.sawRunFinish && m.openMessageId.None? && m.openSteps == []
  {
    hide Trace, After, Next;
    var before := source[..f];
    assert source[..f + 1][..f] == before;
    SawFinish(options, before);
    Unfold(options, source[..f + 1]);
    FinishEnds(options, After(options, before), source[f]);
  }

  lemma FinishEnds(options: Options, m: Mapper, event: AgentEvent)
    requires !m.sawRunFinish && event.AgentRunFinish?
    ensures var (next, events) := Next(options, m, event);
      && events != [] && events[|events| - 1].Terminal()
      && next.sawRunFinish && next.openMessageId.None? && next.openSteps == []
  {
    hide CloseSteps, PublicRunFromState, TerminalPayload;
  }

  lemma {:induction false} QuietTailExact(options: Options, source: seq<AgentEvent>, f: nat)
    requires FirstFinish(source, f)
    ensures Trace(options, source[..f + 1]) <= Trace(options, source)
    ensures Trace(options, source) == Trace(options, source[..f + 1]) <==> QuietTail(options, source, f)
    ensures QuietTail(options, source, f) ==>
      After(options, source).openMessageId.None? && After(options, source).openSteps == []
    decreases |source|
  {
    if |source| == f + 1 {
      assert source[..f + 1] == source;
      TraceAtFinish(options, source, f);
    } else {
      var init, last := source[..|source| - 1], source[|source| - 1];
      assert init[..f + 1] == source[..f + 1];
      assert FirstFinish(init, f);
      QuietTailExact(options, init, f);
      QuietTailSnoc(options, source, f);
      SawFinish(options, init);
      assert HasFinish(init) by { assert init[f].AgentRunFinish?; }
      if QuietTail(options, init, f) {
        QuietExact(options, After(options, init), last);
      }
      assert Trace(options, source) == Trace(options, init) + Next(options, After(options, init), last).1;
    }
  }

  lemma QuietTailSnoc(options: Options, source: seq<AgentEvent>, f: nat)
    requires f + 1 < |source|
    ensures var init := source[..|source| - 1];
      QuietTail(options, source, f)
      <==> QuietTail(options, init, f) && Quiet(options, After(options, init).state, source[|source| - 1])
  {
    hide Quiet, After;
    var init := source[..|source| - 1];
    assert forall i :: f < i < |init| ==> init[..i] == source[..i] && init[i] == source[i];
  }

  lemma {:induction false} TerminalCountConcat<D>(a: seq<AgUiEvent<D>>, b: seq<AgUiEvent<D>>)
    ensures TerminalCount(a + b) == TerminalCount(a) + TerminalCount(b)
  {
    if a == [] {
      assert a + b == b;
    } else {
      assert (a + b)[1..] == a[1..] + b;
      TerminalCountConcat(a[1..], b);
    }
  }

  lemma LastCounts<D>(a: seq<AgUiEvent<D>>)
    requires a != []
    ensures TerminalCount(a) == TerminalCount(a[..|a| - 1]) + if a[|a| - 1].Terminal() then 1 else 0
  {
    var last := a[|a| - 1];
    assert a == a[..|a| - 1] + [last];
    assert [last][1..] == [];
    TerminalCountConcat(a[..|a| - 1], [last]);
  }

  /**
   * The terminal event is the last one exactly when everything after the first agent-run-finish is quiet:
   * a start, an approval request, an error, a finish, or an update that repeats the state.
   */
  lemma TerminalLastExact(options: Options, source: seq<AgentEvent>, f: nat)
    requires FirstFinish(source, f)
    ensures var out := Output(options, source);
      out != [] && (out[|out| - 1].Terminal() <==> QuietTail(options, source, f))
  {
    var out, head := Output(options, source), Trace(options, source[..f + 1]);
    SawFinish(options, source);
    assert HasFinish(source) by { assert source[f].AgentRunFinish?; }
    assert out == Trace(options, source);
    QuietTailExact(options, source, f);
    TraceAtFinish(options, source, f);
    OneTerminalDistinctIds(options, source);
    if out != head {
      var rest := out[|head|..];
      assert out == head + rest;
      TerminalCountConcat(head, rest);
      LastCounts(head);
      LastCounts(rest);
      assert rest[|rest| - 1] == out[|out| - 1];
    }
  }

  /**
   * Without anything but quiet events after the finish, the output ends with its terminal event and no message
   * is open.
   */
  lemma ClosedAtEnd(options: Options, source: seq<AgentEvent>)
    requires forall f :: FirstFinish(source, f) ==> QuietTail(options, source, f)
    ensures var out := Output(options, source);
      && out != [] && out[|out| - 1].Terminal()
      && AcceptFrom(NOTHING, out).Some? && AcceptFrom(NOTHING, out).value.open.None?
  {
    var m := After(options, source);
    SawFinish(options, source);
    TraceAccepted(options, source);
    FinishRunFollows(options, m);
    AcceptConcat(NOTHING, Trace(options, source), FinishRun(options, m).1);
    if HasFinish(source) {
      var f := FindFinish(source);
      QuietTailExact(options, source, f);
      TerminalLastExact(options, source, f);
    }
  }

  lemma {:induction false} FindFinish(source: seq<AgentEvent>) returns (f: nat)
    requires HasFinish(source)
    ensures FirstFinish(source, f)
  {
    f := 0;
    while !source[f].AgentRunFinish?
      invariant f < |source| && forall i :: 0 <= i < f ==> !source[i].AgentRunFinish?
      invariant exists i :: f <= i < |source| && source[i].AgentRunFinish?
      decreases |source| - f
    {
      f := f + 1;
    }
  }

  // ---- Steps ----

  function Started<D>(events: seq<AgUiEvent<D>>, name: string): nat {
    if events == [] then 0
    else Started(events[..|events| - 1], name) + if events[|events| - 1] == StepStarted(name) then 1 else 0
  }

  function Ended<D>(events: seq<AgUiEvent<D>>, name: string): nat {
    if events == [] then 0
    else Ended(events[..|events| - 1], name) + if events[|events| - 1] == StepFinished(name) then 1 else 0
  }

  /** Steps of this name the source started and has not finished; the first agent-run-finish finishes them all. */
  function StillOpen(source: seq<AgentEvent>, name: string): nat {
    if source == [] then 0
    else
      var init, last := source[..|source| - 1], source[|source| - 1];
      var open := StillOpen(init, name);
      match last
      case AgentStepStart(index) => if StepName(index) == name then open + 1 else open
      case AgentStepFinish(index) => if StepName(index) == name && open > 0 then open - 1 else open
      case AgentRunFinish(_, _) => if HasFinish(init) then open else 0
      case _ => open
  }

  /** Finishes in the source that match no open step. */
  function Unmatched(source: seq<AgentEvent>, name: string): nat {
    if source == [] then 0
    else
      var init, last := source[..|source| - 1], source[|source| - 1];
      Unmatched(init, name)
        + if last.AgentStepFinish? && StepName(last.stepIndex) == name && StillOpen(init, name) == 0 then 1 else 0
  }

  lemma {:induction false} CountsConcat<D>(a: seq<AgUiEvent<D>>, b: seq<AgUiEvent<D>>, name: string)
    ensures Started(a + b, name) == Started(a, name) + Started(b, name)
    ensures Ended(a + b, name) == Ended(a, name) + Ended(b, name)
    decreases |b|
  {
    if b == [] {
      assert a + b == a;
    } else {
      assert (a + b)[..|a + b| - 1] == a + b[..|b| - 1];
      CountsConcat(a, b[..|b| - 1], name);
    }
  }

  lemma CountsOne<D>(e: AgUiEvent<D>, name: string)
    ensures Started([e], name) == if e == StepStarted(name) then 1 else 0
    ensures Ended([e], name) == if e == StepFinished(name) then 1 else 0
  {
    assert [e][..0] == [];
  }

  lemma {:induction false} CloseStepsCounts(steps: seq<string>, name: string)
    ensures Started(CloseSteps(steps), name) == 0
    ensures Ended(CloseSteps(steps), name) == multiset(steps)[name]
  {
    if steps != [] {
      var init, last := steps[..|steps| - 1], steps[|steps| - 1];
      assert steps == init + [last];
      CloseStepsCounts(init, name);
      var e: Event := StepFinished(last);
      CountsOne(e, name);
      CountsConcat([e], CloseSteps(init), name);
    }
  }

  lemma {:induction false} DropLastCounts(steps: seq<string>, dropped: string, name: string)
    ensures multiset(DropLast(steps, dropped))[name]
         == if name == dropped && multiset(steps)[name] > 0 then multiset(steps)[name] - 1 else multiset(steps)[name]
  {
    if steps != [] {
      var init, last := steps[..|steps| - 1], steps[|steps| - 1];
      assert steps == init + [last];
      if last != dropped {
        DropLastCounts(init, dropped, name);
      }
    }
  }

  /** The change of the counts in one turn: finishes plus open steps grow like starts plus unmatched finishes. */
  lemma TurnCounts(options: Options, m: Mapper, event: AgentEvent, name: string)
    ensures var (next, events) := Next(options, m, event);
      var open, open' := multiset(m.openSteps)[name], multiset(next.openSteps)[name];
      && Started(events, name) == (if event.AgentStepStart? && StepName(event.stepIndex) == name then 1 else 0)
      && Ended(events, name) + open'
           == open + Started(events, name)
              + (if event.AgentStepFinish? && StepName(event.stepIndex) == name && open == 0 then 1 else 0)
      && open' == (match event
                   case AgentStepStart(index) => if StepName(index) == name then open + 1 else open
                   case AgentStepFinish(index) => if StepName(index) == name && open > 0 then open - 1 else open
                   case AgentRunFinish(_, _) => if m.sawRunFinish then open else 0
                   case _ => open)
  {
    hide MessageId, StepName, CloseSteps, EmitState, DropLast;
    var (next, events) := Next(options, m, event);
    match event
    case AgentStepStart(index) =>
      CountsOne(events[0], name);
      assert events == [events[0]];
    case AgentStepFinish(index) =>
      CountsOne(events[0], name);
      DropLastCounts(m.openSteps, StepName(index), name);
      assert events == [events[0]];
    case AgentRunFinish(status, state) => FinishCounts(options, m, status, state, name);
    case _ =>
      OtherCounts(options, m, event, name);
  }

  /** Events other than steps and the run's end neither start nor finish steps. */
  lemma OtherCounts(options: Options, m: Mapper, event: AgentEvent, name: string)
    requires !event.AgentStepStart? && !event.AgentStepFinish? && !event.AgentRunFinish?
    ensures var (next, events) := Next(options, m, event);
      Started(events, name) == 0 && Ended(events, name) == 0 && next.openSteps == m.openSteps
  {
    hide MessageId, StepName, Started, Ended;
    var events := Next(options, m, event).1;
    NoSteps(events, name);
  }

  lemma {:induction false} NoSteps<D>(events: seq<AgUiEvent<D>>, name: string)
    requires forall i :: 0 <= i < |events| ==> !events[i].StepStarted? && !events[i].StepFinished?
    ensures Started(events, name) == 0 && Ended(events, name) == 0
  {
    if events != [] {
      NoSteps(events[..|events| - 1], name);
    }
  }

  lemma FinishRunCounts(options: Options, m: Mapper, name: string)
    ensures var (next, events) := FinishRun(options, m);
      && Started(events, name) == 0
      && Ended(events, name) + multiset(next.openSteps)[name] == multiset(m.openSteps)[name]
      && multiset(next.openSteps)[name] == if m.sawRunFinish then multiset(m.openSteps)[name] else 0
  {
    if !m.sawRunFinish {
      var (closed, ends) := CloseMessage(m);
      var last: Event := TerminalEvent(options, FinalPayload(m));
      NoSteps(ends, name);
      CloseStepsCounts(m.openSteps, name);
      CountsOne(last, name);
      CountsConcat(ends, CloseSteps(m.openSteps), name);
      CountsConcat(ends + CloseSteps(m.openSteps), [last], name);
    } else {
      NoSteps<Change>([], name);
    }
  }

  lemma FinishCounts(options: Options, m: Mapper, status: AgentStatus, state: RunState, name: string)
    ensures var (next, events) := OnRunFinish(options, m, status, state);
      && Started(events, name) == 0
      && Ended(events, name) + multiset(next.openSteps)[name] == multiset(m.openSteps)[name]
      && multiset(next.openSteps)[name] == if m.sawRunFinish then multiset(m.openSteps)[name] else 0
  {
    hide FinishRun;
    var (shown, states) := EmitState(m, WithRun(m.state, options.runId, state.view.runId, PublicRunFromState(state)));
    var interrupts := RememberAll(shown.interrupts, state.pendingApprovals);
    var ready := shown.(interrupts := interrupts,
                        terminal := Some(TerminalPayload(status, options, interrupts, shown.errorMessage)));
    NoSteps(states, name);
    FinishRunCounts(options, ready, name);
    CountsConcat(states, FinishRun(options, ready).1, name);
  }

  /** The open list is the multiset of started but unfinished names, and the counts balance at every point. */
  lemma {:induction false} StepsBalance(options: Options, source: seq<AgentEvent>, name: string)
    ensures multiset(After(options, source).openSteps)[name] == StillOpen(source, name)
    ensures Ended(Trace(options, source), name) + StillOpen(source, name)
         == Started(Trace(options, source), name) + Unmatched(source, name)
  {
    if source == [] {
      NoSteps(Trace(options, source), name);
    } else {
      var init, last := source[..|source| - 1], source[|source| - 1];
      StepsBalance(options, init, name);
      SawFinish(options, init);
      TurnCounts(options, After(options, init), last, name);
      CountsConcat(Trace(options, init), Next(options, After(options, init), last).1, name);
    }
  }

  /**
   * Conservation over the whole output, for every source: finishes are the starts plus the unmatched
   * finishes of the source, less the steps that were opened after an agent-run-finish and never closed.
   */
  lemma StepConservation(options: Options, source: seq<AgentEvent>, name: string)
    ensures Ended(Output(options, source), name) + (if HasFinish(source) then StillOpen(source, name) else 0)
         == Started(Output(options, source), name) + Unmatched(source, name)
  {
    StepsBalance(options, source, name);
    SawFinish(options, source);
    FinishRunCounts(options, After(options, source), name);
    CountsConcat(Trace(options, source), FinishRun(options, After(options, source)).1, name);
  }

  /** With nothing after the agent-run-finish, or without one, the steps balance exactly. */
  lemma StepsBalanceAtEnd(options: Options, source: seq<AgentEvent>, name: string)
    requires forall i :: 0 <= i < |source| - 1 ==> !source[i].AgentRunFinish?
    ensures Ended(Output(options, source), name) == Started(Output(options, source), name) + Unmatched(source, name)
  {
    hide Output, Unmatched, Started, Ended;
    StepConservation(options, source, name);
    if HasFinish(source) {
      assert !HasFinish(source[..|source| - 1]);
    }
  }
}
