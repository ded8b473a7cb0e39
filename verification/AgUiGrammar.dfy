/** The AG-UI stream grammar: what an acceptor takes, and that it takes the output of every agent event list. */
module AgUiGrammar {
  import opened Wrappers
  import opened AgUiEvents

  // ---- An acceptor for AG-UI streams ----

  /** `used` are the message ids minted so far. */
  datatype Grammar = Grammar(started: bool, open: Option<string>, call: Option<string>, terminals: nat,
      used: set<string>)

  /** None when the event is not allowed here. */
  function Accept<D>(g: Grammar, e: AgUiEvent<D>): Option<Grammar> {
    if e.RunStarted? then
      if g.started then None else Some(g.(started := true))
    else if !g.started || (g.call.Some? && !e.ToolCallArgs? && !e.ToolCallEnd?) then None
    else match e
      case TextMessageStart(id) =>
        if g.open.Some? || id in g.used then None else Some(g.(open := Some(id), used := g.used + {id}))
      case TextMessageContent(id, _) => if g.open == Some(id) then Some(g) else None
      case TextMessageEnd(id) => if g.open == Some(id) then Some(g.(open := None)) else None
      case ToolCallStart(id, _, _) => if g.open.Some? then None else Some(g.(call := Some(id)))
      case ToolCallArgs(id, _) => if g.call == Some(id) then Some(g) else None
      case ToolCallEnd(id) => if g.call == Some(id) then Some(g.(call := None)) else None
      case ToolCallResult(id, _, _) => if id in g.used then None else Some(g.(used := g.used + {id}))
      case ActivitySnapshot(id, _) => if id in g.used then None else Some(g.(used := g.used + {id}))
      case RunFinished(_, _, _) => if g.terminals > 0 then None else Some(g.(terminals := 1))
      case RunError(_, _) => if g.terminals > 0 then None else Some(g.(terminals := 1))
      case _ => Some(g)
  }

  const NOTHING := Grammar(false, None, None, 0, {})

  function AcceptFrom<D>(g: Grammar, events: seq<AgUiEvent<D>>): Option<Grammar>
    decreases |events|
  {
    if events == [] then Some(g)
    else match Accept(g, events[0])
      case None => None
      case Some(next) => AcceptFrom(next, events[1..])
  }

  lemma {:induction false} AcceptConcat<D>(g: Grammar, a: seq<AgUiEvent<D>>, b: seq<AgUiEvent<D>>)
    ensures AcceptFrom(g, a + b) == match AcceptFrom(g, a) case None => None case Some(h) => AcceptFrom(h, b)
    decreases |a|
  {
    if a == [] {
      assert a + b == b;
    } else {
      assert (a + b)[0] == a[0] && (a + b)[1..] == a[1..] + b;
      match Accept(g, a[0])
      case None =>
      case Some(next) => AcceptConcat(next, a[1..], b);
    }
  }

  // ---- The mapper follows the grammar ----

  ghost function Minted(n: nat): set<string> {
    set k | 1 <= k <= n :: MessageId(k)
  }

  lemma MessageIdFresh(n: nat)
    ensures MessageId(n + 1) !in Minted(n)
    ensures Minted(n + 1) == Minted(n) + {MessageId(n + 1)}
  {
    forall k | 1 <= k <= n ensures MessageId(k) != MessageId(n + 1) {
      if MessageId(k) == MessageId(n + 1) {
        assert MessageId(k)[4..] == Decimal.Show(k) && MessageId(n + 1)[4..] == Decimal.Show(n + 1);
        Decimal.ShowInjective(k, n + 1);
      }
    }
    forall k | 1 <= k <= n + 1 ensures MessageId(k) in Minted(n) + {MessageId(n + 1)} {
      assert k <= n ==> MessageId(k) in Minted(n);
    }
    assert Minted(n + 1) <= Minted(n) + {MessageId(n + 1)};
  }

  /** The acceptor's state that belongs to the mapper's. */
  ghost function GrammarOf(m: Mapper): Grammar {
    Grammar(true, m.openMessageId, None, if m.sawRunFinish then 1 else 0, Minted(m.messageSequence))
  }

  /** `events` take the mapper from `m` to `next` within the grammar. */
  ghost predicate Follows(m: Mapper, events: seq<Event>, next: Mapper) {
    AcceptFrom(GrammarOf(m), events) == Some(GrammarOf(next))
  }

  lemma FollowsConcat(m: Mapper, a: seq<Event>, mid: Mapper, b: seq<Event>, next: Mapper)
    requires Follows(m, a, mid) && Follows(mid, b, next)
    ensures Follows(m, a + b, next)
  {
    AcceptConcat(GrammarOf(m), a, b);
  }

  lemma FollowsOne(m: Mapper, e: Event, next: Mapper)
    requires Accept(GrammarOf(m), e) == Some(GrammarOf(next))
    ensures Follows(m, [e], next)
  {
    assert [e][1..] == [];
  }

  lemma CloseMessageFollows(m: Mapper)
    ensures var (closed, events) := CloseMessage(m);
      Follows(m, events, closed) && closed.openMessageId.None?
  {
    var (closed, events) := CloseMessage(m);
    if m.openMessageId.Some? {
      FollowsOne(m, events[0], closed);
    }
  }

  lemma EmitStateFollows(m: Mapper, next: PublicState)
    ensures Follows(m, EmitState(m, next).1, EmitState(m, next).0)
  {
    var (shown, events) := EmitState(m, next);
    if events != [] {
      FollowsOne(m, events[0], shown);
    }
  }

  lemma {:induction false} CloseStepsFollows(m: Mapper, steps: seq<string>)
    ensures Follows(m, CloseSteps(steps), m)
  {
    if steps != [] {
      var e: Event := StepFinished(steps[|steps| - 1]);
      FollowsOne(m, e, m);
      CloseStepsFollows(m, steps[..|steps| - 1]);
      FollowsConcat(m, [e], m, CloseSteps(steps[..|steps| - 1]), m);
    }
  }

  lemma FinishRunFollows(options: Options, m: Mapper)
    ensures var (finished, events) := FinishRun(options, m);
      && Follows(m, events, finished) && finished.sawRunFinish
      && (!m.sawRunFinish ==> finished.openMessageId.None? && finished.openSteps == [])
  {
    if !m.sawRunFinish {
      var (closed, ends) := CloseMessage(m);
      CloseMessageFollows(m);
      CloseStepsFollows(closed, m.openSteps);
      FollowsConcat(m, ends, closed, CloseSteps(m.openSteps), closed);
      var finished := FinishRun(options, m).0;
      var last: Event := TerminalEvent(options, FinalPayload(m));
      assert [last][1..] == [];
      assert AcceptFrom(GrammarOf(closed), [last]) == Some(GrammarOf(finished));
      FollowsConcat(m, ends + CloseSteps(m.openSteps), closed, [last], finished);
    }
  }

  lemma TextFollows(m: Mapper, text: string)
    ensures Follows(m, OnText(m, text).1, OnText(m, text).0)
  {
    var (next, events) := OnText(m, text);
    if m.openMessageId.None? {
      MessageIdFresh(m.messageSequence);
      FollowsOne(m, events[0], next);
      FollowsOne(next, events[1], next);
      FollowsConcat(m, [events[0]], next, [events[1]], next);
      assert events == [events[0]] + [events[1]];
    } else {
      FollowsOne(m, events[0], next);
    }
  }

  lemma ToolCallFollows(m: Mapper, id: string, name: string, input: string)
    ensures Follows(m, OnToolCall(m, id, name, input).1, OnToolCall(m, id, name, input).0)
  {
    var (closed, ends) := CloseMessage(m);
    CloseMessageFollows(m);
    var call: seq<Event> := [ToolCallStart(id, name, closed.parentMessageId), ToolCallArgs(id, input), ToolCallEnd(id)];
    var g := GrammarOf(closed);
    var open := g.(call := Some(id));
    assert Accept(g, call[0]) == Some(open) && Accept(open, call[1]) == Some(open) && Accept(open, call[2]) == Some(g);
    var tail := call[1..];
    assert tail[0] == call[1] && tail[1..] == [call[2]] && [call[2]][1..] == [];
    assert AcceptFrom(open, [call[2]]) == Some(g);
    assert AcceptFrom(open, tail) == Some(g);
    assert AcceptFrom(g, call) == Some(g);
    FollowsConcat(m, ends, closed, call, closed);
  }

  lemma RunFinishFollows(options: Options, m: Mapper, status: AgentStatus, state: RunState)
    ensures Follows(m, OnRunFinish(options, m, status, state).1, OnRunFinish(options, m, status, state).0)
  {
    var next := WithRun(m.state, options.runId, state.view.runId, PublicRunFromState(state));
    var (shown, states) := EmitState(m, next);
    EmitStateFollows(m, next);
    var interrupts := RememberAll(shown.interrupts, state.pendingApprovals);
    var ready := shown.(interrupts := interrupts,
                        terminal := Some(TerminalPayload(status, options, interrupts, shown.errorMessage)));
    FinishRunFollows(options, ready);
    assert GrammarOf(ready) == GrammarOf(shown);
    FollowsConcat(m, states, shown, FinishRun(options, ready).1, FinishRun(options, ready).0);
  }

  lemma NextFollows(options: Options, m: Mapper, event: AgentEvent)
    ensures Follows(m, Next(options, m, event).1, Next(options, m, event).0)
  {
    hide MessageId, StepName, Follows, EmitState, CloseMessage, OnText, OnToolCall, OnRunFinish;
    match event
    case AgentRunUpdate(run) => EmitStateFollows(m, WithRun(m.state, options.runId, run.runId, PublicRunFromView(run)));
    case TextDelta(text) => TextFollows(m, text);
    case ToolCall(id, name, input) => ToolCallFollows(m, id, name, input);
    case Finish => CloseMessageFollows(m);
    case AgentRunFinish(status, state) => RunFinishFollows(options, m, status, state);
    case _ => SimpleFollows(options, m, event);
  }

  /** Events that yield at most one AG-UI event and leave the message alone. */
  lemma SimpleFollows(options: Options, m: Mapper, event: AgentEvent)
    requires !event.AgentRunUpdate? && !event.TextDelta? && !event.ToolCall? && !event.Finish? && !event.AgentRunFinish?
    ensures Follows(m, Next(options, m, event).1, Next(options, m, event).0)
  {
    hide MessageId, StepName, Follows, Minted;
    var (next, events) := Next(options, m, event);
    MessageIdFresh(m.messageSequence);
    if events == [] {
      NothingFollows(m, next);
    } else {
      assert events == [events[0]];
      FollowsOne(m, events[0], next);
    }
  }

  lemma NothingFollows(m: Mapper, next: Mapper)
    requires GrammarOf(m) == GrammarOf(next)
    ensures Follows(m, [], next)
  {
  }

  lemma {:induction false} TraceAccepted(options: Options, source: seq<AgentEvent>)
    ensures AcceptFrom(NOTHING, Trace(options, source)) == Some(GrammarOf(After(options, source)))
  {
    if source == [] {
      var start: Event := RunStarted(options.threadId, options.runId);
      assert [start][1..] == [];
      assert Minted(0) == {};
      assert AcceptFrom(NOTHING, [start]) == Some(GrammarOf(FRESH));
    } else {
      var init, last := source[..|source| - 1], source[|source| - 1];
      TraceAccepted(options, init);
      NextFollows(options, After(options, init), last);
      AcceptConcat(NOTHING, Trace(options, init), Next(options, After(options, init), last).1);
    }
  }

  /**
   * For every source the whole output follows the grammar: it starts with the only RUN_STARTED, at most one
   * message is open at any point and all content belongs to it, tool calls are whole, minted message ids are
   * distinct, and there is exactly one terminal event.
   */
  lemma OutputAccepted(options: Options, source: seq<AgentEvent>)
    ensures var g := AcceptFrom(NOTHING, Output(options, source));
      g.Some? && g.value.terminals == 1 && g.value.call.None?
    ensures Output(options, source)[0] == RunStarted(options.threadId, options.runId)
  {
    var m := After(options, source);
    TraceAccepted(options, source);
    FinishRunFollows(options, m);
    AcceptConcat(NOTHING, Trace(options, source), FinishRun(options, m).1);
    TraceStarts(options, source);
  }

  lemma {:induction false} TraceStarts(options: Options, source: seq<AgentEvent>)
    ensures Trace(options, source) != [] && Trace(options, source)[0] == RunStarted(options.threadId, options.runId)
  {
    if source != [] {
      TraceStarts(options, source[..|source| - 1]);
    }
  }

  // ---- What the acceptor guarantees ----

  function TerminalCount<D>(events: seq<AgUiEvent<D>>): nat {
    if events == [] then 0 else TerminalCount(events[1..]) + if events[0].Terminal() then 1 else 0
  }

  /** The ids of new messages, tool results and activities, in order. */
  function NewIds<D>(events: seq<AgUiEvent<D>>): seq<string> {
    if events == [] then []
    else
      (match events[0]
       case TextMessageStart(id) => [id]
       case ToolCallResult(id, _, _) => [id]
       case ActivitySnapshot(id, _) => [id]
       case _ => []) + NewIds(events[1..])
  }

  lemma {:induction false} AcceptedFacts<D>(g: Grammar, events: seq<AgUiEvent<D>>)
    requires AcceptFrom(g, events).Some?
    ensures AcceptFrom(g, events).value.terminals == g.terminals + TerminalCount(events)
    ensures forall i :: 0 <= i < |NewIds(events)| ==> NewIds(events)[i] !in g.used
    ensures forall i, j :: 0 <= i < j < |NewIds(events)| ==> NewIds(events)[i] != NewIds(events)[j]
    decreases |events|
  {
    if events != [] {
      AcceptedFacts(Accept(g, events[0]).value, events[1..]);
    }
  }

  /** Exactly one terminal event, and all minted message ids are distinct. */
  lemma OneTerminalDistinctIds(options: Options, source: seq<AgentEvent>)
    ensures TerminalCount(Output(options, source)) == 1
    ensures var ids := NewIds(Output(options, source)); forall i, j :: 0 <= i < j < |ids| ==> ids[i] != ids[j]
  {
    OutputAccepted(options, source);
    AcceptedFacts(NOTHING, Output(options, source));
  }
}
