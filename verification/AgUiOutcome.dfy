/** How a run ends in the AG-UI output, told from the source: its first finish, the approvals and the last error. */
module AgUiOutcome {
  import opened Wrappers
  import opened AgUiEvents
  import opened AgUiRuns

  // ---- Pending approvals ----

  /** The approvals a source asks for, in order. */
  function Asked(source: seq<AgentEvent>): seq<Approval> {
    if source == [] then []
    else
      Asked(source[..|source| - 1]) +
        match source[|source| - 1]
        case ApprovalRequest(approval) => [approval]
        case AgentRunFinish(_, state) => state.pendingApprovals
        case _ => []
  }

  function KeyOf(approval: Approval): string {
    approval.provider + ":" + approval.id
  }

  /** The interrupt says what the approval asks for. */
  predicate Describes(interrupt: Interrupt, approval: Approval) {
    && interrupt.id == KeyOf(approval)
    && interrupt.message == "Approval required for " + approval.name + "."
    && (interrupt.toolCallId.Some? ==> interrupt.toolCallId == approval.toolCallId && approval.toolCallId.value != "")
    && (approval.toolCallId.Some? && approval.toolCallId.value != "" ==> interrupt.toolCallId.Some?)
    && interrupt.metadata.Some?
    && interrupt.metadata.value.provider == approval.provider
    && interrupt.metadata.value.approvalRequestId == approval.id
    && interrupt.metadata.value.name == approval.name
    && interrupt.metadata.value.kind == if approval.kind == None then "provider" else approval.kind.value
  }

  /** Where the key was asked for first; the length of the list if it was not. */
  function First(asked: seq<Approval>, key: string): (k: nat)
    ensures k <= |asked|
    ensures k < |asked| ==> KeyOf(asked[k]) == key
    ensures forall j :: 0 <= j < k ==> KeyOf(asked[j]) != key
  {
    if asked == [] then 0
    else
      var k := First(asked[..|asked| - 1], key);
      if k < |asked| - 1 then k else if KeyOf(asked[|asked| - 1]) == key then |asked| - 1 else |asked|
  }

  /** The interrupt describes the last approval with its key. */
  predicate DescribesLast(interrupt: Interrupt, asked: seq<Approval>) {
    asked != [] &&
    if KeyOf(asked[|asked| - 1]) == interrupt.id then Describes(interrupt, asked[|asked| - 1])
    else DescribesLast(interrupt, asked[..|asked| - 1])
  }

  predicate Noted(interrupts: seq<Interrupt>, key: string) {
    exists i :: 0 <= i < |interrupts| && interrupts[i].id == key
  }

  /** One interrupt for each key that was asked for, as it was asked last, in the order it was asked first. */
  ghost predicate Pending(asked: seq<Approval>, interrupts: seq<Interrupt>) {
    && (forall k :: 0 <= k < |asked| ==> Noted(interrupts, KeyOf(asked[k])))
    && (forall i :: 0 <= i < |interrupts| ==> DescribesLast(interrupts[i], asked))
    && (forall i, j :: 0 <= i < j < |interrupts| ==>
          First(asked, interrupts[i].id) < First(asked, interrupts[j].id))
  }

  /** A described key was asked for. */
  lemma {:induction false} DescribedAsked(interrupt: Interrupt, asked: seq<Approval>)
    requires DescribesLast(interrupt, asked)
    ensures First(asked, interrupt.id) < |asked|
  {
    hide Describes;
    if KeyOf(asked[|asked| - 1]) != interrupt.id {
      DescribedAsked(interrupt, asked[..|asked| - 1]);
    }
  }

  function IndexOf(interrupts: seq<Interrupt>, id: string): (i: nat)
    ensures i <= |interrupts|
    ensures i < |interrupts| ==> interrupts[i].id == id
    ensures forall j :: 0 <= j < i ==> interrupts[j].id != id
  {
    if interrupts == [] || interrupts[0].id == id then 0 else 1 + IndexOf(interrupts[1..], id)
  }

  lemma {:induction false} RememberAt(interrupts: seq<Interrupt>, interrupt: Interrupt)
    ensures var i := IndexOf(interrupts, interrupt.id);
      Remember(interrupts, interrupt) ==
        if i < |interrupts| then interrupts[i := interrupt] else interrupts + [interrupt]
  {
    if interrupts != [] && interrupts[0].id != interrupt.id {
      RememberAt(interrupts[1..], interrupt);
      var i := IndexOf(interrupts[1..], interrupt.id);
      assert Remember(interrupts, interrupt) == [interrupts[0]] + Remember(interrupts[1..], interrupt);
      assert IndexOf(interrupts, interrupt.id) == 1 + i;
      hide Remember, IndexOf;
      BehindFirst(interrupts, interrupt, i);
    } else if interrupts != [] {
      assert [interrupt] + interrupts[1..] == interrupts[0 := interrupt];
    }
  }

  lemma BehindFirst<T>(s: seq<T>, x: T, i: nat)
    requires s != [] && i <= |s| - 1
    ensures [s[0]] + (s[1..] + [x]) == s + [x]
    ensures i < |s| - 1 ==> [s[0]] + s[1..][i := x] == s[1 + i := x]
  {
  }

  lemma Described(approval: Approval)
    ensures Describes(InterruptFromApproval(approval), approval)
  {
  }

  lemma FirstSnoc(asked: seq<Approval>, approval: Approval, key: string)
    ensures First(asked + [approval], key)
         == if First(asked, key) < |asked| then First(asked, key)
            else if KeyOf(approval) == key then |asked| else |asked| + 1
  {
    assert (asked + [approval])[..|asked|] == asked;
  }

  lemma DescribesSnoc(interrupt: Interrupt, asked: seq<Approval>, approval: Approval)
    ensures DescribesLast(interrupt, asked + [approval])
       <==> if KeyOf(approval) == interrupt.id then Describes(interrupt, approval) else DescribesLast(interrupt, asked)
  {
    hide Describes;
    assert (asked + [approval])[..|asked|] == asked;
  }

  /** One more approval. */
  lemma PendingSnoc(asked: seq<Approval>, interrupts: seq<Interrupt>, approval: Approval)
    requires Pending(asked, interrupts)
    ensures Pending(asked + [approval], Remember(interrupts, InterruptFromApproval(approval)))
  {
    var interrupt := InterruptFromApproval(approval);
    var after, at := Remember(interrupts, interrupt), IndexOf(interrupts, interrupt.id);
    RememberAt(interrupts, interrupt);
    Described(approval);
    assert interrupt.id == KeyOf(approval) && after[at].id == KeyOf(approval);
    hide *;
    forall i | 0 <= i < |after|
      ensures DescribesLast(after[i], asked + [approval])
      ensures First(asked + [approval], after[i].id)
           == if i < |interrupts| then First(asked, interrupts[i].id) else |asked|
    {
      PendingTurn(asked, interrupts, approval, interrupt, i);
    }
    OrderKept(asked, interrupts, approval, after);
    assert Noted(after, KeyOf(approval)) by { NotedAt(after, at); }
    AllNoted(asked, interrupts, approval, after);
    PendingFrom(asked + [approval], after);
  }

  lemma NotedAt(interrupts: seq<Interrupt>, i: nat)
    requires i < |interrupts|
    ensures Noted(interrupts, interrupts[i].id)
  {
  }

  lemma PendingTurn(asked: seq<Approval>, interrupts: seq<Interrupt>, approval: Approval, interrupt: Interrupt, i: nat)
    requires Pending(asked, interrupts) && Describes(interrupt, approval)
    requires i < |interrupts| || (i == |interrupts| && IndexOf(interrupts, interrupt.id) == i)
    ensures var at := IndexOf(interrupts, interrupt.id);
      var now := if i == at then interrupt else interrupts[i];
      && DescribesLast(now, asked + [approval])
      && First(asked + [approval], now.id) == if i < |interrupts| then First(asked, interrupts[i].id) else |asked|
  {
    var at := IndexOf(interrupts, interrupt.id);
    assert interrupt.id == KeyOf(approval);
    if i < |interrupts| {
      if i != at && interrupts[i].id == interrupt.id {
        PendingOrder(asked, interrupts);
        assert at < i;
      }
      hide *;
      PendingKept(asked, interrupts, approval, i);
      DescribesSnoc(interrupt, asked, approval);
    } else {
      hide Pending, Describes, First, DescribesLast;
      DescribesSnoc(interrupt, asked, approval);
      FirstSnoc(asked, approval, interrupt.id);
      NotAsked(asked, interrupts, interrupt.id);
    }
  }

  lemma OrderKept(asked: seq<Approval>, interrupts: seq<Interrupt>, approval: Approval, after: seq<Interrupt>)
    requires Pending(asked, interrupts) && |interrupts| <= |after| <= |interrupts| + 1
    requires forall i :: 0 <= i < |after| ==>
      First(asked + [approval], after[i].id) == if i < |interrupts| then First(asked, interrupts[i].id) else |asked|
    ensures forall i, j :: 0 <= i < j < |after| ==>
      First(asked + [approval], after[i].id) < First(asked + [approval], after[j].id)
  {
    PendingOrder(asked, interrupts);
    forall i | 0 <= i < |interrupts| ensures First(asked, interrupts[i].id) < |asked| {
      assert DescribesLast(interrupts[i], asked);
      DescribedAsked(interrupts[i], asked);
    }
  }

  lemma AllNoted(asked: seq<Approval>, interrupts: seq<Interrupt>, approval: Approval, after: seq<Interrupt>)
    requires Pending(asked, interrupts)
    requires |after| >= |interrupts| && forall i :: 0 <= i < |interrupts| ==> after[i].id == interrupts[i].id
    requires Noted(after, KeyOf(approval))
    ensures forall k :: 0 <= k < |asked + [approval]| ==> Noted(after, KeyOf((asked + [approval])[k]))
  {
    hide DescribesLast, First;
    forall k | 0 <= k < |asked| ensures Noted(after, KeyOf(asked[k])) {
      var i := PendingAt(asked, interrupts, k);
      assert after[i].id == KeyOf(asked[k]);
    }
  }

  lemma PendingFrom(asked: seq<Approval>, interrupts: seq<Interrupt>)
    requires forall k :: 0 <= k < |asked| ==> Noted(interrupts, KeyOf(asked[k]))
    requires forall i :: 0 <= i < |interrupts| ==> DescribesLast(interrupts[i], asked)
    requires forall i, j :: 0 <= i < j < |interrupts| ==>
      First(asked, interrupts[i].id) < First(asked, interrupts[j].id)
    ensures Pending(asked, interrupts)
  {
  }

  lemma PendingAt(asked: seq<Approval>, interrupts: seq<Interrupt>, k: nat) returns (i: nat)
    requires Pending(asked, interrupts) && k < |asked|
    ensures i < |interrupts| && interrupts[i].id == KeyOf(asked[k])
  {
    assert Noted(interrupts, KeyOf(asked[k]));
    i :| 0 <= i < |interrupts| && interrupts[i].id == KeyOf(asked[k]);
  }

  lemma PendingOrder(asked: seq<Approval>, interrupts: seq<Interrupt>)
    requires Pending(asked, interrupts)
    ensures forall i, j :: 0 <= i < j < |interrupts| ==>
      First(asked, interrupts[i].id) < First(asked, interrupts[j].id)
  {
  }

  /** An interrupt stays what it was, unless the new approval has its key. */
  lemma PendingKept(asked: seq<Approval>, interrupts: seq<Interrupt>, approval: Approval, i: nat)
    requires Pending(asked, interrupts) && i < |interrupts|
    ensures First(asked, interrupts[i].id) < |asked|
    ensures First(asked + [approval], interrupts[i].id) == First(asked, interrupts[i].id)
    ensures interrupts[i].id != KeyOf(approval) ==> DescribesLast(interrupts[i], asked + [approval])
  {
    hide Describes, DescribesLast, First;
    DescribedAsked(interrupts[i], asked);
    FirstSnoc(asked, approval, interrupts[i].id);
    DescribesSnoc(interrupts[i], asked, approval);
  }

  /** A key without an interrupt was not asked for. */
  lemma NotAsked(asked: seq<Approval>, interrupts: seq<Interrupt>, key: string)
    requires Pending(asked, interrupts) && forall i :: 0 <= i < |interrupts| ==> interrupts[i].id != key
    ensures First(asked, key) == |asked|
  {
    hide DescribesLast, First;
    forall k | 0 <= k < |asked| ensures KeyOf(asked[k]) != key {
      var i := PendingAt(asked, interrupts, k);
    }
  }

  lemma {:induction false} PendingAll(asked: seq<Approval>, interrupts: seq<Interrupt>, more: seq<Approval>)
    requires Pending(asked, interrupts)
    ensures Pending(asked + more, RememberAll(interrupts, more))
    decreases |more|
  {
    if more == [] {
      assert asked + more == asked;
    } else {
      hide Pending;
      var init, last := more[..|more| - 1], more[|more| - 1];
      assert RememberAll(interrupts, more) == Remember(RememberAll(interrupts, init), InterruptFromApproval(last));
      SplitEnd(asked, more);
      hide *;
      PendingAll(asked, interrupts, init);
      PendingSnoc(asked + init, RememberAll(interrupts, init), last);
    }
  }

  // ---- The last error ----

  /** The message of the last error of a source. */
  function LastError(source: seq<AgentEvent>): Option<string> {
    if source == [] then None
    else match source[|source| - 1]
      case StreamError(message) => Some(if message == "" then "Agent run failed." else message)
      case _ => LastError(source[..|source| - 1])
  }

  lemma TurnKeeps(options: Options, m: Mapper, event: AgentEvent)
    ensures var next := Next(options, m, event).0;
      && next.errorMessage == (match event
                               case StreamError(message) => Some(if message == "" then "Agent run failed." else message)
                               case _ => m.errorMessage)
      && next.interrupts == (match event
                             case ApprovalRequest(approval) => Remember(m.interrupts, InterruptFromApproval(approval))
                             case AgentRunFinish(_, state) => RememberAll(m.interrupts, state.pendingApprovals)
                             case _ => m.interrupts)
      && (!event.AgentRunFinish? ==> next.terminal == m.terminal)
  {
    hide MessageId, StepName, StateJson, WithRun, PublicRunFromView, PublicRunFromState, Remember, RememberAll,
      InterruptFromApproval, TerminalPayload, CloseSteps, ImageValue, ResolvedValue, ProviderValue;
  }

  /** What the mapper remembers of a source: the pending approvals, the last error, and no end before a finish. */
  lemma {:induction false} Remembers(options: Options, source: seq<AgentEvent>)
    ensures Pending(Asked(source), After(options, source).interrupts)
    ensures After(options, source).errorMessage == LastError(source)
    ensures !HasFinish(source) ==> After(options, source).terminal.None?
  {
    if source == [] {
    } else {
      var init, last := source[..|source| - 1], source[|source| - 1];
      Remembers(options, init);
      TurnKeeps(options, After(options, init), last);
      FinishSnoc(source);
      var asked, interrupts := Asked(init), After(options, init).interrupts;
      hide Pending, Remember, RememberAll, InterruptFromApproval, Next, HasFinish;
      match last
      case ApprovalRequest(approval) => PendingSnoc(asked, interrupts, approval);
      case AgentRunFinish(_, state) => PendingAll(asked, interrupts, state.pendingApprovals);
      case _ => assert asked + [] == asked;
    }
  }

  lemma FinishSnoc(source: seq<AgentEvent>)
    requires source != []
    ensures HasFinish(source) <==> HasFinish(source[..|source| - 1]) || source[|source| - 1].AgentRunFinish?
  {
    if HasFinish(source[..|source| - 1]) {
      var i :| 0 <= i < |source| - 1 && source[..|source| - 1][i].AgentRunFinish?;
      assert source[i].AgentRunFinish?;
    }
  }

  // ---- The end ----

  /** The interrupts of a run that waits: the pending approvals, or one for the run when none is known. */
  ghost predicate Waits(options: Options, source: seq<AgentEvent>, interrupts: seq<Interrupt>) {
    if Asked(source) != [] then Pending(Asked(source), interrupts)
    else interrupts == [Interrupt(options.runId + ":approval", "Approval required.", None, None)]
  }

  /** The event ends a run whose first finish is the last event of the source. */
  ghost predicate FinishesAs<D>(options: Options, source: seq<AgentEvent>, status: AgentStatus, event: AgUiEvent<D>) {
    if status == WaitingApproval || status == Suspended then
      && event.RunFinished? && event.threadId == options.threadId && event.runId == options.runId
      && event.outcome.InterruptOutcome? && Waits(options, source, event.outcome.interrupts)
    else if status == Cancelled || status == CancelRequested then
      event == RunFinished(options.threadId, options.runId, CancelledOutcome)
    else if status == Failed || status == TimedOut then
      && event.RunError? && event.code == Some(status)
      && (LastError(source).Some? ==> event.message == LastError(source).value)
      && (LastError(source).None? ==>
            event.message == if status == Failed then "Agent run failed." else "Agent run timed_out.")
    else
      event == RunFinished(options.threadId, options.runId, SuccessOutcome)
  }

  /** The event ends a run whose source has no finish. */
  predicate StopsAs<D>(options: Options, source: seq<AgentEvent>, event: AgUiEvent<D>) {
    if LastError(source).Some? then event == RunError(LastError(source).value, None)
    else event == RunFinished(options.threadId, options.runId, SuccessOutcome)
  }

  /** The source up to its first finish, or all of it. */
  function UntilFinish(source: seq<AgentEvent>): (until: seq<AgentEvent>)
    ensures until <= source
    ensures HasFinish(source) ==> until != [] && until[|until| - 1].AgentRunFinish?
  {
    if source == [] then []
    else
      FinishSnoc(source);
      if HasFinish(source[..|source| - 1]) then UntilFinish(source[..|source| - 1]) else source
  }

  /** The first finish is where it stops. */
  lemma {:induction false} UntilFirst(source: seq<AgentEvent>, f: nat)
    requires FirstFinish(source, f)
    ensures UntilFinish(source) == source[..f + 1]
  {
    var n := |source| - 1;
    FinishSnoc(source);
    if f < n {
      assert source[..n][f] == source[f];
      assert HasFinish(source[..n]);
      UntilFirst(source[..n], f);
      assert source[..n][..f + 1] == source[..f + 1];
    } else {
      assert !HasFinish(source[..n]);
      assert source[..f + 1] == source;
    }
  }

  ghost predicate EndsAs<D>(options: Options, source: seq<AgentEvent>, event: AgUiEvent<D>) {
    var until := UntilFinish(source);
    if HasFinish(source) then FinishesAs(options, until, until[|until| - 1].status, event)
    else StopsAs(options, source, event)
  }

  function Terminals<D>(events: seq<AgUiEvent<D>>): seq<AgUiEvent<D>> {
    if events == [] then []
    else
      var last := events[|events| - 1];
      Terminals(events[..|events| - 1]) + if last.Terminal() then [last] else []
  }

  lemma {:induction false} TerminalsConcat<D>(a: seq<AgUiEvent<D>>, b: seq<AgUiEvent<D>>)
    ensures Terminals(a + b) == Terminals(a) + Terminals(b)
    decreases |b|
  {
    if b == [] {
      assert a + b == a;
    } else {
      var init, last := b[..|b| - 1], b[|b| - 1];
      var ends := if last.Terminal() then [last] else [];
      assert (a + b)[..|a + b| - 1] == a + init && (a + b)[|a + b| - 1] == last;
      TerminalsConcat(a, init);
      Associates(Terminals(a), Terminals(init), ends);
    }
  }

  lemma {:induction false} NoTerminals<D>(events: seq<AgUiEvent<D>>)
    requires forall i :: 0 <= i < |events| ==> !events[i].Terminal()
    ensures Terminals(events) == []
  {
    if events != [] {
      NoTerminals(events[..|events| - 1]);
    }
  }

  lemma {:induction false} CloseStepsNoTerminals(steps: seq<string>)
    ensures forall i :: 0 <= i < |CloseSteps(steps)| ==> !CloseSteps(steps)[i].Terminal()
  {
    if steps != [] {
      CloseStepsNoTerminals(steps[..|steps| - 1]);
    }
  }

  lemma FinishRunTerminals(options: Options, m: Mapper)
    ensures Terminals(FinishRun(options, m).1)
         == if m.sawRunFinish then [] else [TerminalEvent(options, FinalPayload(m))]
  {
    if !m.sawRunFinish {
      var quiet := CloseMessage(m).1 + CloseSteps(m.openSteps);
      var last: Event := TerminalEvent(options, FinalPayload(m));
      CloseStepsNoTerminals(m.openSteps);
      NoTerminals(quiet);
      assert [last][..0] == [] && Terminals([last]) == [] + [last];
      hide Terminals, CloseSteps, CloseMessage, TerminalEvent, FinalPayload;
      TerminalsConcat(quiet, [last]);
    }
  }

  lemma TurnTerminals(options: Options, m: Mapper, event: AgentEvent)
    requires !event.AgentRunFinish?
    ensures Terminals(Next(options, m, event).1) == [] && Next(options, m, event).0.sawRunFinish == m.sawRunFinish
  {
    hide MessageId, StepName, StateJson, WithRun, PublicRunFromView, Remember, InterruptFromApproval, ImageValue,
      ResolvedValue, ProviderValue, Terminals;
    NoTerminals(Next(options, m, event).1);
  }

  lemma RunFinishTerminals(options: Options, m: Mapper, status: AgentStatus, state: RunState)
    ensures var interrupts := RememberAll(m.interrupts, state.pendingApprovals);
      Terminals(OnRunFinish(options, m, status, state).1)
        == if m.sawRunFinish then []
           else [TerminalEvent(options, TerminalPayload(status, options, interrupts, m.errorMessage))]
  {
    hide FinishRun, TerminalPayload, RememberAll, PublicRunFromState, WithRun, StateJson, Terminals, TerminalEvent;
    var (shown, states) := EmitState(m, WithRun(m.state, options.runId, state.view.runId, PublicRunFromState(state)));
    var interrupts := RememberAll(shown.interrupts, state.pendingApprovals);
    var ready := shown.(interrupts := interrupts,
                        terminal := Some(TerminalPayload(status, options, interrupts, shown.errorMessage)));
    NoTerminals(states);
    FinishRunTerminals(options, ready);
    TerminalsConcat(states, FinishRun(options, ready).1);
  }

  lemma NoneAsked(asked: seq<Approval>, interrupts: seq<Interrupt>)
    requires Pending(asked, interrupts)
    ensures interrupts == [] <==> asked == []
  {
    if asked != [] {
      var i := PendingAt(asked, interrupts, 0);
    }
    if interrupts != [] {
      assert DescribesLast(interrupts[0], asked);
    }
  }

  lemma PayloadFinishes(options: Options, source: seq<AgentEvent>, status: AgentStatus, interrupts: seq<Interrupt>)
    requires Pending(Asked(source), interrupts)
    ensures var event: Event := TerminalEvent(options, TerminalPayload(status, options, interrupts, LastError(source)));
      FinishesAs(options, source, status, event)
  {
    hide Pending, Asked, LastError;
    NoneAsked(Asked(source), interrupts);
  }

  lemma {:induction false} TraceTerminals(options: Options, source: seq<AgentEvent>)
    ensures !HasFinish(source) ==> Terminals(Trace(options, source)) == []
    ensures HasFinish(source) ==>
      |Terminals(Trace(options, source))| == 1 && EndsAs(options, source, Terminals(Trace(options, source))[0])
  {
    if source == [] {
      NoTerminals(Trace(options, source));
    } else {
      var init, last := source[..|source| - 1], source[|source| - 1];
      var m := After(options, init);
      TraceTerminals(options, init);
      FinishSnoc(source);
      SawFinish(options, init);
      Unfold(options, source);
      assert HasFinish(init) ==> UntilFinish(source) == UntilFinish(init);
      hide Terminals, Trace, Next, FinishesAs, UntilFinish, HasFinish;
      TerminalsConcat(Trace(options, init), Next(options, m, last).1);
      if last.AgentRunFinish? {
        hide After, OnRunFinish, TerminalEvent, TerminalPayload, RememberAll;
        NextOfFinish(options, m, last.status, last.state);
        RunFinishTerminals(options, m, last.status, last.state);
        if !HasFinish(init) {
          FirstEnd(options, source);
        }
      } else {
        TurnTerminals(options, m, last);
      }
    }
  }

  lemma NextOfFinish(options: Options, m: Mapper, status: AgentStatus, state: RunState)
    ensures Next(options, m, AgentRunFinish(status, state)) == OnRunFinish(options, m, status, state)
  {
    hide OnRunFinish;
  }

  /** The first finish ends the run as it should. */
  lemma FirstEnd(options: Options, source: seq<AgentEvent>)
    requires source != [] && !HasFinish(source[..|source| - 1]) && source[|source| - 1].AgentRunFinish?
    ensures var n := |source| - 1;
      var m := After(options, source[..n]);
      var interrupts := RememberAll(m.interrupts, source[n].state.pendingApprovals);
      var e: Event := TerminalEvent(options, TerminalPayload(source[n].status, options, interrupts, m.errorMessage));
      EndsAs(options, source, e)
  {
    var n := |source| - 1;
    FinishSnoc(source);
    assert UntilFinish(source) == source;
    hide FinishesAs, TerminalEvent, TerminalPayload, RememberAll, Pending, Next, UntilFinish, HasFinish, Asked;
    Remembers(options, source[..n]);
    Remembers(options, source);
    TurnKeeps(options, After(options, source[..n]), source[n]);
    assert After(options, source) == Next(options, After(options, source[..n]), source[n]).0;
    hide After, LastError;
    PayloadFinishes(options, source, source[n].status, After(options, source).interrupts);
  }

  /**
   * The one terminal event of the output, for every source: with a finish it is told by the first one's
   * status, by the approvals asked for until then and by the last error before it; without one by the
   * last error alone.
   */
  lemma OutputEnds(options: Options, source: seq<AgentEvent>)
    ensures |Terminals(Output(options, source))| == 1
    ensures EndsAs(options, source, Terminals(Output(options, source))[0])
  {
    var m := After(options, source);
    TraceTerminals(options, source);
    SawFinish(options, source);
    Remembers(options, source);
    hide Terminals, Trace, FinishesAs, HasFinish, FinishRun, After, UntilFinish;
    FinishRunTerminals(options, m);
    TerminalsConcat(Trace(options, source), FinishRun(options, m).1);
  }
}
