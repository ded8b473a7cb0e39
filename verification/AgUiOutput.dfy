/** The laws of the mapper's events, carried over to the emitted ones, whose deltas are diffs. */
module AgUiOutput {
  import opened Wrappers
  import opened AgUiEvents
  import opened AgUiRuns
  import opened AgUiContent
  import opened AgUiNesting
  import opened AgUiOutcome
  import opened AgUiReplay
  import opened AgUiShown
  import opened JsonPatch

  lemma RealizesInit(emitted: seq<Emitted>, events: seq<Event>)
    requires RealizesAll(emitted, events)
    ensures |emitted| == |events|
    ensures var n := |events| - 1;
      events != [] ==> RealizesAll(emitted[..n], events[..n]) && Realizes(emitted[n], events[n])
  {
    hide Realizes;
  }

  lemma ReadEnd<D>(events: seq<AgUiEvent<D>>)
    requires events != []
    ensures var init, last := events[..|events| - 1], events[|events| - 1];
      && ReadAll(events) == ReadAll(init) + Read(last)
      && Texts(events) == Texts(init) + if last.TextMessageContent? then [last.delta] else []
  {
    hide Read;
  }

  lemma ReadNone<D>()
    ensures ReadAll<D>([]) == [] && Texts<D>([]) == []
  {
  }

  lemma TerminalsEnd<D>(events: seq<AgUiEvent<D>>)
    requires events != []
    ensures var init, last := events[..|events| - 1], events[|events| - 1];
      Terminals(events) == Terminals(init) + if last.Terminal() then [last] else []
  {
  }

  lemma {:induction false} SameRead(emitted: seq<Emitted>, events: seq<Event>)
    requires RealizesAll(emitted, events)
    ensures ReadAll(emitted) == ReadAll(events)
    ensures Texts(emitted) == Texts(events)
  {
    hide *;
    RealizesInit(emitted, events);
    if events == [] {
      ReadNone<Change>();
      ReadNone<seq<Op>>();
    } else {
      var n := |events| - 1;
      SameOne(emitted[n], events[n]);
      ReadEnd(emitted);
      ReadEnd(events);
      SameRead(emitted[..n], events[..n]);
    }
  }

  lemma SameOne(e: Emitted, event: Event)
    requires Realizes(e, event)
    ensures Read(e) == Read(event)
    ensures e.TextMessageContent? == event.TextMessageContent? && (e.TextMessageContent? ==> e.delta == event.delta)
    ensures e.TextMessageEnd? == event.TextMessageEnd? && (e.TextMessageEnd? ==> e.messageId == event.messageId)
    ensures e.ToolCallStart? == event.ToolCallStart?
    ensures e.ToolCallStart? ==> e.parentMessageId == event.parentMessageId
    ensures e.Terminal() == event.Terminal() && (event.Terminal() ==> e == Retype(event))
  {
    hide ReadCustom, ReadStep;
  }

  lemma SameStacked(e: Emitted, event: Event)
    requires Realizes(e, event)
    ensures forall stack :: Stacked(stack, e) == Stacked(stack, event)
  {
  }

  lemma {:induction false} SameStack(emitted: seq<Emitted>, events: seq<Event>)
    requires RealizesAll(emitted, events)
    ensures Stack(emitted) == Stack(events)
  {
    RealizesInit(emitted, events);
    if events != [] {
      hide Read, Realizes, RealizesAll, Stacked;
      var n := |events| - 1;
      SameStacked(emitted[n], events[n]);
      SameStack(emitted[..n], events[..n]);
    }
  }

  lemma {:induction false} SameParents(emitted: seq<Emitted>, events: seq<Event>)
    requires RealizesAll(emitted, events)
    ensures ParentsRight(emitted) <==> ParentsRight(events)
    ensures LastClosed(emitted) == LastClosed(events)
  {
    RealizesInit(emitted, events);
    if events != [] {
      hide *;
      var n := |events| - 1;
      SameOne(emitted[n], events[n]);
      assert emitted == emitted[..n] + [emitted[n]] && events == events[..n] + [events[n]];
      SameParents(emitted[..n], events[..n]);
      ParentsSnoc(emitted[..n], emitted[n]);
      ParentsSnoc(events[..n], events[n]);
    }
  }

  lemma {:induction false} SameTerminals(emitted: seq<Emitted>, events: seq<Event>)
    requires RealizesAll(emitted, events)
    ensures |Terminals(emitted)| == |Terminals(events)|
    ensures forall i :: 0 <= i < |Terminals(events)| ==>
      Terminals(events)[i].Terminal() && Terminals(emitted)[i] == Retype(Terminals(events)[i])
  {
    RealizesInit(emitted, events);
    if events != [] {
      hide *;
      var n := |events| - 1;
      SameOne(emitted[n], events[n]);
      TerminalsEnd(emitted);
      TerminalsEnd(events);
      SameTerminals(emitted[..n], events[..n]);
    }
  }

  lemma SameEnd(options: Options, source: seq<AgentEvent>, event: Event)
    requires event.Terminal() && EndsAs(options, source, event)
    ensures EndsAs(options, source, Retype(event))
  {
    hide Waits, LastError, UntilFinish;
  }

  /** The step law of a whole output. */
  ghost predicate StepsNested<D>(events: seq<AgUiEvent<D>>, source: seq<AgentEvent>) {
    if SourceStack(source).Some? then Stack(events) == if HasFinish(source) then SourceStack(source) else Some([])
    else Stack(events).None?
  }

  /** The end law of a whole output. */
  ghost predicate EndsOnce<D>(events: seq<AgUiEvent<D>>, options: Options, source: seq<AgentEvent>) {
    |Terminals(events)| == 1 && EndsAs(options, source, Terminals(events)[0])
  }

  /** What a client holds that replayed a whole output. */
  ghost predicate HoldsRuns(client: Client, options: Options, source: seq<AgentEvent>) {
    if FirstRun(source).None? then client == Waiting
    else client.Holding? && ShowsRuns(client.document, options, source)
  }

  lemma ReadLaws(options: Options, source: seq<AgentEvent>, out: seq<Emitted>)
    requires RealizesAll(out, Output(options, source))
    ensures ReadAll(out) == Whole(source) && Texts(out) == Deltas(source)
  {
    hide *;
    SameRead(out, Output(options, source));
    OutputTells(options, source);
    TextsExact(options, source);
  }

  lemma NestLaws(options: Options, source: seq<AgentEvent>, out: seq<Emitted>)
    requires RealizesAll(out, Output(options, source))
    ensures ParentsRight(out) && StepsNested(out, source)
  {
    hide Output, ParentsRight, LastClosed, Stack, SourceStack, HasFinish, RealizesAll;
    SameParents(out, Output(options, source));
    SameStack(out, Output(options, source));
    OutputParents(options, source);
    OutputNested(options, source);
  }

  lemma EndLaws(options: Options, source: seq<AgentEvent>, out: seq<Emitted>)
    requires RealizesAll(out, Output(options, source))
    ensures EndsOnce(out, options, source)
  {
    hide Output, Terminals, EndsAs, RealizesAll, Retype;
    var events := Output(options, source);
    SameTerminals(out, events);
    OutputEnds(options, source);
    SameEnd(options, source, Terminals(events)[0]);
  }

  lemma ShowLaws(options: Options, source: seq<AgentEvent>, out: seq<Emitted>)
    requires |out| == |Output(options, source)| && InStep(out, Output(options, source), |out|)
    ensures HoldsRuns(Replay(out), options, source)
  {
    var events := Output(options, source);
    assert out[..|out|] == out && events[..|out|] == events;
    hide Output, Replay, Shown, ShowsRuns, FirstRun;
    OutputShows(options, source);
  }

  lemma ContentLaws(options: Options, source: seq<AgentEvent>, out: seq<Emitted>)
    requires RealizesAll(out, Output(options, source))
    ensures ReadAll(out) == Whole(source) && Texts(out) == Deltas(source)
    ensures ParentsRight(out) && StepsNested(out, source) && EndsOnce(out, options, source)
    ensures InStep(out, Output(options, source), |out|) ==> HoldsRuns(Replay(out), options, source)
  {
    RealizesInit(out, Output(options, source));
    hide *;
    ReadLaws(options, source, out);
    NestLaws(options, source, out);
    EndLaws(options, source, out);
    if InStep(out, Output(options, source), |out|) {
      ShowLaws(options, source, out);
    }
  }
}
