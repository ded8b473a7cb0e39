/** The live transport's bounded queue between a socket and its one consumer. */
module LiveTransport {
  import opened Decimal
  import opened Wrappers

  const CAPACITY := 256
  const OVERFLOW := "Incoming queue overflow"
  const INVALID_FRAME := "Invalid JSON frame"

  /** The consumer is elsewhere, waits for a value, or was handed one it has not picked up yet. */
  datatype Consumer<V> = Idle | Waiting | Resolved(value: Option<V>)

  /** The state behind one socket. A value is None for the `undefined` that marks the end. */
  datatype Link<V> = Link(queue: seq<Option<V>>, consumer: Consumer<V>, failure: Option<string>, closed: bool)

  function Fresh<V>(): Link<V> {
    Link([], Idle, None, false)
  }

  /** What can happen next, in any order. */
  datatype Step<V> =
    | Frame(value: Option<V>)
    | Fault(error: string)
    | Close(code: nat)
    | Receive
    | Resume

  datatype Outcome<V> = Nothing | Returned(value: Option<V>) | Threw(error: string)

  function Push<V>(link: Link<V>, value: Option<V>): Link<V> {
    if link.consumer.Waiting? then link.(consumer := Resolved(value))
    else if |link.queue| < CAPACITY then link.(queue := link.queue + [value])
    else link.(failure := Some(OVERFLOW))
  }

  function CloseFailure(failure: Option<string>, code: nat): Option<string> {
    if code != 1000 && failure.None? then Some("WebSocket closed: " + Show(code)) else failure
  }

  /** There is one consumer: it receives when idle, and resumes when it was handed a value. */
  predicate Enabled<V>(link: Link<V>, step: Step<V>) {
    match step
    case Receive => link.consumer.Idle?
    case Resume => link.consumer.Resolved?
    case _ => true
  }

  function Next<V>(link: Link<V>, step: Step<V>): Link<V>
    requires Enabled(link, step)
  {
    match step
    case Frame(None) => link.(failure := Some(INVALID_FRAME))
    case Frame(Some(value)) => Push(link, Some(value))
    case Fault(error) => Push(link.(failure := Some(error)), None)
    case Close(code) => Push(link.(closed := true, failure := CloseFailure(link.failure, code)), None)
    case Receive =>
      if link.failure.Some? then link
      else if link.queue != [] then link.(queue := link.queue[1..])
      else if link.closed then link
      else link.(consumer := Waiting)
    case Resume => link.(consumer := Idle)
  }

  /** What the step gives the consumer. */
  function Gives<V>(link: Link<V>, step: Step<V>): Outcome<V>
    requires Enabled(link, step)
  {
    match step
    case Receive =>
      if link.failure.Some? then Threw(link.failure.value)
      else if link.queue != [] then Returned(link.queue[0])
      else if link.closed then Returned(None)
      else Nothing
    case Resume =>
      if link.failure.Some? then Threw(link.failure.value) else Returned(link.consumer.value)
    case _ => Nothing
  }

  // ---- The socket object ----

  /** The variables the event handlers and the consumer share. */
  class LiveSocket<V> {
    var queue: seq<Option<V>>
    var waiter: bool
    var resolved: Option<Option<V>>
    var failure: Option<string>
    var closed: bool

    ghost predicate Valid()
      reads this
    {
      waiter ==> resolved.None?
    }

    ghost function View(): Link<V>
      reads this
    {
      Link(queue, if waiter then Waiting else if resolved.Some? then Resolved(resolved.value) else Idle, failure,
          closed)
    }

    constructor ()
      ensures Valid() && View() == Fresh()
    {
      queue, waiter, resolved, failure, closed := [], false, None, None, false;
    }

    method PushValue(value: Option<V>)
      requires Valid() && (resolved.Some? ==> !waiter)
      modifies this
      ensures Valid() && View() == Push(old(View()), value)
    {
      if waiter {
        waiter := false;
        resolved := Some(value);
      } else if |queue| < CAPACITY {
        queue := queue + [value];
      } else {
        failure := Some(OVERFLOW);
      }
    }

    /** A message; `value` is None when its text is not JSON. */
    method OnMessage(value: Option<V>)
      requires Valid()
      modifies this
      ensures Valid() && View() == Next(old(View()), Frame(value))
    {
      match value {
        case Some(_) => PushValue(value);
        case None => failure := Some(INVALID_FRAME);
      }
    }

    method OnError(error: string)
      requires Valid()
      modifies this
      ensures Valid() && View() == Next(old(View()), Fault(error))
    {
      failure := Some(error);
      PushValue(None);
    }

    method OnClose(code: nat)
      requires Valid()
      modifies this
      ensures Valid() && View() == Next(old(View()), Close(code))
    {
      closed := true;
      if code != 1000 && failure.None? {
        failure := Some("WebSocket closed: " + Show(code));
      }
      PushValue(None);
    }

    /** The consumer's call, up to its wait if it has to wait. */
    method RecvJson() returns (outcome: Outcome<V>)
      requires Valid() && Enabled(View(), Receive)
      modifies this
      ensures Valid() && View() == Next(old(View()), Receive) && outcome == Gives(old(View()), Receive)
    {
      if failure.Some? {
        return Threw(failure.value);
      }
      if |queue| > 0 {
        outcome := Returned(queue[0]);
        queue := queue[1..];
      } else if closed {
        outcome := Returned(None);
      } else {
        waiter := true;
        outcome := Nothing;
      }
    }

    /** The rest of the call, once a value was handed over. */
    method RecvResume() returns (outcome: Outcome<V>)
      requires Valid() && Enabled(View(), Resume)
      modifies this
      ensures Valid() && View() == Next(old(View()), Resume) && outcome == Gives(old(View()), Resume)
    {
      outcome := if failure.Some? then Threw(failure.value) else Returned(resolved.value);
      resolved := None;
    }
  }

  // ---- Every run ----

  ghost predicate Runs<V>(steps: seq<Step<V>>)
    decreases |steps|, 0
  {
    steps == [] || (Runs(steps[..|steps| - 1]) && Enabled(After(steps[..|steps| - 1]), steps[|steps| - 1]))
  }

  ghost function After<V>(steps: seq<Step<V>>): Link<V>
    requires Runs(steps)
    decreases |steps|, 1
  {
    if steps == [] then Fresh()
    else Next(After(steps[..|steps| - 1]), steps[|steps| - 1])
  }

  /** The messages the socket brought, in order. */
  function Messages<V>(steps: seq<Step<V>>): seq<V> {
    if steps == [] then []
    else
      var step := steps[|steps| - 1];
      Messages(steps[..|steps| - 1]) + Brought(step)
  }

  /** The messages the consumer was given, in order. */
  ghost function Received<V>(steps: seq<Step<V>>): seq<V>
    requires Runs(steps)
  {
    if steps == [] then []
    else
      var before := steps[..|steps| - 1];
      Received(before) + Given(Gives(After(before), steps[|steps| - 1]))
  }

  function Given<V>(outcome: Outcome<V>): seq<V> {
    if outcome.Returned? && outcome.value.Some? then [outcome.value.value] else []
  }

  /** The messages in a list of queued values. */
  function Values<V>(queue: seq<Option<V>>): seq<V> {
    if queue == [] then []
    else (if queue[0].Some? then [queue[0].value] else []) + Values(queue[1..])
  }

  /** A message already handed over but not picked up, and then those in the queue. */
  function Pending<V>(link: Link<V>): seq<V> {
    (if link.consumer.Resolved? && link.consumer.value.Some? then [link.consumer.value.value] else [])
    + Values(link.queue)
  }

  lemma {:induction false} ValuesSnoc<V>(queue: seq<Option<V>>, value: Option<V>)
    ensures Values(queue + [value]) == Values(queue) + if value.Some? then [value.value] else []
  {
    if queue == [] {
      assert [value][1..] == [];
      assert queue + [value] == [value];
    } else {
      assert (queue + [value])[1..] == queue[1..] + [value] && (queue + [value])[0] == queue[0];
      ValuesSnoc(queue[1..], value);
      var head := if queue[0].Some? then [queue[0].value] else [];
      var last := if value.Some? then [value.value] else [];
      assert head + (Values(queue[1..]) + last) == head + Values(queue[1..]) + last;
    }
  }

  /** What every run keeps. */
  ghost predicate Sound<V>(link: Link<V>) {
    && (link.consumer.Waiting? ==> link.queue == [] && !link.closed)
    && |link.queue| <= CAPACITY
    && (!link.closed && link.failure.None? ==> forall i :: 0 <= i < |link.queue| ==> link.queue[i].Some?)
    && (!link.closed && link.failure.None? && link.consumer.Resolved? ==> link.consumer.value.Some?)
    && (link.consumer.Resolved? && link.consumer.value.None? && link.failure.None? ==> link.closed)
  }

  lemma SoundStep<V>(link: Link<V>, step: Step<V>)
    requires Sound(link) && Enabled(link, step)
    ensures Sound(Next(link, step))
  {
  }

  /**
   * A waiting consumer means an empty queue and an open socket, so a close leaves nobody waiting;
   * the queue never holds more than 256 values; an end mark means a close or an error.
   */
  lemma {:induction false} EveryRunIsSound<V>(steps: seq<Step<V>>)
    requires Runs(steps)
    ensures Sound(After(steps))
  {
    if steps != [] {
      EveryRunIsSound(steps[..|steps| - 1]);
      SoundStep(After(steps[..|steps| - 1]), steps[|steps| - 1]);
    }
  }

  function Brought<V>(step: Step<V>): seq<V> {
    if step.Frame? && step.value.Some? then [step.value.value] else []
  }

  /** A pushed value is pending behind the others. */
  lemma PushPends<V>(link: Link<V>, value: Option<V>)
    requires link.consumer.Waiting? ==> link.queue == []
    requires Push(link, value).failure.None?
    ensures Pending(Push(link, value)) == Pending(link) + if value.Some? then [value.value] else []
  {
    hide Values;
    assert Values<V>([]) == [] by {
      NoValues<V>();
    }
    ValuesSnoc(link.queue, value);
    if link.consumer.Resolved? && link.consumer.value.Some? {
      var first, last := [link.consumer.value.value], if value.Some? then [value.value] else [];
      assert first + (Values(link.queue) + last) == first + Values(link.queue) + last;
    }
  }

  lemma NoValues<V>()
    ensures Values<V>([]) == []
  {
  }

  /** One step moves messages along and loses none, unless it leaves a failure behind. */
  lemma StepConserves<V>(link: Link<V>, step: Step<V>)
    requires Sound(link) && Enabled(link, step) && link.failure.None? && Next(link, step).failure.None?
    ensures Pending(link) + Brought(step) == Given(Gives(link, step)) + Pending(Next(link, step))
  {
    match step {
      case Frame(value) =>
        PushPends(link, value);
      case Close(code) =>
        PushPends(link.(closed := true), None);
      case Fault(_) =>
      case Receive =>
        ReceiveConserves(link);
      case Resume =>
    }
  }

  lemma ReceiveConserves<V>(link: Link<V>)
    requires Sound(link) && link.consumer.Idle? && link.failure.None?
    ensures Pending(link) == Given(Gives(link, Receive)) + Pending(Next(link, Receive))
  {
    if link.queue != [] {
      assert Values(link.queue) == Given(Returned(link.queue[0])) + Values(link.queue[1..]);
    }
  }

  /** A failure is for good, and with it the consumer is given nothing more. */
  lemma FailureIsFinal<V>(link: Link<V>, step: Step<V>)
    requires Enabled(link, step) && link.failure.Some?
    ensures Next(link, step).failure.Some? && Given(Gives(link, step)) == []
    ensures step.Receive? || step.Resume? ==> Gives(link, step) == Threw(link.failure.value)
  {
  }

  /**
   * Delivery: in every run the consumer was given a prefix of the messages, in order, without gap
   * or duplicate; while there is no failure, the missing rest is exactly what is still pending.
   */
  lemma {:induction false} Delivery<V>(steps: seq<Step<V>>)
    requires Runs(steps)
    ensures Received(steps) <= Messages(steps)
    ensures After(steps).failure.None? ==> Messages(steps) == Received(steps) + Pending(After(steps))
  {
    if steps == [] {
      NoValues<V>();
    } else {
      hide Sound, Pending, Next, Gives, Enabled;
      var before, step := steps[..|steps| - 1], steps[|steps| - 1];
      Delivery(before);
      EveryRunIsSound(before);
      var link := After(before);
      if link.failure.Some? {
        FailureIsFinal(link, step);
      } else if Next(link, step).failure.None? {
        StepConserves(link, step);
        Shift(Received(before), Pending(link), Brought(step), Given(Gives(link, step)), Pending(After(steps)));
      } else {
        NothingGivenOnFailure(link, step);
      }
    }
  }

  lemma Shift<V>(received: seq<V>, pending: seq<V>, brought: seq<V>, given: seq<V>, later: seq<V>)
    requires pending + brought == given + later
    ensures received + pending + brought == received + given + later
  {
    assert received + pending + brought == received + (pending + brought);
  }

  lemma NothingGivenOnFailure<V>(link: Link<V>, step: Step<V>)
    requires Enabled(link, step) && link.failure.None? && Next(link, step).failure.Some?
    ensures Given(Gives(link, step)) == []
  {
  }

  /** No message after a close. */
  ghost predicate QuietAfterClose<V>(steps: seq<Step<V>>) {
    forall i, j :: 0 <= i < j < |steps| && steps[i].Close? ==> !steps[j].Frame?
  }

  /** End marks stand behind every message that is still pending. */
  ghost predicate MarksLast<V>(link: Link<V>) {
    && (!link.closed ==> forall i :: 0 <= i < |link.queue| ==> link.queue[i].Some?)
    && (forall i, j :: 0 <= i < j < |link.queue| && link.queue[i].None? ==> link.queue[j].None?)
    && (link.consumer.Resolved? && link.consumer.value.None? ==> forall i :: 0 <= i < |link.queue| ==>
        link.queue[i].None?)
  }

  lemma {:induction false} AllMarks<V>(queue: seq<Option<V>>)
    requires forall i :: 0 <= i < |queue| ==> queue[i].None?
    ensures Values(queue) == []
  {
    if queue != [] {
      AllMarks(queue[1..]);
    }
  }

  lemma {:induction false} ClosedByClose<V>(steps: seq<Step<V>>)
    requires Runs(steps) && After(steps).closed
    ensures exists i :: 0 <= i < |steps| && steps[i].Close?
  {
    var before, step := steps[..|steps| - 1], steps[|steps| - 1];
    if !step.Close? {
      ClosedByClose(before);
      var i :| 0 <= i < |before| && before[i].Close?;
      assert steps[i].Close?;
    }
  }

  lemma MarksStep<V>(link: Link<V>, step: Step<V>)
    requires Sound(link) && MarksLast(link) && Enabled(link, step)
    requires Next(link, step).failure.None? && link.failure.None? && !(link.closed && step.Frame?)
    ensures MarksLast(Next(link, step))
  {
  }

  lemma {:induction false} MarksStayLast<V>(steps: seq<Step<V>>)
    requires Runs(steps) && QuietAfterClose(steps) && After(steps).failure.None?
    ensures MarksLast(After(steps))
  {
    if steps != [] {
      var before, step := steps[..|steps| - 1], steps[|steps| - 1];
      var link := After(before);
      if link.failure.Some? {
        FailureIsFinal(link, step);
      }
      EveryRunIsSound(before);
      MarksStayLast(before);
      if link.closed {
        ClosedByClose(before);
        var i :| 0 <= i < |before| && before[i].Close?;
        assert steps[i].Close?;
      }
      hide Sound, MarksLast, Next, Enabled, QuietAfterClose;
      MarksStep(link, step);
    }
  }

  /**
   * When no message follows the close, the end mark tells the truth: a consumer that is given it
   * was given every message before.
   */
  lemma EndMeansAll<V>(steps: seq<Step<V>>)
    requires Runs(steps) && steps != [] && QuietAfterClose(steps)
    requires Gives(After(steps[..|steps| - 1]), steps[|steps| - 1]) == Returned(None)
    ensures Received(steps) == Messages(steps)
  {
    var before, step := steps[..|steps| - 1], steps[|steps| - 1];
    var link := After(before);
    assert QuietAfterClose(before);
    if link.failure.Some? {
      FailureIsFinal(link, step);
    }
    MarksStayLast(before);
    Delivery(steps);
    hide MarksLast, Pending;
    NothingPendingAtEnd(link, step);
  }

  lemma NothingPendingAtEnd<V>(link: Link<V>, step: Step<V>)
    requires Enabled(link, step) && MarksLast(link) && Gives(link, step) == Returned(None)
    ensures link.failure.None? && Pending(Next(link, step)) == []
  {
    if step.Receive? && link.queue != [] {
      AllMarks(link.queue[1..]);
    } else {
      AllMarks(link.queue);
    }
  }

  // ---- A clean close ----

  function Receives<V>(k: nat): (steps: seq<Step<V>>)
    ensures |steps| == k && forall i :: 0 <= i < k ==> steps[i].Receive?
  {
    seq(k, i => Receive)
  }

  /** What the consumer does after a close: it picks up what it was handed, and receives until the end mark. */
  function PickUp<V>(link: Link<V>): seq<Step<V>> {
    if link.consumer.Waiting? then [Resume]
    else (if link.consumer.Resolved? then [Resume] else []) + Receives(|link.queue| + 1)
  }

  lemma AfterSnoc<V>(steps: seq<Step<V>>, step: Step<V>)
    requires Runs(steps) && Enabled(After(steps), step)
    ensures Runs(steps + [step]) && After(steps + [step]) == Next(After(steps), step)
    ensures Received(steps + [step]) == Received(steps) + Given(Gives(After(steps), step))
    ensures LastGiven(steps + [step]) == Gives(After(steps), step)
  {
    assert (steps + [step])[..|steps|] == steps;
  }

  /** What the last step of a run gave the consumer. */
  ghost function LastGiven<V>(steps: seq<Step<V>>): Outcome<V>
    requires Runs(steps) && steps != []
  {
    Gives(After(steps[..|steps| - 1]), steps[|steps| - 1])
  }

  /** After a failure no continuation gives the consumer anything, and no call returns. */
  lemma {:induction false} NothingAfterFailure<V>(steps: seq<Step<V>>, more: seq<Step<V>>)
    requires Runs(steps) && After(steps).failure.Some? && Runs(steps + more)
    ensures After(steps + more).failure.Some? && Received(steps + more) == Received(steps)
    ensures more != [] ==> !LastGiven(steps + more).Returned?
    decreases |more|
  {
    if more == [] {
      assert steps + more == steps;
    } else {
      var init, step := more[..|more| - 1], more[|more| - 1];
      assert (steps + more)[..|steps + more| - 1] == steps + init && (steps + more)[|steps + more| - 1] == step;
      NothingAfterFailure(steps, init);
      FailureIsFinal(After(steps + init), step);
    }
  }

  lemma FailedReceivesRun<V>(steps: seq<Step<V>>, k: nat)
    requires Runs(steps) && After(steps).failure.Some? && After(steps).consumer.Idle?
    ensures Runs(steps + Receives(k)) && After(steps + Receives(k)) == After(steps)
    ensures k > 0 ==> LastGiven(steps + Receives(k)) == Threw(After(steps).failure.value)
  {
    if k == 0 {
      assert steps + Receives(0) == steps;
    } else {
      FailedReceivesRun(steps, k - 1);
      assert steps + Receives(k) == (steps + Receives(k - 1)) + [Receive];
      AfterSnoc(steps + Receives(k - 1), Receive);
    }
  }

  lemma ReceiveTakes<V>(link: Link<V>)
    requires link.consumer.Idle? && link.failure.None? && link.queue != []
    ensures Enabled(link, Receive) && Next(link, Receive) == link.(queue := link.queue[1..])
    ensures Gives(link, Receive) == Returned(link.queue[0])
  {
  }

  lemma MoreReceives<V>(steps: seq<Step<V>>, k: nat)
    requires k > 0
    ensures steps + Receives(k) == (steps + Receives(k - 1)) + [Receive]
  {
  }

  /** Receiving from a queue takes it from the front. */
  lemma {:induction false} ReceivesTake<V>(steps: seq<Step<V>>, k: nat)
    requires Runs(steps) && After(steps).consumer.Idle? && After(steps).failure.None?
    requires k <= |After(steps).queue|
    ensures Runs(steps + Receives(k))
    ensures After(steps + Receives(k)) == After(steps).(queue := After(steps).queue[k..])
    ensures k > 0 ==> LastGiven(steps + Receives(k)) == Returned(After(steps).queue[k - 1])
  {
    hide Runs, After, Received, LastGiven, Next, Gives, Enabled, Receives;
    if k == 0 {
      assert Receives<V>(0) == [] && steps + Receives(0) == steps;
    } else {
      ReceivesTake(steps, k - 1);
      var before := steps + Receives(k - 1);
      ReceiveTakes(After(before));
      MoreReceives(steps, k);
      AfterSnoc(before, Receive);
    }
  }

  /** Nothing is pending once the queue is empty and the consumer idle, so everything was received. */
  lemma AllReceived<V>(steps: seq<Step<V>>)
    requires Runs(steps) && After(steps).failure.None? && After(steps).consumer.Idle? && After(steps).queue == []
    ensures Received(steps) == Messages(steps)
  {
    NoValues<V>();
    Delivery(steps);
    assert Pending(After(steps)) == [];
  }

  lemma {:induction false} NoFrames<V>(steps: seq<Step<V>>, more: seq<Step<V>>)
    requires forall i :: 0 <= i < |more| ==> !more[i].Frame?
    ensures Messages(steps + more) == Messages(steps)
    decreases |more|
  {
    if more == [] {
      assert steps + more == steps;
    } else {
      assert (steps + more)[..|steps + more| - 1] == steps + more[..|more| - 1];
      NoFrames(steps, more[..|more| - 1]);
    }
  }

  /** A clean close with room for the end mark, and the pick-up of what was handed over. */
  lemma Closes<V>(before: seq<Step<V>>) returns (idle: seq<Step<V>>)
    requires Runs(before) && After(before).failure.None? && !After(before).closed && !After(before).consumer.Waiting?
    requires |After(before).queue| < CAPACITY
    ensures Runs(idle) && After(idle).consumer.Idle?
    ensures After(idle) == Link(After(before).queue + [None], Idle, None, true)
    ensures before + [Close(1000)] + PickUp(After(before)) == idle + Receives(|After(before).queue| + 1)
  {
    var link, closed := After(before), before + [Close(1000)];
    AfterSnoc(before, Close(1000));
    if link.consumer.Resolved? {
      AfterSnoc(closed, Resume);
    }
    hide Runs, After, Received, LastGiven;
    var rest := Receives<V>(|link.queue| + 1);
    idle := if link.consumer.Resolved? then closed + [Resume] else closed;
    assert closed + ([Resume] + rest) == closed + [Resume] + rest && [] + rest == rest;
  }

  lemma CloseWakes<V>(before: seq<Step<V>>)
    requires Runs(before) && After(before).failure.None? && After(before).consumer.Waiting? && After(before).queue == []
    ensures var steps := before + [Close(1000)] + [Resume];
      && Runs(steps) && LastGiven(steps) == Returned(None)
      && After(steps).failure.None? && After(steps).consumer.Idle? && After(steps).queue == []
  {
    AfterSnoc(before, Close(1000));
    AfterSnoc(before + [Close(1000)], Resume);
  }

  lemma QuietPickUp<V>(before: seq<Step<V>>, link: Link<V>)
    ensures Messages(before + [Close(1000)] + PickUp(link)) == Messages(before)
  {
    var more := [Close(1000)] + PickUp(link);
    assert before + more == before + [Close(1000)] + PickUp(link);
    NoFrames(before, more);
  }

  /** Room for the end mark: the consumer picks up everything and then the mark. */
  lemma CleanCloseDelivers<V>(before: seq<Step<V>>)
    requires Runs(before) && After(before).failure.None? && !After(before).closed
    requires After(before).consumer.Waiting? || |After(before).queue| < CAPACITY
    ensures var steps := before + [Close(1000)] + PickUp(After(before));
      Runs(steps) && Received(steps) == Messages(before) && LastGiven(steps) == Returned(None)
  {
    hide Runs, After, Received, LastGiven, Messages, PickUp;
    if After(before).consumer.Waiting? {
      WaitingDelivers(before);
    } else {
      IdleDelivers(before);
    }
  }

  lemma WaitingDelivers<V>(before: seq<Step<V>>)
    requires Runs(before) && After(before).failure.None? && After(before).consumer.Waiting?
    ensures var steps := before + [Close(1000)] + PickUp(After(before));
      Runs(steps) && Received(steps) == Messages(before) && LastGiven(steps) == Returned(None)
  {
    EveryRunIsSound(before);
    hide Runs, After, Received, LastGiven, Messages;
    QuietPickUp(before, After(before));
    CloseWakes(before);
    AllReceived(before + [Close(1000)] + [Resume]);
  }

  lemma IdleDelivers<V>(before: seq<Step<V>>)
    requires Runs(before) && After(before).failure.None? && !After(before).closed && !After(before).consumer.Waiting?
    requires |After(before).queue| < CAPACITY
    ensures var steps := before + [Close(1000)] + PickUp(After(before));
      Runs(steps) && Received(steps) == Messages(before) && LastGiven(steps) == Returned(None)
  {
    hide Runs, After, Received, LastGiven, Messages, PickUp, Receives;
    QuietPickUp(before, After(before));
    var idle := Closes(before);
    ReceivesTake(idle, |After(before).queue| + 1);
    AllReceived(idle + Receives(|After(before).queue| + 1));
  }

  /** A close fails the link when its code is not 1000, or when there is no room for the end mark. */
  predicate CloseFails<V>(link: Link<V>, code: nat) {
    code != 1000 || (!link.consumer.Waiting? && |link.queue| >= 256)
  }

  function CloseError<V>(link: Link<V>, code: nat): string {
    if !link.consumer.Waiting? && |link.queue| >= 256 then "Incoming queue overflow"
    else "WebSocket closed: " + Show(code)
  }

  /** After a close that fails, no continuation gives the consumer anything of what was pending. */
  lemma CloseLoses<V>(before: seq<Step<V>>, code: nat, more: seq<Step<V>>)
    requires Runs(before) && After(before).failure.None? && CloseFails(After(before), code)
    requires Runs(before + [Close(code)] + more)
    ensures Received(before + [Close(code)] + more) == Received(before)
    ensures more != [] ==> !LastGiven(before + [Close(code)] + more).Returned?
  {
    AfterSnoc(before, Close(code));
    assert Received(before + [Close(code)]) == Received(before) + [];
    NothingAfterFailure(before + [Close(code)], more);
  }

  /** The failing close, with what was handed over picked up if there was something. */
  lemma FailedClose<V>(before: seq<Step<V>>, code: nat) returns (idle: seq<Step<V>>)
    requires Runs(before) && After(before).failure.None? && !After(before).consumer.Waiting?
    requires CloseFails(After(before), code)
    ensures Runs(idle) && After(idle).consumer.Idle? && After(idle).failure == Some(CloseError(After(before), code))
    ensures before + [Close(code)] + PickUp(After(before)) == idle + Receives(|After(before).queue| + 1)
  {
    var link, closed := After(before), before + [Close(code)];
    AfterSnoc(before, Close(code));
    if link.consumer.Resolved? {
      AfterSnoc(closed, Resume);
    }
    hide Runs, After, Received, LastGiven;
    var rest := Receives<V>(|link.queue| + 1);
    idle := if link.consumer.Resolved? then closed + [Resume] else closed;
    assert closed + ([Resume] + rest) == closed + [Resume] + rest && [] + rest == rest;
  }

  lemma FailedCloseWakes<V>(before: seq<Step<V>>, code: nat)
    requires Runs(before) && After(before).failure.None? && After(before).consumer.Waiting? && code != 1000
    ensures var steps := before + [Close(code)] + [Resume];
      Runs(steps) && LastGiven(steps) == Threw("WebSocket closed: " + Show(code))
  {
    AfterSnoc(before, Close(code));
    AfterSnoc(before + [Close(code)], Resume);
  }

  /** The pick-up after a failing close loses everything pending and throws the close's error. */
  lemma CloseThrows<V>(before: seq<Step<V>>, code: nat)
    requires Runs(before) && After(before).failure.None? && CloseFails(After(before), code)
    ensures var steps := before + [Close(code)] + PickUp(After(before));
      && Runs(steps) && Received(steps) == Received(before)
      && LastGiven(steps) == Threw(CloseError(After(before), code))
  {
    var link := After(before);
    if link.consumer.Waiting? {
      FailedCloseWakes(before, code);
    } else {
      hide Runs, After, Received, LastGiven, Receives, CloseFails, CloseError;
      var idle := FailedClose(before, code);
      FailedReceivesRun(idle, |link.queue| + 1);
    }
    hide Runs, After, Received, LastGiven;
    CloseLoses(before, code, PickUp(link));
  }

  /**
   * A close, in any run that is open and without failure: the consumer can pick up every message and then
   * the end mark if and only if the code is 1000 and it waits or fewer than 256 values are queued.
   * Otherwise nothing that was pending ever reaches it, and it is thrown the error of the close.
   */
  lemma CloseExact<V>(before: seq<Step<V>>, code: nat)
    requires Runs(before) && After(before).failure.None? && !After(before).closed
    ensures var link, steps := After(before), before + [Close(code)] + PickUp(After(before));
      && Runs(steps)
      && (LastGiven(steps) == Returned(None) <==> code == 1000 && (link.consumer.Waiting? || |link.queue| < 256))
      && (LastGiven(steps) == Returned(None) ==> Received(steps) == Messages(before))
      && (LastGiven(steps) != Returned(None) ==>
            Received(steps) == Received(before) && LastGiven(steps) == Threw(CloseError(link, code)))
  {
    var link := After(before);
    if CloseFails(link, code) {
      CloseThrows(before, code);
    } else {
      CleanCloseDelivers(before);
    }
  }

  /** What makes a link fail, and the error it then keeps. */
  function Failing<V>(link: Link<V>, step: Step<V>): Option<string> {
    if step.Receive? || step.Resume? then None
    else if step == Frame(None) then Some("Invalid JSON frame")
    else if !link.consumer.Waiting? && |link.queue| >= 256 then Some("Incoming queue overflow")
    else if step.Fault? then Some(step.error)
    else if step.Close? && step.code != 1000 && link.failure.None? then Some("WebSocket closed: " + Show(step.code))
    else None
  }

  /** The last failure in a run: an invalid frame, a full queue, a socket error or the first abnormal close. */
  ghost function LastFailure<V>(steps: seq<Step<V>>): Option<string>
    requires Runs(steps)
  {
    if steps == [] then None
    else
      var before := steps[..|steps| - 1];
      var error := Failing(After(before), steps[|steps| - 1]);
      if error.Some? then error else LastFailure(before)
  }

  /** A link has failed exactly when some step of its run failed, and its error is that of the last one. */
  lemma {:induction false} FailureExact<V>(steps: seq<Step<V>>)
    requires Runs(steps)
    ensures After(steps).failure == LastFailure(steps)
  {
    if steps != [] {
      FailureExact(steps[..|steps| - 1]);
    }
  }

  // ---- Messages, a clean close, receives ----

  function FramesOf<V>(values: seq<V>): seq<Step<V>> {
    if values == [] then []
    else FramesOf(values[..|values| - 1]) + [Frame(Some(values[|values| - 1]))]
  }

  lemma FrameQueued<V>(link: Link<V>, value: V)
    requires link.consumer.Idle? && |link.queue| < CAPACITY
    ensures Enabled(link, Frame(Some(value)))
    ensures Next(link, Frame(Some(value))) == link.(queue := link.queue + [Some(value)])
    ensures Given(Gives(link, Frame(Some(value)))) == []
  {
  }

  lemma MessagesSnoc<V>(steps: seq<Step<V>>, step: Step<V>)
    ensures Messages(steps + [step]) == Messages(steps) + Brought(step)
  {
    assert (steps + [step])[..|steps|] == steps;
  }

  lemma NothingYet<V>()
    ensures Runs<V>([]) && After<V>([]) == Fresh() && Received<V>([]) == [] && Messages<V>([]) == []
  {
  }

  /** Messages that nobody waits for are queued while there is room. */
  lemma {:induction false} FramesQueue<V>(values: seq<V>)
    requires |values| <= CAPACITY
    ensures Runs(FramesOf(values)) && Messages(FramesOf(values)) == values && Received(FramesOf(values)) == []
    ensures var link := After(FramesOf(values));
      link.consumer.Idle? && link.failure.None? && !link.closed && |link.queue| == |values|
  {
    hide Runs, After, Received, Messages, Next, Gives, Enabled, LastGiven;
    NothingYet<V>();
    if values != [] {
      var n := |values| - 1;
      FramesQueue(values[..n]);
      var before := FramesOf(values[..n]);
      FrameQueued(After(before), values[n]);
      AfterSnoc(before, Frame(Some(values[n])));
      MessagesSnoc(before, Frame(Some(values[n])));
      assert values == values[..n] + [values[n]];
    }
  }

  /**
   * At most 256 messages, then a clean close, then one receive more than there were messages: all
   * of them and the end mark arrive if there were fewer than 256; of 256 messages none arrives.
   */
  lemma FramesThenClose<V>(values: seq<V>)
    requires |values| <= CAPACITY
    ensures var steps := FramesOf(values) + [Close(1000)] + Receives(|values| + 1);
      && Runs(steps)
      && (|values| < CAPACITY ==> Received(steps) == values && LastGiven(steps) == Returned(None))
      && (|values| == CAPACITY ==> Received(steps) == [] && !LastGiven(steps).Returned?)
  {
    hide Runs, After, Received, Messages, LastGiven, FramesOf, Receives;
    FramesQueue(values);
    var before := FramesOf(values);
    IdlePickUp(After(before));
    if |values| < CAPACITY {
      CleanCloseDelivers(before);
    } else {
      CloseThrows(before, 1000);
    }
  }

  lemma IdlePickUp<V>(link: Link<V>)
    requires link.consumer.Idle?
    ensures PickUp(link) == Receives(|link.queue| + 1)
  {
    assert [] + Receives<V>(|link.queue| + 1) == Receives(|link.queue| + 1);
  }
}
