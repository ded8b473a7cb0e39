/** One usable token per approval, when decisions do not overlap other calls, and why overlap breaks it. */
module ApprovalLive {
  import opened Wrappers
  import opened ApprovalStore
  import opened ApprovalLaws
  import opened ApprovalRuns

  /** A token that a decision could still use. */
  ghost predicate Live(s: Store, id: nat) {
    id < |s.records| && Stored(s, id) && !s.records[id].consumed
  }

  ghost predicate HistoryConsumed(s: Store) {
    forall id :: id in s.history ==> id < |s.records| && s.records[id].consumed
  }

  /** Publish and decide start only while no resume is under way. */
  ghost predicate NonOverlapping(steps: seq<Step>) {
    forall i :: 0 <= i < |steps| && !steps[i].SettleStep? ==> After(steps[..i]).inFlight == multiset{}
  }

  /** A usable record of the history. */
  ghost predicate Unspent(s: Store, id: nat) {
    id in s.history && id < |s.records| && !s.records[id].consumed
  }

  // ---- How the calls treat a record of the history ----

  lemma PruneUnspent(s: Store, clock: int, id: nat)
    requires WellFormed(s)
    ensures Unspent(Prune(s, clock), id) <==> Unspent(s, id) && Stored(Prune(s, clock), id)
  {
    EntriesDistinct(s);
    PrunedMembers(s, clock);
    var r := Prune(s, clock);
    if InCurrent(r, id) {
      var i :| 0 <= i < |r.current| && r.current[i].id == id;
      assert r.current[i] in r.current;
    }
  }

  lemma PublishOneUnspent(s: Store, item: QueueItem, id: nat)
    requires WellFormed(s)
    ensures Unspent(PublishOne(s, item), id) <==> Unspent(s, id) && Stored(PublishOne(s, item), id)
  {
    var key, r := ApprovalKey(item), PublishOne(s, item);
    EntriesDistinct(s);
    RetireHistory(s, key);
    PublishOneFlags(s, item);
    var previous := FindKey(s.current, key);
    if previous.Some? {
      assert InCurrent(s, previous.value);
      CapMembers(s.history + [previous.value]);
    }
    if Unspent(s, id) && InCurrent(r, id) {
      var i :| 0 <= i < |r.current| && r.current[i].id == id;
      PublishedEntries(s, item, r.current[i]);
    }
  }

  lemma {:induction false} PublishAllUnspent(s: Store, items: seq<QueueItem>, id: nat)
    requires WellFormed(s)
    ensures Unspent(PublishAll(s, items), id) <==> Unspent(s, id) && Stored(PublishAll(s, items), id)
    decreases |items|
  {
    if items != [] {
      var init := items[..|items| - 1];
      PublishAllUnspent(s, init, id);
      PublishAllCount(s, init);
      hide WellFormed, PublishOne, Stored;
      PublishAllSnoc(s, items);
      PublishOneUnspent(PublishAll(s, init), items[|items| - 1], id);
      if Unspent(s, id) && Stored(PublishAll(s, items), id) {
        PublishOneStored(PublishAll(s, init), items[|items| - 1], id);
      }
    }
  }

  lemma DetachUnspent(s: Store, owner: nat, id: nat)
    requires WellFormed(s)
    ensures Unspent(Detach(s, owner), id) <==> Unspent(s, id) && id != owner
  {
    DropFirstMembers(s.history, owner);
  }

  lemma DecideUnspent(s: Store, decision: Decision, clock: int, id: nat)
    requires WellFormed(s)
    ensures var (r, outcome) := Decide(s, decision, clock);
      Unspent(r, id) <==> Unspent(s, id) && Stored(r, id) && outcome != Resuming(id)
  {
    hide WellFormed, Prune, Decide, Detach;
    InRange(s);
    var owner := DecideShape(s, decision, clock);
    PruneUnspent(s, clock, id);
    DetachWellFormed(s, owner);
    DetachUnspent(s, owner, id);
    PruneUnspent(Detach(s, owner), clock, id);
    if Stored(Prune(Detach(s, owner), clock), id) {
      PruneStored(Detach(s, owner), clock, id);
      DetachStored(s, owner, id);
    }
    PruneKeepsRecords(s, clock);
    var (r, outcome) := Decide(s, decision, clock);
    assert outcome.Resuming? ==> (Stored(r, id) <==> Stored(Prune(s, clock), id));
  }

  /** A transient failure of a resume whose record was moved to the history meanwhile. */
  ghost predicate Revives(sys: System, step: Step) {
    step.SettleStep? && step.result.FailedTransiently? && step.id in sys.inFlight && step.id in sys.store.history
  }

  /** A decision whose resume starts for the record. */
  ghost predicate Resumes(sys: System, step: Step, id: nat)
    requires Good(sys)
  {
    step.DecideStep? && Decide(sys.store, step.decision, step.clock).1 == Resuming(id)
  }

  /** A usable record of the history was one before, or is revived by this step. */
  lemma StepUnspent(sys: System, step: Step, id: nat)
    requires Good(sys)
    ensures Unspent(Next(sys, step).store, id)
       <==> Stored(Next(sys, step).store, id)
            && ((Revives(sys, step) && step.id == id) || (Unspent(sys.store, id) && !Resumes(sys, step, id)))
  {
    match step
    case PublishStep(clock, items) =>
      PruneWellFormed(sys.store, clock);
      PruneUnspent(sys.store, clock, id);
      PublishAllUnspent(Prune(sys.store, clock), items, id);
      if Unspent(sys.store, id) && Stored(Next(sys, step).store, id) {
        PublishAllStored(Prune(sys.store, clock), items, id);
      }
    case DecideStep(decision, clock) => DecideUnspent(sys.store, decision, clock, id);
    case SettleStep(x, result) => assert Uses(sys, x) <= 1;
  }

  // ---- One live token ----

  /** What non-overlapping runs keep: the history is spent and no resume under way belongs to it. */
  ghost predicate Quiet(sys: System) {
    && HistoryConsumed(sys.store)
    && forall id :: id in sys.inFlight ==> id !in sys.store.history
  }

  lemma SpentExact(s: Store)
    requires WellFormed(s)
    ensures HistoryConsumed(s) <==> forall id: nat :: !Unspent(s, id)
  {
    forall id: nat | id in s.history ensures id < |s.records| && (s.records[id].consumed || Unspent(s, id)) {
      var i :| 0 <= i < |s.history| && s.history[i] == id;
    }
  }

  lemma StepKeepsQuiet(sys: System, step: Step)
    requires Good(sys) && Quiet(sys)
    requires !step.SettleStep? ==> sys.inFlight == multiset{}
    ensures Quiet(Next(sys, step))
  {
    StepKeepsGood(sys, step);
    SpentExact(sys.store);
    SpentExact(Next(sys, step).store);
    forall id: nat ensures !Unspent(Next(sys, step).store, id) {
      StepUnspent(sys, step, id);
    }
    if step.DecideStep? {
      ResumedNotInHistory(sys.store, step.decision, step.clock);
    }
  }

  /** While the history is spent, a record whose resume starts is not part of it. */
  lemma ResumedNotInHistory(s: Store, decision: Decision, clock: int)
    requires WellFormed(s) && HistoryConsumed(s)
    ensures var (r, outcome) := Decide(s, decision, clock); outcome.Resuming? ==> outcome.id !in r.history
  {
    hide WellFormed, Prune, Decide;
    InRange(s);
    var owner := DecideShape(s, decision, clock);
    PrunedMembers(s, clock);
  }

  lemma {:induction false} NonOverlappingQuiet(steps: seq<Step>)
    requires NonOverlapping(steps)
    ensures Quiet(After(steps))
  {
    if steps != [] {
      var init, last := steps[..|steps| - 1], steps[|steps| - 1];
      assert forall i :: 0 <= i < |init| ==> init[..i] == steps[..i];
      assert NonOverlapping(init);
      NonOverlappingQuiet(init);
      assert steps[..|steps| - 1] == init;
      StepKeepsQuiet(After(init), last);
    }
  }

  /** In any run, a live record of the live map is the newest one published for its approval. */
  lemma CurrentIsNewest(s: Store, id: nat, other: nat)
    requires WellFormed(s) && InCurrent(s, id) && other < |s.records| && id < |s.records|
    requires ApprovalKey(s.records[id].item) == ApprovalKey(s.records[other].item)
    ensures other <= id
  {
    var i :| 0 <= i < |s.current| && s.current[i].id == id;
  }

  /**
   * In any run, two live tokens of one approval mean that one of them is a record of the history
   * that is not spent. So while the history is spent, each approval has at most one live token,
   * and it is the newest one published for it.
   */
  lemma OneLiveWhileSpent(steps: seq<Step>, id: nat, other: nat)
    requires Live(After(steps).store, id)
    requires other < |After(steps).store.records|
    requires var s := After(steps).store; ApprovalKey(s.records[id].item) == ApprovalKey(s.records[other].item)
    ensures var s := After(steps).store;
      Live(s, other) && other != id ==> id in s.history || other in s.history
    ensures HistoryConsumed(After(steps).store) ==> other <= id && (Live(After(steps).store, other) ==> other == id)
  {
    var s := After(steps).store;
    if InCurrent(s, id) {
      CurrentIsNewest(s, id, other);
    }
    if Live(s, other) && InCurrent(s, other) {
      CurrentIsNewest(s, other, id);
    }
  }

  /**
   * Without overlap, all history is spent, each approval has at most one live token, and
   * it is the newest one published for it.
   */
  lemma OneLiveToken(steps: seq<Step>, id: nat, other: nat)
    requires NonOverlapping(steps)
    requires Live(After(steps).store, id)
    requires other < |After(steps).store.records|
    requires SameFields(After(steps).store.records[id].item, After(steps).store.records[other].item)
    ensures HistoryConsumed(After(steps).store)
    ensures other <= id
    ensures Live(After(steps).store, other) ==> other == id
  {
    NonOverlappingQuiet(steps);
    hide NonOverlapping, HistoryConsumed, Live;
    OneLiveWhileSpent(steps, id, other);
  }

  // ---- Overlap ----

  /**
   * In an arbitrary interleaving, the spent history survives a step exactly unless that step is a
   * transient failure of a resume whose record was moved to the history meanwhile.
   */
  lemma RevivalExact(steps: seq<Step>, step: Step)
    requires HistoryConsumed(After(steps).store)
    ensures HistoryConsumed(After(steps + [step]).store)
      <==> !Revives(After(steps), step)
  {
    AfterSnoc(steps, step);
    RevivalStep(After(steps), step);
  }

  /** The history is spent at every point of a run exactly when no step of the run is such a failure. */
  lemma {:induction false} SpentThroughoutExact(steps: seq<Step>)
    ensures (forall i :: 0 <= i <= |steps| ==> HistoryConsumed(After(steps[..i]).store))
       <==> (forall i :: 0 <= i < |steps| ==> !Revives(After(steps[..i]), steps[i]))
  {
    hide HistoryConsumed, Revives, After;
    if steps == [] {
      assert steps[..0] == [];
      NothingInHistory();
    } else {
      var n := |steps| - 1;
      SpentThroughoutExact(steps[..n]);
      assert forall i :: 0 <= i <= n ==> steps[..n][..i] == steps[..i];
      assert steps == steps[..n] + [steps[n]] && steps[..n + 1] == steps;
      if HistoryConsumed(After(steps[..n]).store) {
        RevivalExact(steps[..n], steps[n]);
      }
    }
  }

  lemma NothingInHistory()
    ensures HistoryConsumed(After([]).store)
  {
  }

  lemma RevivalStep(sys: System, step: Step)
    requires Good(sys) && HistoryConsumed(sys.store)
    ensures HistoryConsumed(Next(sys, step).store) <==> !Revives(sys, step)
  {
    StepKeepsGood(sys, step);
    SpentExact(sys.store);
    SpentExact(Next(sys, step).store);
    forall id: nat ensures Unspent(Next(sys, step).store, id) <==> Revives(sys, step) && step.id == id {
      StepUnspent(sys, step, id);
    }
    if Revives(sys, step) {
      assert Unspent(Next(sys, step).store, step.id);
    }
  }

  // ---- Two live tokens ----

  /** The record was revived while in the history, and no decision has resumed it since. */
  ghost predicate StillRevived(steps: seq<Step>, id: nat) {
    exists i :: 0 <= i < |steps| && RevivedAt(steps, i, id)
  }

  ghost predicate RevivedAt(steps: seq<Step>, i: nat, id: nat)
    requires i < |steps|
  {
    && Revives(After(steps[..i]), steps[i]) && steps[i].id == id
    && forall j :: i < j < |steps| ==> !Resumes(After(steps[..j]), steps[j], id)
  }

  lemma RevivedAtSnoc(steps: seq<Step>, i: nat, id: nat)
    requires i < |steps|
    ensures var n := |steps| - 1;
      RevivedAt(steps, i, id) <==>
        if i == n then Revives(After(steps[..n]), steps[n]) && steps[n].id == id
        else RevivedAt(steps[..n], i, id) && !Resumes(After(steps[..n]), steps[n], id)
  {
    hide Revives, Resumes, After;
    var n := |steps| - 1;
    assert forall j :: 0 <= j <= n ==> steps[..n][..j] == steps[..j];
  }

  /** What one step makes of it. */
  lemma StillRevivedSnoc(steps: seq<Step>, id: nat)
    requires steps != []
    ensures var n := |steps| - 1;
      StillRevived(steps, id) <==>
        (Revives(After(steps[..n]), steps[n]) && steps[n].id == id)
        || (StillRevived(steps[..n], id) && !Resumes(After(steps[..n]), steps[n], id))
  {
    hide Revives, Resumes, After, RevivedAt;
    var n := |steps| - 1;
    RevivedAtSnoc(steps, n, id);
    forall i | 0 <= i < n
      ensures RevivedAt(steps, i, id) <==> RevivedAt(steps[..n], i, id) && !Resumes(After(steps[..n]), steps[n], id)
    {
      RevivedAtSnoc(steps, i, id);
    }
  }

  lemma {:induction false} StillRevivedKnown(steps: seq<Step>, id: nat)
    requires StillRevived(steps, id)
    ensures id < |After(steps).store.records|
  {
    assert steps != [];
    hide Revives, Resumes, StillRevived, Next, WellFormed;
    var n := |steps| - 1;
    StillRevivedSnoc(steps, id);
    var before := After(steps[..n]);
    if StillRevived(steps[..n], id) {
      StillRevivedKnown(steps[..n], id);
    } else {
      RevivedInRange(before, steps[n]);
    }
    StepKeepsItem(before, steps[n], id);
  }

  lemma RevivedInRange(sys: System, step: Step)
    requires Good(sys) && Revives(sys, step)
    ensures step.id < |sys.store.records|
  {
    assert Uses(sys, step.id) <= 1;
  }

  /** In any run, a record of the history is usable exactly when it was revived and not resumed since. */
  lemma {:induction false} UnspentExact(steps: seq<Step>, id: nat)
    ensures Unspent(After(steps).store, id) <==> StillRevived(steps, id) && Stored(After(steps).store, id)
  {
    if steps == [] {
      assert After(steps) == START;
    } else {
      var n := |steps| - 1;
      var before := After(steps[..n]);
      UnspentExact(steps[..n], id);
      StepUnspent(before, steps[n], id);
      StillRevivedSnoc(steps, id);
      hide Revives, Resumes, StillRevived, Next, Stored, Unspent;
      if StillRevived(steps[..n], id) && Stored(After(steps).store, id) {
        StillRevivedKnown(steps[..n], id);
        StepStored(before, steps[n], id);
      }
    }
  }

  ghost predicate SameApproval(s: Store, id: nat, other: nat) {
    id != other && id < |s.records| && other < |s.records|
    && SameFields(s.records[id].item, s.records[other].item)
  }

  /**
   * In any run, two tokens of one approval are live together exactly when one of them is live and
   * the other is still stored and was revived in the history without being resumed since.
   */
  lemma TwoLiveExact(steps: seq<Step>, id: nat, other: nat)
    requires SameApproval(After(steps).store, id, other)
    ensures var s := After(steps).store;
      Live(s, id) && Live(s, other)
      <==> || (Live(s, id) && StillRevived(steps, other) && Stored(s, other))
           || (Live(s, other) && StillRevived(steps, id) && Stored(s, id))
  {
    hide StillRevived;
    UnspentExact(steps, id);
    UnspentExact(steps, other);
    if Live(After(steps).store, id) {
      OneLiveWhileSpent(steps, id, other);
    }
  }

  /** Publish, decide, publish again while the resume is under way, then let the resume fail transiently. */
  function OverlapRun(first: QueueItem, second: QueueItem, decision: Decision): seq<Step> {
    [PublishStep(0, [first]), DecideStep(decision, 0), PublishStep(0, [second]), SettleStep(0, FailedTransiently)]
  }

  function PublishedStore(first: QueueItem): Store {
    Store([Record(first, false, false)], [Entry(ApprovalKey(first), 0)], [])
  }

  function ResumingStore(first: QueueItem): Store {
    Store([Record(first, true, false)], [Entry(ApprovalKey(first), 0)], [])
  }

  function RepublishedStore(first: QueueItem, second: QueueItem): Store {
    Store([Record(first, true, false), Record(second, false, false)], [Entry(ApprovalKey(second), 1)], [0])
  }

  lemma PublishSingle(s: Store, item: QueueItem)
    requires WellFormed(s)
    ensures PublishAll(s, [item]) == PublishOne(s, item)
  {
    assert [item][..|[item]| - 1] == [];
    assert PublishAll(s, []) == s;
  }

  lemma PublishFirst(first: QueueItem)
    ensures Publish(EMPTY, 0, [first]) == PublishedStore(first)
  {
    assert Prune(EMPTY, 0) == EMPTY;
    PublishSingle(EMPTY, first);
  }

  lemma DecideFirst(first: QueueItem, decision: Decision)
    requires first.expiresAt.None?
    requires decision == Decision(first.runId, first.provider, first.approvalRequestId, first.approvalToken, None)
    ensures IdsInRange(PublishedStore(first))
    ensures Decide(PublishedStore(first), decision, 0) == (ResumingStore(first), Resuming(0))
  {
    var s := PublishedStore(first);
    var ids := Searched(s);
    assert ids == [0];
    assert ids[..|ids| - 1] == [];
    assert MatchesIn(s, [], first.approvalToken) == [];
    assert MatchesIn(s, ids, first.approvalToken) == [] + [0];
    assert s.current[..|s.current| - 1] == [];
    assert KeptEntries(s.records, 0, []) == [];
    assert KeptEntries(s.records, 0, s.current) == s.current;
    assert MovedTo(s.records, 0, [], []) == [];
    assert MovedTo(s.records, 0, s.current, []) == [];
    assert Prune(s, 0) == s;
    assert s.records[0 := Record(first, true, false)] == [Record(first, true, false)];
  }

  lemma PruneDeciding(first: QueueItem)
    requires first.expiresAt.None?
    ensures WellFormed(ResumingStore(first))
    ensures Prune(ResumingStore(first), 0) == Store([Record(first, true, false)], [], [0])
  {
    var s := ResumingStore(first);
    assert s.current[..|s.current| - 1] == [];
    assert KeptEntries(s.records, 0, []) == [];
    assert KeptEntries(s.records, 0, s.current) == [];
    assert MovedTo(s.records, 0, [], []) == [];
    var moved := MovedTo(s.records, 0, s.current, []);
    assert moved == [] + [0];
    assert moved[..|moved| - 1] == [];
    assert Unexpired(s.records, 0, []) == [];
    assert Unexpired(s.records, 0, moved) == [] + [0];
  }

  lemma PublishSecond(first: QueueItem, second: QueueItem)
    requires first.expiresAt.None? && SameFields(first, second)
    ensures WellFormed(ResumingStore(first))
    ensures Publish(ResumingStore(first), 0, [second]) == RepublishedStore(first, second)
  {
    PruneDeciding(first);
    PruneWellFormed(ResumingStore(first), 0);
    PublishSingle(Prune(ResumingStore(first), 0), second);
  }

  lemma AfterOne(first: QueueItem)
    ensures After([PublishStep(0, [first])]) == System(PublishedStore(first), multiset{}, multiset{}, multiset{})
  {
    PublishFirst(first);
    var step := PublishStep(0, [first]);
    assert [] + [step] == [step];
    AfterSnoc([], step);
  }

  lemma NextDecide(sys: System, decision: Decision, store: Store, id: nat)
    requires Good(sys) && Decide(sys.store, decision, 0) == (store, Resuming(id))
    ensures Next(sys, DecideStep(decision, 0)) == sys.(store := store, inFlight := sys.inFlight + multiset{id})
  {
  }

  lemma AfterTwoSteps(first: QueueItem, decision: Decision)
    requires first.expiresAt.None?
    requires decision == Decision(first.runId, first.provider, first.approvalRequestId, first.approvalToken, None)
    ensures After([PublishStep(0, [first])] + [DecideStep(decision, 0)])
         == System(ResumingStore(first), multiset{0}, multiset{}, multiset{})
  {
    AfterOne(first);
    DecideFirst(first, decision);
    var before := [PublishStep(0, [first])];
    AfterSnoc(before, DecideStep(decision, 0));
    NextDecide(After(before), decision, ResumingStore(first), 0);
    assert multiset{} + multiset{0} == multiset{0};
  }

  lemma AfterTwo(first: QueueItem, second: QueueItem, decision: Decision)
    requires first.expiresAt.None?
    requires decision == Decision(first.runId, first.provider, first.approvalRequestId, first.approvalToken, None)
    ensures After(OverlapRun(first, second, decision)[..2])
        == System(ResumingStore(first), multiset{0}, multiset{}, multiset{})
  {
    AfterTwoSteps(first, decision);
    assert OverlapRun(first, second, decision)[..2] == [PublishStep(0, [first])] + [DecideStep(decision, 0)];
  }

  lemma AfterThree(first: QueueItem, second: QueueItem, decision: Decision)
    requires first.expiresAt.None? && SameFields(first, second)
    requires decision == Decision(first.runId, first.provider, first.approvalRequestId, first.approvalToken, None)
    ensures After(OverlapRun(first, second, decision)[..3])
         == System(RepublishedStore(first, second), multiset{0}, multiset{}, multiset{})
  {
    var run := OverlapRun(first, second, decision);
    AfterTwo(first, second, decision);
    PublishSecond(first, second);
    AfterSnoc(run[..2], run[2]);
    assert run[..3] == run[..2] + [run[2]];
  }

  /**
   * With overlap the property fails for every approval published twice: a transient failure revives
   * the older token, which the second publish had already moved to the history.
   */
  lemma TwoLiveTokens(first: QueueItem, second: QueueItem, decision: Decision)
    requires first.expiresAt.None? && SameFields(first, second)
    requires decision == Decision(first.runId, first.provider, first.approvalRequestId, first.approvalToken, None)
    ensures var s := After(OverlapRun(first, second, decision)).store;
      && Live(s, 0) && s.records[0].item == first
      && Live(s, 1) && s.records[1].item == second
    ensures !NonOverlapping(OverlapRun(first, second, decision))
  {
    var run := OverlapRun(first, second, decision);
    AfterThree(first, second, decision);
    AfterSnoc(run[..3], run[3]);
    assert run == run[..3] + [run[3]];
    RevivedLive(first, second);
    AfterTwo(first, second, decision);
    assert 0 in After(run[..2]).inFlight;
    assert run[2].PublishStep?;
  }

  lemma RevivedLive(first: QueueItem, second: QueueItem)
    ensures var s := Settle(RepublishedStore(first, second), 0, FailedTransiently);
      Live(s, 0) && Live(s, 1) && s.records[0].item == first && s.records[1].item == second
  {
    var s := Settle(RepublishedStore(first, second), 0, FailedTransiently);
    assert s.current[0].id == 1;
    assert s.history[0] == 0;
  }
}
