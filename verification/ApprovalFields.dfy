/** What publish and decide do to the live records, told by run, provider and approval id. */
module ApprovalFields {
  import opened Wrappers
  import opened ApprovalStore
  import opened ApprovalLaws
  import opened ApprovalRuns
  import opened TokenCompare

  // ---- The key of an approval ----

  /** Run id and provider hold no NUL. */
  predicate Plain(item: QueueItem) {
    '\0' !in item.runId && '\0' !in item.provider
  }

  /** A text up to its first NUL can be told from the rest. */
  lemma SameFront(a: string, b: string, x: string, y: string)
    requires '\0' !in a && '\0' !in b && a + "\0" + x == b + "\0" + y
    ensures a == b && x == y
  {
    FirstNul(a, x);
    FirstNul(b, y);
    var s, t := a + "\0" + x, b + "\0" + y;
    assert |a| == |b|;
    assert a == s[..|a|] && b == t[..|a|];
    assert x == s[|a| + 1..] && y == t[|a| + 1..];
  }

  lemma FirstNul(a: string, x: string)
    requires '\0' !in a
    ensures var s := a + "\0" + x; s[|a|] == '\0' && forall i :: 0 <= i < |a| ==> s[i] != '\0'
  {
    assert forall i :: 0 <= i < |a| ==> a[i] in a;
  }

  /** Two approvals have the same key exactly when run, provider and approval id agree. */
  lemma KeyExact(a: QueueItem, b: QueueItem)
    requires Plain(a) && Plain(b)
    ensures ApprovalKey(a) == ApprovalKey(b) <==> SameFields(a, b)
  {
    if ApprovalKey(a) == ApprovalKey(b) {
      var x, y := a.provider + "\0" + a.approvalRequestId, b.provider + "\0" + b.approvalRequestId;
      assert ApprovalKey(a) == a.runId + "\0" + x && ApprovalKey(b) == b.runId + "\0" + y;
      SameFront(a.runId, b.runId, x, y);
      SameFront(a.provider, b.provider, a.approvalRequestId, b.approvalRequestId);
    }
  }

  /** With a NUL in a name, two approvals that differ can share a key. */
  lemma KeyCollides(approvalRequestId: string, token: Token, other: Token)
    ensures var a := QueueItem("run\0x", "p", approvalRequestId, token, None);
      var b := QueueItem("run", "x\0p", approvalRequestId, other, None);
      !SameFields(a, b) && ApprovalKey(a) == ApprovalKey(b)
  {
    assert "run\0x" + "\0" + "p" == "run" + "\0" + "x\0p";
  }

  // ---- Live records ----

  /** A usable record of the live map. */
  ghost predicate LiveInMap(s: Store, id: nat) {
    id < |s.records| && InCurrent(s, id) && !s.records[id].consumed && !s.records[id].superseded
  }

  ghost predicate PlainStore(s: Store) {
    forall id :: 0 <= id < |s.records| ==> Plain(s.records[id].item)
  }

  lemma InCurrentEntry(s: Store, id: nat)
    requires WellFormed(s) && id < |s.records|
    ensures InCurrent(s, id) <==> Entry(ApprovalKey(s.records[id].item), id) in s.current
  {
    if InCurrent(s, id) {
      var i :| 0 <= i < |s.current| && s.current[i].id == id;
      assert s.current[i] in s.current;
    }
    if Entry(ApprovalKey(s.records[id].item), id) in s.current {
      var i :| 0 <= i < |s.current| && s.current[i] == Entry(ApprovalKey(s.records[id].item), id);
    }
  }

  /** Publishing one item: exactly the live record of the same key is retired. */
  lemma PublishOneByKey(s: Store, item: QueueItem, id: nat)
    requires WellFormed(s) && LiveInMap(s, id)
    ensures id < |PublishOne(s, item).records|
    ensures var r, key := PublishOne(s, item), ApprovalKey(s.records[id].item);
      if key == ApprovalKey(item) then
        r.records[id] == s.records[id].(consumed := true, superseded := true) && !InCurrent(r, id)
      else r.records[id] == s.records[id] && InCurrent(r, id)
  {
    var r, key, own := PublishOne(s, item), ApprovalKey(item), ApprovalKey(s.records[id].item);
    InCurrentEntry(s, id);
    PublishOneWellFormed(s, item);
    PublishedRecords(s, item);
    EntriesDistinct(s);
    PublishedEntries(s, item, Entry(own, id));
    PublishOneItems(s, item);
    InCurrentEntry(r, id);
    var previous := FindKey(s.current, key);
    if key == own {
      FoundKey(s, key, id);
    } else if previous.Some? {
      assert Entry(key, previous.value) in s.current;
    }
  }

  lemma FoundKey(s: Store, key: string, id: nat)
    requires WellFormed(s) && Entry(key, id) in s.current
    ensures FindKey(s.current, key) == Some(id)
  {
    EntriesDistinct(s);
    var i :| 0 <= i < |s.current| && s.current[i] == Entry(key, id);
    var previous := FindKey(s.current, key);
    if previous.Some? {
      assert Entry(key, previous.value) in s.current;
    }
  }

  /**
   * Publishing an item supersedes a live record exactly when run, provider and approval id agree; every
   * other live record stays live in the map. The new record is live.
   */
  lemma PublishOneExact(s: Store, item: QueueItem, id: nat)
    requires WellFormed(s) && LiveInMap(s, id) && Plain(s.records[id].item) && Plain(item)
    ensures var r := PublishOne(s, item);
      && id < |r.records|
      && (r.records[id].superseded <==> SameFields(s.records[id].item, item))
      && (LiveInMap(r, id) <==> !SameFields(s.records[id].item, item))
      && r.records[id].item == s.records[id].item
  {
    KeyExact(s.records[id].item, item);
    PublishOneByKey(s, item, id);
  }

  lemma PublishedIsLive(s: Store, item: QueueItem)
    requires WellFormed(s)
    ensures var r := PublishOne(s, item);
      |r.records| == |s.records| + 1 && LiveInMap(r, |s.records|) && r.records[|s.records|].item == item
  {
    var r, e := PublishOne(s, item), Entry(ApprovalKey(item), |s.records|);
    PublishOneWellFormed(s, item);
    PublishedRecords(s, item);
    PublishedEntries(s, item, e);
    InCurrentEntry(r, |s.records|);
  }

  ghost predicate Republished(items: seq<QueueItem>, item: QueueItem) {
    exists k :: 0 <= k < |items| && SameFields(item, items[k])
  }

  lemma RepublishedSnoc(items: seq<QueueItem>, item: QueueItem)
    requires items != []
    ensures Republished(items, item)
       <==> Republished(items[..|items| - 1], item) || SameFields(item, items[|items| - 1])
  {
    var n := |items| - 1;
    if Republished(items[..n], item) {
      var k :| 0 <= k < n && SameFields(item, items[..n][k]);
      assert SameFields(item, items[k]);
    }
  }

  /** What is not live in the map does not become so by publishing. */
  lemma PublishOneDead(s: Store, item: QueueItem, id: nat)
    requires WellFormed(s) && id < |s.records| && !LiveInMap(s, id)
    ensures !LiveInMap(PublishOne(s, item), id)
    ensures id < |PublishOne(s, item).records|
    ensures s.records[id].superseded ==> PublishOne(s, item).records[id].superseded
  {
    var r := PublishOne(s, item);
    PublishOneFlags(s, item);
    if InCurrent(r, id) {
      var i :| 0 <= i < |r.current| && r.current[i].id == id;
      PublishedEntries(s, item, r.current[i]);
    }
  }

  /** One more item, for a record in any state. */
  lemma PublishOneTurn(s: Store, item: QueueItem, id: nat)
    requires WellFormed(s) && id < |s.records| && Plain(s.records[id].item) && Plain(item)
    requires s.records[id].superseded || LiveInMap(s, id)
    ensures var r := PublishOne(s, item);
      && id < |r.records| && r.records[id].item == s.records[id].item
      && (LiveInMap(r, id) <==> LiveInMap(s, id) && !SameFields(s.records[id].item, item))
      && (r.records[id].superseded <==> s.records[id].superseded || SameFields(s.records[id].item, item))
  {
    PublishOneKeepsItem(s, item, id);
    hide WellFormed, PublishOne, SameFields, Plain;
    if LiveInMap(s, id) {
      PublishOneExact(s, item, id);
    } else {
      PublishOneDead(s, item, id);
    }
  }

  lemma {:induction false} PublishAllExact(s: Store, items: seq<QueueItem>, id: nat)
    requires WellFormed(s) && LiveInMap(s, id) && Plain(s.records[id].item)
    requires forall k :: 0 <= k < |items| ==> Plain(items[k])
    ensures var r := PublishAll(s, items);
      && id < |r.records| && r.records[id].item == s.records[id].item
      && (LiveInMap(r, id) <==> !Republished(items, s.records[id].item))
      && (r.records[id].superseded <==> Republished(items, s.records[id].item))
    decreases |items|
  {
    if items != [] {
      var init, last := items[..|items| - 1], items[|items| - 1];
      PublishAllExact(s, init, id);
      PublishAllSnoc(s, items);
      RepublishedSnoc(items, s.records[id].item);
      hide WellFormed, PublishOne, PublishAll, Republished, SameFields, Plain, LiveInMap;
      PublishOneTurn(PublishAll(s, init), last, id);
    }
  }

  lemma PublishOneKeepsItem(s: Store, item: QueueItem, id: nat)
    requires WellFormed(s) && id < |s.records|
    ensures id < |PublishOne(s, item).records| && PublishOne(s, item).records[id].item == s.records[id].item
  {
    PublishedRecords(s, item);
  }

  lemma PruneLive(s: Store, clock: int, id: nat)
    requires WellFormed(s) && LiveInMap(s, id)
    ensures Prune(s, clock).records == s.records
    ensures LiveInMap(Prune(s, clock), id) <==> !Lapsed(s.records[id].item, clock)
    ensures Lapsed(s.records[id].item, clock) ==> !Stored(Prune(s, clock), id)
  {
    var r, e := Prune(s, clock), Entry(ApprovalKey(s.records[id].item), id);
    PruneWellFormed(s, clock);
    PrunedMembers(s, clock);
    PruneKeepsRecords(s, clock);
    EntriesDistinct(s);
    InCurrentEntry(s, id);
    InCurrentEntry(r, id);
  }

  /**
   * A publish call, with any items: a live record that has not expired stays live in the map exactly when
   * no item of the call has its run, provider and approval id; otherwise it is superseded.
   */
  lemma PublishExact(s: Store, clock: int, items: seq<QueueItem>, id: nat)
    requires WellFormed(s) && LiveInMap(s, id) && Plain(s.records[id].item)
    requires forall k :: 0 <= k < |items| ==> Plain(items[k])
    requires !Lapsed(s.records[id].item, clock)
    ensures var r := Publish(s, clock, items);
      && id < |r.records|
      && (LiveInMap(r, id) <==> !Republished(items, s.records[id].item))
      && (r.records[id].superseded <==> Republished(items, s.records[id].item))
  {
    PruneWellFormed(s, clock);
    PruneLive(s, clock, id);
    hide WellFormed, Prune, LiveInMap, Republished;
    PublishAllExact(Prune(s, clock), items, id);
  }

  lemma {:induction false} PublishAllAppend(s: Store, a: seq<QueueItem>, b: seq<QueueItem>)
    requires WellFormed(s)
    ensures PublishAll(s, a + b) == PublishAll(PublishAll(s, a), b)
    decreases |b|
  {
    if b == [] {
      assert a + b == a;
    } else {
      var mid := PublishAll(s, a);
      SplitEnd(a, b);
      assert (a + b)[..|a + b| - 1] == a + b[..|b| - 1] && (a + b)[|a + b| - 1] == b[|b| - 1];
      PublishAllAppend(s, a, b[..|b| - 1]);
      PublishAllSnoc(s, a + b);
      PublishAllSnoc(mid, b);
    }
  }

  lemma Around<T>(items: seq<T>, k: nat)
    requires k < |items|
    ensures var head := items[..k + 1];
      head[..|head| - 1] == items[..k] && head[|head| - 1] == items[k] && head + items[k + 1..] == items
  {
  }

  /** An item, and then the later ones of the call. */
  lemma LiveUnlessLater(s: Store, item: QueueItem, later: seq<QueueItem>)
    requires WellFormed(s) && Plain(item) && forall j :: 0 <= j < |later| ==> Plain(later[j])
    ensures WellFormed(PublishOne(s, item))
    ensures var r, id := PublishAll(PublishOne(s, item), later), |s.records|;
      && id < |r.records| && r.records[id].item == item
      && (LiveInMap(r, id) <==> !Republished(later, item))
  {
    PublishOneWellFormed(s, item);
    PublishedIsLive(s, item);
    hide WellFormed, PublishOne, PublishAll, Republished, Plain;
    PublishAllExact(PublishOne(s, item), later, |s.records|);
  }

  lemma PublishAllAround(s: Store, items: seq<QueueItem>, k: nat)
    requires WellFormed(s) && k < |items|
    ensures var mid := PublishAll(s, items[..k]);
      && |mid.records| == |s.records| + k
      && WellFormed(PublishOne(mid, items[k]))
      && PublishAll(s, items) == PublishAll(PublishOne(mid, items[k]), items[k + 1..])
  {
    var head := items[..k + 1];
    Around(items, k);
    PublishAllSnoc(s, head);
    PublishOneWellFormed(PublishAll(s, items[..k]), items[k]);
    PublishAllCount(s, items[..k]);
    hide *;
    PublishAllAppend(s, head, items[k + 1..]);
  }

  /** Each published item is live after the call, unless a later one of the call is for the same approval. */
  lemma PublishedAllLive(s: Store, items: seq<QueueItem>, k: nat)
    requires WellFormed(s) && k < |items| && forall j :: 0 <= j < |items| ==> Plain(items[j])
    ensures var r, id := PublishAll(s, items), |s.records| + k;
      && id < |r.records| && r.records[id].item == items[k]
      && (LiveInMap(r, id) <==> !Republished(items[k + 1..], items[k]))
  {
    hide *;
    PublishAllAround(s, items, k);
    LiveUnlessLater(PublishAll(s, items[..k]), items[k], items[k + 1..]);
  }

  lemma PublishParts(s: Store, clock: int, items: seq<QueueItem>)
    requires WellFormed(s)
    ensures IdsInRange(s) && WellFormed(Prune(s, clock)) && |Prune(s, clock).records| == |s.records|
    ensures Publish(s, clock, items) == PublishAll(Prune(s, clock), items)
  {
    InRange(s);
    PruneWellFormed(s, clock);
    PruneKeepsRecords(s, clock);
    hide WellFormed, Prune, PublishAll;
  }

  /** The same for the whole call. */
  lemma PublishedLive(s: Store, clock: int, items: seq<QueueItem>, k: nat)
    requires WellFormed(s) && k < |items| && forall j :: 0 <= j < |items| ==> Plain(items[j])
    ensures var r, id := Publish(s, clock, items), |s.records| + k;
      && id < |r.records| && r.records[id].item == items[k]
      && (LiveInMap(r, id) <==> !Republished(items[k + 1..], items[k]))
  {
    hide *;
    PublishParts(s, clock, items);
    PublishedAllLive(Prune(s, clock), items, k);
  }

  // ---- Decisions ----

  /** A decision: a live record that has not expired stays live in the map exactly when it is not resumed. */
  lemma DecideLive(s: Store, decision: Decision, clock: int, id: nat)
    requires WellFormed(s) && LiveInMap(s, id) && !Lapsed(s.records[id].item, clock)
    ensures var (r, outcome) := Decide(s, decision, clock); LiveInMap(r, id) <==> outcome != Resuming(id)
  {
    InRange(s);
    PruneLive(s, clock, id);
    var owner := DecideOwner(s, decision, clock);
    DetachWellFormed(s, owner);
    DetachLive(s, owner, id);
    if owner != id {
      PruneLive(Detach(s, owner), clock, id);
    }
    hide WellFormed, Prune, Detach, Stored, Decide;
    var (r, outcome) := Decide(s, decision, clock);
    assert outcome.Resuming? ==> InCurrent(r, id) == InCurrent(Prune(s, clock), id);
  }

  lemma DetachLive(s: Store, owner: nat, id: nat)
    requires WellFormed(s) && LiveInMap(s, id)
    ensures Detach(s, owner).records == s.records
    ensures LiveInMap(Detach(s, owner), id) <==> id != owner
  {
    var r := Detach(s, owner);
    DropIdMembers(s.current, owner);
    if id != owner {
      var i :| 0 <= i < |s.current| && s.current[i].id == id;
      assert s.current[i] in r.current;
    }
    if InCurrent(r, id) {
      var i :| 0 <= i < |r.current| && r.current[i].id == id;
      assert r.current[i] in r.current;
    }
  }

  predicate Untouched(outcome: Outcome) {
    outcome == Rejected(Invalid) || outcome == Rejected(AmbiguousToken) || outcome == Rejected(CrossRun)
  }

  /** The store each outcome leaves, and that only an expired record is taken out. */
  lemma DecideOwner(s: Store, decision: Decision, clock: int) returns (owner: nat)
    requires IdsInRange(s)
    ensures IdsInRange(Detach(s, owner))
    ensures var (r, outcome) := Decide(s, decision, clock);
      match outcome
      case Rejected(ExpiredToken) =>
        r == Prune(Detach(s, owner), clock) && owner < |s.records| && Lapsed(s.records[owner].item, clock)
      case Rejected(_) => r == if Untouched(outcome) then s else Prune(s, clock)
      case Resuming(x) =>
        x < |s.records| && !s.records[x].consumed
        && r == Prune(s, clock).(records := s.records[x := s.records[x].(consumed := true)])
  {
    hide WellFormed;
    owner := 0;
    DetachInRange(s, owner);
    if decision.Decision? && ReasonAllowed(decision.reason) {
      var found := TokenMatches(s, decision.approvalToken);
      MatchMembers(s, Searched(s), decision.approvalToken);
      if |found| == 1 {
        owner := found[0];
        assert owner in found;
        DetachInRange(s, owner);
      }
    }
  }

  /** A decision is refused as invalid exactly when it is malformed or its reason is no text of at most 1000. */
  lemma InvalidExact(s: Store, decision: Decision, clock: int)
    requires IdsInRange(s)
    ensures Decide(s, decision, clock).1 == Rejected(Invalid)
      <==> decision.Malformed? || !ReasonFits(decision.reason)
    ensures Decide(s, decision, clock).1 == Rejected(Invalid) ==> Decide(s, decision, clock).0 == s
  {
    hide Prune, Detach;
  }

  // ---- Steps and runs ----

  /** The items a run publishes are plain. */
  ghost predicate PlainSteps(steps: seq<Step>) {
    forall i, k :: 0 <= i < |steps| && steps[i].PublishStep? && 0 <= k < |steps[i].items| ==> Plain(steps[i].items[k])
  }

  /** Publishing, deciding: the step runs by a clock. */
  predicate LapsedAt(item: QueueItem, step: Step) {
    match step
    case PublishStep(clock, _) => Lapsed(item, clock)
    case DecideStep(_, clock) => Lapsed(item, clock)
    case SettleStep(_, _) => false
  }

  /** The step publishes the same approval anew, or starts the record's own resume. */
  ghost predicate Ends(sys: System, step: Step, id: nat)
    requires Good(sys) && id < |sys.store.records|
  {
    match step
    case PublishStep(_, items) => Republished(items, sys.store.records[id].item)
    case DecideStep(decision, clock) => Decide(sys.store, decision, clock).1 == Resuming(id)
    case SettleStep(_, _) => false
  }

  /**
   * In any interleaving, a live record that has not expired stays live in the map through a step exactly
   * unless the step publishes its own approval anew or starts its own resume. So nothing that is done to
   * other approvals or with other tokens touches it.
   */
  lemma LiveStepExact(sys: System, step: Step, id: nat)
    requires Good(sys) && LiveInMap(sys.store, id) && PlainStore(sys.store) && PlainSteps([step])
    requires !LapsedAt(sys.store.records[id].item, step)
    ensures LiveInMap(Next(sys, step).store, id) <==> !Ends(sys, step, id)
  {
    match step
    case PublishStep(clock, items) =>
      forall k | 0 <= k < |items| ensures Plain(items[k]) {
        assert [step][0] == step;
      }
      hide *;
      PublishExact(sys.store, clock, items, id);
    case DecideStep(decision, clock) => DecideLive(sys.store, decision, clock, id);
    case SettleStep(x, result) => SettleLive(sys, x, result, id);
  }

  lemma SettleLive(sys: System, x: nat, result: ResumeResult, id: nat)
    requires Good(sys) && LiveInMap(sys.store, id)
    ensures LiveInMap(Next(sys, SettleStep(x, result)).store, id)
  {
    assert Uses(sys, x) <= 1;
  }

  lemma {:induction false} PlainRecords(steps: seq<Step>)
    requires PlainSteps(steps)
    ensures PlainStore(After(steps).store)
  {
    if steps != [] {
      var n := |steps| - 1;
      assert PlainSteps(steps[..n]);
      PlainRecords(steps[..n]);
      StepItems(After(steps[..n]), steps[n]);
      hide Next, Good, Plain, PlainStore;
      PlainMore(After(steps[..n]).store, After(steps).store, if steps[n].PublishStep? then steps[n].items else []);
    }
  }

  lemma PlainMore(s: Store, r: Store, items: seq<QueueItem>)
    requires PlainStore(s) && Items(r.records) == Items(s.records) + items
    requires forall k :: 0 <= k < |items| ==> Plain(items[k])
    ensures PlainStore(r)
  {
    hide Plain;
    forall id | 0 <= id < |r.records| ensures Plain(r.records[id].item) {
      assert Items(r.records)[id] == r.records[id].item;
      if id < |s.records| {
        assert Items(s.records)[id] == s.records[id].item;
      } else {
        assert Items(r.records)[id] == items[id - |s.records|];
      }
    }
  }

  /** After the run the record is live in the map. */
  ghost predicate LiveAfter(steps: seq<Step>, id: nat) {
    LiveInMap(After(steps).store, id)
  }

  /** At every point of the continuation the record is live in the map. */
  ghost predicate LiveThroughout(steps: seq<Step>, more: seq<Step>, id: nat) {
    forall i :: 0 <= i <= |more| ==> LiveAfter(steps + more[..i], id)
  }

  /** At no point of the continuation a step publishes the record's approval anew or starts its resume. */
  ghost predicate NeverEnds(steps: seq<Step>, more: seq<Step>, id: nat) {
    forall i :: 0 <= i < |more| ==>
      id < |After(steps + more[..i]).store.records| && !Ends(After(steps + more[..i]), more[i], id)
  }

  lemma ThroughoutSnoc(steps: seq<Step>, more: seq<Step>, id: nat)
    requires more != []
    ensures LiveThroughout(steps, more, id) <==>
        LiveThroughout(steps, more[..|more| - 1], id) && LiveAfter(steps + more, id)
  {
    hide LiveAfter;
    var n := |more| - 1;
    assert forall i :: 0 <= i <= n ==> more[..n][..i] == more[..i];
    assert more[..|more|] == more;
  }

  lemma NeverEndsSnoc(steps: seq<Step>, more: seq<Step>, id: nat)
    requires more != []
    ensures var n := |more| - 1;
      NeverEnds(steps, more, id) <==>
        NeverEnds(steps, more[..n], id)
        && id < |After(steps + more[..n]).store.records| && !Ends(After(steps + more[..n]), more[n], id)
  {
    hide After, Ends;
    var n := |more| - 1;
    assert forall i :: 0 <= i <= n ==> more[..n][..i] == more[..i];
    assert forall i :: 0 <= i < n ==> more[..n][i] == more[i];
  }

  /**
   * Over any continuation of any run that stays before its expiry, a live record stays live throughout
   * exactly when no step of it publishes its approval anew or starts its resume.
   */
  lemma {:induction false} LiveRunExact(steps: seq<Step>, more: seq<Step>, id: nat)
    requires PlainSteps(steps + more) && LiveAfter(steps, id)
    requires forall i :: 0 <= i < |more| ==> !LapsedAt(After(steps).store.records[id].item, more[i])
    ensures LiveThroughout(steps, more, id) <==> NeverEnds(steps, more, id)
    ensures LiveThroughout(steps, more, id) ==>
      LiveAfter(steps + more, id)
      && After(steps + more).store.records[id].item == After(steps).store.records[id].item
    decreases |more|
  {
    if more == [] {
      assert steps + more[..0] == steps && steps + more == steps;
    } else {
      var init, last := more[..|more| - 1], more[|more| - 1];
      SplitEnd(steps, more);
      assert PlainSteps(steps + init) && PlainSteps([last]) by { PlainParts(steps + init, last); }
      LiveRunExact(steps, init, id);
      ThroughoutSnoc(steps, more, id);
      NeverEndsSnoc(steps, more, id);
      hide *;
      if LiveThroughout(steps, init, id) {
        PlainRecords(steps + init);
        RunTurn(steps + init, last, id);
      }
    }
  }

  lemma RunTurn(steps: seq<Step>, last: Step, id: nat)
    requires PlainSteps([last]) && PlainStore(After(steps).store) && LiveAfter(steps, id)
    requires !LapsedAt(After(steps).store.records[id].item, last)
    ensures id < |After(steps + [last]).store.records|
    ensures LiveAfter(steps + [last], id) <==> !Ends(After(steps), last, id)
    ensures After(steps + [last]).store.records[id].item == After(steps).store.records[id].item
  {
    AfterSnoc(steps, last);
    hide Next, Good, Ends, PlainSteps, PlainStore, LapsedAt, After;
    LiveStepExact(After(steps), last, id);
    StepKeepsItem(After(steps), last, id);
  }

  lemma PlainParts(steps: seq<Step>, last: Step)
    requires PlainSteps(steps + [last])
    ensures PlainSteps(steps) && PlainSteps([last])
  {
    hide Plain;
    var all := steps + [last];
    forall i, k | 0 <= i < |steps| && steps[i].PublishStep? && 0 <= k < |steps[i].items|
      ensures Plain(steps[i].items[k])
    {
      assert all[i] == steps[i];
    }
    assert all[|steps|] == last;
  }

  // ---- The history ----

  /** What is in the history before the limit is applied. */
  lemma PrunedHistoryExact(s: Store, clock: int, id: nat)
    requires WellFormed(s) && id < |s.records|
    ensures id in PrunedHistory(s, clock)
       <==> !Lapsed(s.records[id].item, clock) && (id in s.history || (InCurrent(s, id) && s.records[id].consumed))
  {
    MovedInRange(s, clock);
    var moved := MovedTo(s.records, clock, s.current, s.history);
    MovedMembers(s.records, clock, s.current, s.history);
    UnexpiredMembers(s.records, clock, moved);
  }

  /** The history a prune leaves is the newest 64 of these. */
  lemma PrunedHistoryNewest(s: Store, clock: int)
    requires WellFormed(s)
    ensures var all, kept := PrunedHistory(s, clock), Prune(s, clock).history;
      && kept == all[|all| - |kept|..]
      && |kept| == if |all| > 64 then 64 else |all|
  {
  }

  lemma {:induction false} MovedCount(records: seq<Record>, clock: int, current: seq<Entry>, history: seq<nat>)
    requires forall i :: 0 <= i < |current| ==> current[i].id < |records|
    ensures |MovedTo(records, clock, current, history)| <= |current| + |history|
  {
    if current != [] {
      MovedCount(records, clock, current[..|current| - 1], history);
    }
  }

  lemma {:induction false} UnexpiredCount(records: seq<Record>, clock: int, history: seq<nat>)
    requires forall i :: 0 <= i < |history| ==> history[i] < |records|
    ensures |Unexpired(records, clock, history)| <= |history|
  {
    if history != [] {
      UnexpiredCount(records, clock, history[..|history| - 1]);
    }
  }

  /**
   * As long as not more than 64 records are stored, a prune loses exactly the expired ones: a used token
   * can still be told to have been used.
   */
  lemma PruneKeepsStored(s: Store, clock: int, id: nat)
    requires WellFormed(s) && id < |s.records| && |s.current| + |s.history| <= 64
    ensures Stored(Prune(s, clock), id) <==> Stored(s, id) && !Lapsed(s.records[id].item, clock)
  {
    MovedInRange(s, clock);
    MovedCount(s.records, clock, s.current, s.history);
    UnexpiredCount(s.records, clock, MovedTo(s.records, clock, s.current, s.history));
    PrunedHistoryExact(s, clock, id);
    PruneWellFormed(s, clock);
    PrunedMembers(s, clock);
    InCurrentEntry(s, id);
    InCurrentEntry(Prune(s, clock), id);
    assert Prune(s, clock).history == PrunedHistory(s, clock);
  }
}
