/** The approval session under an arbitrary scheduler: publish, decide up to the resume, and the resume's end. */
module ApprovalRuns {
  import opened Wrappers
  import opened ApprovalStore
  import opened ApprovalLaws

  datatype Step =
    | PublishStep(clock: int, items: seq<QueueItem>)
    | DecideStep(decision: Decision, clock: int)
    | SettleStep(id: nat, result: ResumeResult)

  /** The store, and for each record how many resumes are under way, succeeded and failed for good. */
  datatype System = System(store: Store, inFlight: multiset<nat>, succeeded: multiset<nat>, failed: multiset<nat>)

  const START := System(EMPTY, multiset{}, multiset{}, multiset{})

  function Uses(sys: System, id: nat): nat {
    sys.inFlight[id] + sys.succeeded[id] + sys.failed[id]
  }

  /** A record is in use at most once, and a record in use is consumed and not superseded. */
  ghost predicate UsedOnce(sys: System) {
    forall id: nat {:trigger Uses(sys, id)} ::
      && Uses(sys, id) <= 1
      && (Uses(sys, id) == 1 ==>
          id < |sys.store.records| && sys.store.records[id].consumed && !sys.store.records[id].superseded)
  }

  ghost predicate Good(sys: System) {
    WellFormed(sys.store) && UsedOnce(sys)
  }

  // ---- What a call does to the flags of one record ----

  /** A record keeps its flags, or an unused one is retired. */
  predicate Retired(before: Record, after: Record) {
    after == before || (!before.consumed && after == before.(consumed := true, superseded := true))
  }

  lemma PublishOneFlags(s: Store, item: QueueItem)
    requires WellFormed(s)
    ensures var r := PublishOne(s, item);
      && |r.records| == |s.records| + 1
      && r.records[|s.records|].item == item
      && forall id :: 0 <= id < |s.records| ==> Retired(s.records[id], r.records[id])
  {
    RetireHistory(s, ApprovalKey(item));
  }

  ghost function PublishAll(s: Store, items: seq<QueueItem>): (r: Store)
    requires WellFormed(s)
    ensures WellFormed(r)
    decreases |items|
  {
    if items == [] then s
    else
      var r := PublishAll(s, items[..|items| - 1]);
      PublishOneWellFormed(r, items[|items| - 1]);
      PublishOne(r, items[|items| - 1])
  }

  lemma {:induction false} PublishAllCount(s: Store, items: seq<QueueItem>)
    requires WellFormed(s)
    ensures |PublishAll(s, items).records| == |s.records| + |items|
    decreases |items|
  {
    if items != [] {
      PublishAllCount(s, items[..|items| - 1]);
    }
  }

  lemma {:induction false} PublishAllFlags(s: Store, items: seq<QueueItem>, id: nat)
    requires WellFormed(s) && id < |s.records|
    ensures id < |PublishAll(s, items).records| && Retired(s.records[id], PublishAll(s, items).records[id])
    decreases |items|
  {
    if items != [] {
      var init := items[..|items| - 1];
      PublishAllFlags(s, init, id);
      PublishOneFlags(PublishAll(s, init), items[|items| - 1]);
    }
  }

  /** The published items behind the records. */
  function Items(records: seq<Record>): seq<QueueItem> {
    seq(|records|, i requires 0 <= i < |records| => records[i].item)
  }

  lemma PublishOneItems(s: Store, item: QueueItem)
    requires WellFormed(s)
    ensures Items(PublishOne(s, item).records) == Items(s.records) + [item]
  {
    RetireHistory(s, ApprovalKey(item));
  }

  lemma Append<T>(a: seq<T>, b: seq<T>)
    requires b != []
    ensures a + b[..|b| - 1] + [b[|b| - 1]] == a + b
  {
  }

  lemma PublishAllSnoc(s: Store, items: seq<QueueItem>)
    requires WellFormed(s) && items != []
    ensures IdsInRange(PublishAll(s, items[..|items| - 1]))
    ensures PublishAll(s, items) == PublishOne(PublishAll(s, items[..|items| - 1]), items[|items| - 1])
  {
    InRange(PublishAll(s, items[..|items| - 1]));
  }

  lemma {:induction false} PublishAllItems(s: Store, items: seq<QueueItem>)
    requires WellFormed(s)
    ensures Items(PublishAll(s, items).records) == Items(s.records) + items
    decreases |items|
  {
    if items == [] {
      assert PublishAll(s, items) == s;
    } else {
      hide WellFormed, Items, PublishOne, PublishAll;
      var init, last := items[..|items| - 1], items[|items| - 1];
      PublishAllItems(s, init);
      PublishAllSnoc(s, items);
      PublishOneItems(PublishAll(s, init), last);
      Append(Items(s.records), items);
    }
  }

  ghost function Publish(s: Store, clock: int, items: seq<QueueItem>): Store
    requires WellFormed(s)
  {
    PruneWellFormed(s, clock);
    PublishAll(Prune(s, clock), items)
  }

  // ---- Steps and runs ----

  /** One step of the scheduler. Settling a record that has no resume under way does nothing. */
  ghost function Next(sys: System, step: Step): System
    requires Good(sys)
  {
    match step
    case PublishStep(clock, items) => sys.(store := Publish(sys.store, clock, items))
    case DecideStep(decision, clock) =>
      var (store, outcome) := Decide(sys.store, decision, clock);
      sys.(store := store,
           inFlight := sys.inFlight + if outcome.Resuming? then multiset{outcome.id} else multiset{})
    case SettleStep(id, result) =>
      if id !in sys.inFlight then sys
      else
        assert Uses(sys, id) == 1;
        System(Settle(sys.store, id, result), sys.inFlight - multiset{id},
               sys.succeeded + if result.Resumed? then multiset{id} else multiset{},
               sys.failed + if result.FailedFinally? then multiset{id} else multiset{})
  }

  lemma PublishKeepsGood(sys: System, clock: int, items: seq<QueueItem>)
    requires Good(sys)
    ensures Good(Next(sys, PublishStep(clock, items)))
  {
    var next := Next(sys, PublishStep(clock, items));
    PruneWellFormed(sys.store, clock);
    PublishAllCount(Prune(sys.store, clock), items);
    forall id: nat
      ensures Uses(next, id) <= 1
      ensures Uses(next, id) == 1 ==>
        id < |next.store.records| && next.store.records[id].consumed && !next.store.records[id].superseded
    {
      assert Uses(next, id) == Uses(sys, id);
      if id < |sys.store.records| {
        PublishAllFlags(Prune(sys.store, clock), items, id);
      }
    }
  }

  lemma DecideKeepsGood(sys: System, decision: Decision, clock: int)
    requires Good(sys)
    ensures Good(Next(sys, DecideStep(decision, clock)))
  {
    var next := Next(sys, DecideStep(decision, clock));
    DecideWellFormed(sys.store, decision, clock);
    DecideFlags(sys.store, decision, clock);
    forall id: nat
      ensures Uses(next, id) <= 1
      ensures Uses(next, id) == 1 ==>
        id < |next.store.records| && next.store.records[id].consumed && !next.store.records[id].superseded
    {
      assert Uses(sys, id) <= 1;
    }
  }

  lemma SettleKeepsGood(sys: System, id: nat, result: ResumeResult)
    requires Good(sys)
    ensures Good(Next(sys, SettleStep(id, result)))
  {
    if id in sys.inFlight {
      var next := Next(sys, SettleStep(id, result));
      assert Uses(sys, id) == 1;
      FlagsWellFormed(sys.store, id, sys.store.records[id].(consumed := !result.FailedTransiently?));
      assert sys.store.records[id := sys.store.records[id]] == sys.store.records;
      forall x: nat
        ensures Uses(next, x) <= 1
        ensures Uses(next, x) == 1 ==>
          x < |next.store.records| && next.store.records[x].consumed && !next.store.records[x].superseded
      {
        assert Uses(sys, x) <= 1;
      }
    }
  }

  lemma StepKeepsGood(sys: System, step: Step)
    requires Good(sys)
    ensures Good(Next(sys, step))
  {
    match step
    case PublishStep(clock, items) => PublishKeepsGood(sys, clock, items);
    case DecideStep(decision, clock) => DecideKeepsGood(sys, decision, clock);
    case SettleStep(id, result) => SettleKeepsGood(sys, id, result);
  }

  /** The system after any list of steps. */
  ghost function After(steps: seq<Step>): (sys: System)
    ensures Good(sys)
  {
    if steps == [] then START
    else
      var before := After(steps[..|steps| - 1]);
      StepKeepsGood(before, steps[|steps| - 1]);
      Next(before, steps[|steps| - 1])
  }

  lemma AfterSnoc(steps: seq<Step>, step: Step)
    ensures After(steps + [step]) == Next(After(steps), step)
  {
    assert (steps + [step])[..|steps|] == steps;
  }

  // ---- Single use ----

  /** In every interleaving a record has at most one resume under way and at most one that succeeded, ever. */
  lemma SingleUse(steps: seq<Step>, id: nat)
    ensures var sys := After(steps);
      && sys.inFlight[id] <= 1
      && sys.succeeded[id] <= 1
      && (sys.succeeded[id] == 1 ==>
          sys.inFlight[id] == 0 && id < |sys.store.records| && sys.store.records[id].consumed)
  {
    assert Uses(After(steps), id) <= 1;
  }

  /** A consumed record becomes usable again only when its resume fails transiently; a superseded one never does. */
  lemma ReusableOnlyAfterTransientFailure(steps: seq<Step>, step: Step, id: nat)
    requires id < |After(steps).store.records| && After(steps).store.records[id].consumed
    ensures After(steps + [step]) == Next(After(steps), step)
    ensures id < |After(steps + [step]).store.records|
    ensures !After(steps + [step]).store.records[id].consumed
      <==> step == SettleStep(id, FailedTransiently) && id in After(steps).inFlight
    ensures After(steps).store.records[id].superseded ==> After(steps + [step]).store.records[id].superseded
  {
    AfterSnoc(steps, step);
    FlagsAfter(After(steps), step, id);
  }

  lemma FlagsAfter(sys: System, step: Step, id: nat)
    requires Good(sys) && id < |sys.store.records| && sys.store.records[id].consumed
    ensures id < |Next(sys, step).store.records|
    ensures !Next(sys, step).store.records[id].consumed
        <==> step == SettleStep(id, FailedTransiently) && id in sys.inFlight
    ensures sys.store.records[id].superseded ==> Next(sys, step).store.records[id].superseded
  {
    assert Uses(sys, id) <= 1;
    match step
    case PublishStep(clock, items) =>
      PruneWellFormed(sys.store, clock);
      PublishAllFlags(Prune(sys.store, clock), items, id);
    case DecideStep(decision, clock) => DecideFlags(sys.store, decision, clock);
    case SettleStep(x, result) => assert Uses(sys, x) <= 1;
  }

  /**
   * Between any two steps: no shared records, no duplicates, at most 64 in the history, superseded records
   * consumed.
   */
  lemma StoreInvariant(steps: seq<Step>)
    ensures var s := After(steps).store;
      && (forall id :: InCurrent(s, id) ==> id !in s.history)
      && Distinct(s.history) && |s.history| <= 64
      && (forall id :: 0 <= id < |s.records| && s.records[id].superseded ==> s.records[id].consumed)
  {
    EntriesDistinct(After(steps).store);
  }

  // ---- Fresh tokens ----

  /** Everything the run published, in order. */
  function Published(steps: seq<Step>): seq<QueueItem> {
    if steps == [] then []
    else
      var last := steps[|steps| - 1];
      Published(steps[..|steps| - 1]) + if last.PublishStep? then last.items else []
  }

  /** The queue mints a new token for every item. */
  ghost predicate FreshTokens(steps: seq<Step>) {
    var items := Published(steps);
    forall i, j :: 0 <= i < j < |items| ==> items[i].approvalToken != items[j].approvalToken
  }

  lemma StepItems(sys: System, step: Step)
    requires Good(sys)
    ensures Items(Next(sys, step).store.records)
         == Items(sys.store.records) + if step.PublishStep? then step.items else []
  {
    hide WellFormed, UsedOnce, Prune, PublishAll, Items, Settle, Decide;
    match step
    case PublishStep(clock, items) =>
      InRange(sys.store);
      PruneWellFormed(sys.store, clock);
      PruneKeepsRecords(sys.store, clock);
      PublishAllItems(Prune(sys.store, clock), items);
    case DecideStep(decision, clock) =>
      DecideItems(sys.store, decision, clock);
    case SettleStep(id, result) => SettleItems(sys, id, result);
  }

  lemma DecideItems(s: Store, decision: Decision, clock: int)
    requires WellFormed(s)
    ensures Items(Decide(s, decision, clock).0.records) == Items(s.records)
  {
    hide WellFormed, Decide;
    InRange(s);
    DecideFlags(s, decision, clock);
  }

  lemma SettleItems(sys: System, id: nat, result: ResumeResult)
    requires Good(sys)
    ensures Items(Next(sys, SettleStep(id, result)).store.records) == Items(sys.store.records)
  {
    hide WellFormed;
    assert Uses(sys, id) <= 1;
  }

  lemma {:induction false} RecordsArePublished(steps: seq<Step>)
    ensures Items(After(steps).store.records) == Published(steps)
  {
    if steps != [] {
      RecordsArePublished(steps[..|steps| - 1]);
      StepItems(After(steps[..|steps| - 1]), steps[|steps| - 1]);
    }
  }

  /** With fresh tokens, different records have different tokens. */
  lemma TokensDiffer(steps: seq<Step>, i: nat, j: nat)
    requires FreshTokens(steps)
    requires i < |After(steps).store.records| && j < |After(steps).store.records|
    requires After(steps).store.records[i].item.approvalToken == After(steps).store.records[j].item.approvalToken
    ensures i == j
  {
    RecordsArePublished(steps);
    var items := Items(After(steps).store.records);
    assert items[i].approvalToken == items[j].approvalToken;
  }

  lemma FirstTwo(s: seq<nat>)
    requires Distinct(s) && |s| > 1
    ensures s[0] in s && s[1] in s && s[0] != s[1]
  {
  }

  lemma OneMember(s: seq<nat>, x: nat)
    requires Distinct(s) && forall y :: y in s ==> y == x
    ensures s == [] || s == [x]
  {
    if |s| > 1 {
      FirstTwo(s);
      assert false;
    }
    if |s| == 1 {
      assert s[0] in s;
    }
  }

  lemma SearchedExact(s: Store)
    requires WellFormed(s)
    ensures Distinct(Searched(s))
    ensures forall id :: id in Searched(s) <==> Stored(s, id)
  {
    var all := Searched(s);
    forall i, j | 0 <= i < j < |all| ensures all[i] != all[j] {
      if i < |s.current| <= j {
        assert all[j] in s.history && all[i] == s.current[i].id;
      }
    }
    forall id ensures id in all <==> Stored(s, id) {
      if InCurrent(s, id) {
        var i :| 0 <= i < |s.current| && s.current[i].id == id;
        assert all[i] == id;
      }
      assert id in all <==> id in Ids(s.current) || id in s.history;
    }
  }

  /** The record can be found under the token. */
  ghost predicate Holds(s: Store, id: nat, token: string) {
    id < |s.records| && Stored(s, id) && s.records[id].item.approvalToken == token
  }

  lemma MatchesExact(s: Store, token: string)
    requires WellFormed(s)
    ensures Distinct(TokenMatches(s, token))
    ensures forall id :: id in TokenMatches(s, token) <==> Holds(s, id, token)
  {
    SearchedExact(s);
    MatchMembers(s, Searched(s), token);
  }

  /** No reason, or a text of at most 1000 characters. */
  predicate ReasonFits(reason: Option<Reason>) {
    reason.None? || (reason.value.Text? && |reason.value.text| <= 1000)
  }

  /** The time of the item has come. */
  predicate Lapsed(item: QueueItem, clock: int) {
    match item.expiresAt
    case None => false
    case Some(time) => time <= clock
  }

  /** The token finds exactly this record. */
  ghost predicate OnlyHolder(s: Store, id: nat, token: string) {
    Holds(s, id, token) && forall other :: Holds(s, other, token) ==> other == id
  }

  lemma OneMatch(s: Store, token: string, id: nat)
    requires WellFormed(s)
    ensures TokenMatches(s, token) == [id] <==> OnlyHolder(s, id, token)
  {
    var found := TokenMatches(s, token);
    MatchesExact(s, token);
    if OnlyHolder(s, id, token) {
      OneMember(found, id);
      assert id in found;
    }
    assert found == [id] ==> id in found && forall x :: x in found ==> x == id;
  }

  lemma SameTerms(decision: Decision, clock: int)
    ensures decision.Decision? ==> (ReasonAllowed(decision.reason) <==> ReasonFits(decision.reason))
    ensures forall item :: Expired(item, clock) <==> Lapsed(item, clock)
  {
  }

  lemma HolderKnown(s: Store, id: nat, token: string)
    ensures OnlyHolder(s, id, token) ==> id < |s.records|
  {
  }

  /**
   * A resume starts for a record exactly when the decision is well-formed, the record is the only one
   * found under its token, it is for this very run, provider and request, and it is neither
   * superseded, consumed nor expired.
   */
  lemma ResumesExactly(s: Store, decision: Decision, clock: int, id: nat)
    requires WellFormed(s)
    ensures Decide(s, decision, clock).1 == Resuming(id)
      <==>
        && decision.Decision? && ReasonFits(decision.reason)
        && OnlyHolder(s, id, decision.approvalToken)
        && s.records[id].item.runId == decision.runId
        && s.records[id].item.provider == decision.provider
        && s.records[id].item.approvalRequestId == decision.approvalRequestId
        && !s.records[id].superseded && !s.records[id].consumed && !Lapsed(s.records[id].item, clock)
  {
    hide WellFormed, Prune, Detach, OnlyHolder, ReasonAllowed, ReasonFits, Expired, Lapsed;
    InRange(s);
    SameTerms(decision, clock);
    if decision.Decision? {
      OneMatch(s, decision.approvalToken, id);
      HolderKnown(s, id, decision.approvalToken);
    }
  }

  /** With fresh tokens a decision is never ambiguous, in any interleaving. */
  lemma NeverAmbiguous(steps: seq<Step>, decision: Decision, clock: int)
    requires FreshTokens(steps)
    ensures Decide(After(steps).store, decision, clock).1 != Rejected(AmbiguousToken)
  {
    var s := After(steps).store;
    if decision.Decision? {
      var found := TokenMatches(s, decision.approvalToken);
      MatchesExact(s, decision.approvalToken);
      if found != [] {
        assert found[0] in found;
        forall x | x in found ensures x == found[0] {
          TokensDiffer(steps, x, found[0]);
        }
        OneMember(found, found[0]);
      }
    }
  }

  /** What a decision on a record gets, by the record's flags and expiry. */
  ghost function OutcomeFor(s: Store, decision: Decision, clock: int, id: nat): Outcome
    requires decision.Decision? && id < |s.records|
  {
    var record := s.records[id];
    if !Stored(s, id) then Rejected(UnknownToken)
    else if record.item.runId != decision.runId || record.item.provider != decision.provider
      || record.item.approvalRequestId != decision.approvalRequestId then Rejected(CrossRun)
    else if record.superseded then Rejected(Superseded)
    else if record.consumed then Rejected(AlreadyUsed)
    else if Lapsed(record.item, clock) then Rejected(ExpiredToken)
    else Resuming(id)
  }

  /** The outcome for a token that belongs to one record, by that record's flags and expiry. */
  lemma OwnedToken(steps: seq<Step>, decision: Decision, clock: int, id: nat)
    requires FreshTokens(steps)
    requires decision.Decision? && ReasonFits(decision.reason)
    requires id < |After(steps).store.records|
    requires After(steps).store.records[id].item.approvalToken == decision.approvalToken
    ensures TokenMatches(After(steps).store, decision.approvalToken)
         == if Stored(After(steps).store, id) then [id] else []
    ensures Decide(After(steps).store, decision, clock).1 == OutcomeFor(After(steps).store, decision, clock, id)
  {
    SameTerms(decision, clock);
    hide ReasonAllowed, ReasonFits, Expired, Lapsed;
    var s := After(steps).store;
    var found := TokenMatches(s, decision.approvalToken);
    MatchesExact(s, decision.approvalToken);
    forall x | x in found ensures x == id {
      TokensDiffer(steps, x, id);
    }
    OneMember(found, id);
    assert Holds(s, id, decision.approvalToken) <==> Stored(s, id);
    assert id in found <==> Stored(s, id);
  }

  /** A token whose resume succeeded or failed for good never resumes anything again. */
  lemma UsedTokenRejected(steps: seq<Step>, decision: Decision, clock: int, id: nat)
    requires FreshTokens(steps)
    requires After(steps).succeeded[id] + After(steps).failed[id] > 0
    requires decision.Decision? && ReasonFits(decision.reason)
    requires id < |After(steps).store.records|
    requires After(steps).store.records[id].item.approvalToken == decision.approvalToken
    ensures Decide(After(steps).store, decision, clock).1
      in {Rejected(UnknownToken), Rejected(CrossRun), Rejected(AlreadyUsed)}
  {
    assert Uses(After(steps), id) <= 1;
    OwnedToken(steps, decision, clock, id);
  }

  // ---- Dropped records ----

  lemma PruneStored(s: Store, clock: int, id: nat)
    requires WellFormed(s) && Stored(Prune(s, clock), id)
    ensures Stored(s, id)
  {
    PrunedMembers(s, clock);
    var r := Prune(s, clock);
    if InCurrent(r, id) {
      var i :| 0 <= i < |r.current| && r.current[i].id == id;
      assert r.current[i] in r.current;
    }
  }

  lemma PublishOneStored(s: Store, item: QueueItem, id: nat)
    requires WellFormed(s) && id < |s.records| && Stored(PublishOne(s, item), id)
    ensures Stored(s, id)
  {
    var r := PublishOne(s, item);
    RetireHistory(s, ApprovalKey(item));
    if InCurrent(r, id) {
      var i :| 0 <= i < |r.current| && r.current[i].id == id;
      PublishedEntries(s, item, r.current[i]);
    }
  }

  lemma {:induction false} PublishAllStored(s: Store, items: seq<QueueItem>, id: nat)
    requires WellFormed(s) && id < |s.records| && Stored(PublishAll(s, items), id)
    ensures Stored(s, id)
    decreases |items|
  {
    if items != [] {
      var init := items[..|items| - 1];
      PublishAllCount(s, init);
      PublishOneStored(PublishAll(s, init), items[|items| - 1], id);
      PublishAllStored(s, init, id);
    }
  }

  lemma DetachStored(s: Store, owner: nat, id: nat)
    requires WellFormed(s)
    ensures Stored(Detach(s, owner), id) <==> Stored(s, id) && id != owner
  {
    var r := Detach(s, owner);
    DropIdMembers(s.current, owner);
    DropFirstMembers(s.history, owner);
    if InCurrent(r, id) {
      var i :| 0 <= i < |r.current| && r.current[i].id == id;
      assert r.current[i] in r.current;
    }
    if InCurrent(s, id) && id != owner {
      var i :| 0 <= i < |s.current| && s.current[i].id == id;
      assert s.current[i] in r.current;
    }
  }

  lemma DecideStored(s: Store, decision: Decision, clock: int, id: nat)
    requires WellFormed(s) && Stored(Decide(s, decision, clock).0, id)
    ensures Stored(s, id)
  {
    hide WellFormed, Prune, Decide, Detach;
    InRange(s);
    var owner := DecideShape(s, decision, clock);
    var r := Decide(s, decision, clock).0;
    if Stored(Prune(s, clock), id) {
      PruneStored(s, clock, id);
    }
    DetachWellFormed(s, owner);
    DetachStored(s, owner, id);
    if Stored(Prune(Detach(s, owner), clock), id) {
      PruneStored(Detach(s, owner), clock, id);
    }
    assert Decide(s, decision, clock).1.Resuming? ==> (Stored(r, id) <==> Stored(Prune(s, clock), id));
  }

  lemma StepStored(sys: System, step: Step, id: nat)
    requires Good(sys) && id < |sys.store.records| && Stored(Next(sys, step).store, id)
    ensures Stored(sys.store, id)
  {
    match step
    case PublishStep(clock, items) =>
      PruneWellFormed(sys.store, clock);
      PublishAllStored(Prune(sys.store, clock), items, id);
      PruneStored(sys.store, clock, id);
    case DecideStep(decision, clock) => DecideStored(sys.store, decision, clock, id);
    case SettleStep(_, _) =>
  }

  lemma StepKeepsItem(sys: System, step: Step, id: nat)
    requires Good(sys) && id < |sys.store.records|
    ensures id < |Next(sys, step).store.records|
    ensures Next(sys, step).store.records[id].item == sys.store.records[id].item
  {
    StepItems(sys, step);
    assert Items(Next(sys, step).store.records)[id] == Items(sys.store.records)[id];
  }

  ghost predicate Dropped(s: Store, id: nat, item: QueueItem) {
    id < |s.records| && s.records[id].item == item && !Stored(s, id)
  }

  lemma StepKeepsDropped(sys: System, step: Step, id: nat, item: QueueItem)
    requires Good(sys) && Dropped(sys.store, id, item)
    ensures Dropped(Next(sys, step).store, id, item)
  {
    StepKeepsItem(sys, step, id);
    if Stored(Next(sys, step).store, id) {
      StepStored(sys, step, id);
    }
  }

  /** A record that can no longer be found stays lost. */
  lemma {:induction false} DroppedForever(steps: seq<Step>, more: seq<Step>, id: nat, item: QueueItem)
    requires Dropped(After(steps).store, id, item)
    ensures Dropped(After(steps + more).store, id, item)
    decreases |more|
  {
    hide WellFormed, UsedOnce, Dropped, After;
    if more == [] {
      assert steps + more == steps;
    } else {
      var init, last := more[..|more| - 1], more[|more| - 1];
      DroppedForever(steps, init, id, item);
      assert steps + more == steps + init + [last];
      AfterSnoc(steps + init, last);
      StepKeepsDropped(After(steps + init), last, id, item);
    }
  }

  /** An expired token is stale once and unknown from then on, whatever happens in between. */
  lemma ExpiredThenForged(steps: seq<Step>, decision: Decision, clock: int, more: seq<Step>, later: int)
    requires decision.Decision? && ReasonFits(decision.reason)
    requires Decide(After(steps).store, decision, clock).1 == Rejected(ExpiredToken)
    requires FreshTokens(steps + [DecideStep(decision, clock)] + more)
    ensures Decide(After(steps + [DecideStep(decision, clock)] + more).store, decision, later).1
        == Rejected(UnknownToken)
  {
    var step := DecideStep(decision, clock);
    var now := steps + [step];
    assert now[..|steps|] == steps;
    var s := After(steps).store;
    var owner := TokenMatches(s, decision.approvalToken)[0];
    MatchesExact(s, decision.approvalToken);
    assert owner in TokenMatches(s, decision.approvalToken);
    DetachWellFormed(s, owner);
    DetachStored(s, owner, owner);
    if Stored(After(now).store, owner) {
      PruneStored(Detach(s, owner), clock, owner);
    }
    AfterSnoc(steps, step);
    StepKeepsItem(After(steps), step, owner);
    DroppedForever(now, more, owner, s.records[owner].item);
    OwnedToken(now + more, decision, later, owner);
  }
}
