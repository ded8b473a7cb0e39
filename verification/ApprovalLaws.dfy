/** What every interleaving of publish and decide keeps. */
module ApprovalLaws {
  import opened ApprovalStore

  // ---- The store invariant, call by call ----

  lemma InRange(s: Store)
    requires WellFormed(s)
    ensures IdsInRange(s)
  {
  }

  lemma PruneWellFormed(s: Store, clock: int)
    requires WellFormed(s)
    ensures WellFormed(Prune(s, clock))
  {
    var r := Prune(s, clock);
    EntriesDistinct(s);
    PrunedMembers(s, clock);
    KeptSubset(s, r, clock);
  }

  lemma EntriesDistinct(s: Store)
    requires WellFormed(s)
    ensures Distinct(s.current)
    ensures forall e, f :: e in s.current && f in s.current && (e.key == f.key || e.id == f.id) ==> e == f
    ensures forall id :: InCurrent(s, id) ==> id !in s.history
  {
    forall e, f | e in s.current && f in s.current && (e.key == f.key || e.id == f.id) ensures e == f {
      var i :| 0 <= i < |s.current| && s.current[i] == e;
      var j :| 0 <= j < |s.current| && s.current[j] == f;
      assert i == j;
    }
  }

  /** Keeping some entries of a well-formed live map, with a history made of what is left, is well-formed. */
  lemma KeptSubset(s: Store, r: Store, clock: int)
    requires WellFormed(s) && IdsInRange(r) && r.records == s.records
    requires forall e :: e in r.current ==> e in s.current && Keeps(s.records, clock, e.id)
    requires forall id :: id in r.history ==> id in s.history || (InCurrent(s, id) && Spent(s.records, id))
    requires Distinct(r.current) && Distinct(r.history) && |r.history| <= HISTORY_LIMIT
    ensures WellFormed(r)
  {
    EntriesDistinct(s);
    SubMap(s, r);
    forall i | 0 <= i < |r.current| ensures r.current[i].id !in r.history {
      assert r.current[i] in s.current;
      var e := r.current[i];
      var k :| 0 <= k < |s.current| && s.current[k] == e;
      assert e.id !in s.history;
    }
  }

  lemma SubMap(s: Store, r: Store)
    requires WellFormed(s) && r.records == s.records && Distinct(r.current)
    requires forall e :: e in r.current ==> e in s.current
    ensures forall i, j :: 0 <= i < j < |r.current| ==>
        r.current[i].key != r.current[j].key && r.current[i].id != r.current[j].id
    ensures forall i :: 0 <= i < |r.current| ==>
        r.current[i].id < |r.records| && r.current[i].key == ApprovalKey(r.records[r.current[i].id].item)
    ensures forall i, id :: 0 <= i < |r.current| && r.current[i].id < id < |r.records| ==>
        ApprovalKey(r.records[id].item) != r.current[i].key
  {
    EntriesDistinct(s);
    forall i, j | 0 <= i < j < |r.current|
      ensures r.current[i].key != r.current[j].key && r.current[i].id != r.current[j].id
    {
      assert r.current[i] in s.current && r.current[j] in s.current;
    }
    forall i | 0 <= i < |r.current|
      ensures r.current[i].id < |r.records| && r.current[i].key == ApprovalKey(r.records[r.current[i].id].item)
      ensures forall id :: r.current[i].id < id < |r.records| ==> ApprovalKey(r.records[id].item) != r.current[i].key
    {
      assert r.current[i] in s.current;
    }
  }

  lemma DetachWellFormed(s: Store, id: nat)
    requires WellFormed(s)
    ensures WellFormed(Detach(s, id))
  {
    var r := Detach(s, id);
    EntriesDistinct(s);
    DetachInRange(s, id);
    DropIdMembers(s.current, id);
    DropFirstMembers(s.history, id);
    SubMap(s, r);
    forall i | 0 <= i < |r.current| ensures r.current[i].id !in r.history {
      assert r.current[i] in s.current;
    }
  }

  /** Changing the flags of one record keeps the store well-formed as long as a superseded record stays consumed. */
  lemma FlagsWellFormed(s: Store, id: nat, record: Record)
    requires WellFormed(s) && id < |s.records| && record.item == s.records[id].item
    requires record.superseded ==> record.consumed
    ensures WellFormed(s.(records := s.records[id := record]))
  {
  }

  /** The entries of the live map after a publish: the new one, and the old ones of other keys. */
  lemma PublishedEntries(s: Store, item: QueueItem, e: Entry)
    requires WellFormed(s)
    ensures KeysDistinct(PublishOne(s, item).current)
    ensures var key := ApprovalKey(item);
      e in PublishOne(s, item).current <==> e == Entry(key, |s.records|) || (e in s.current && e.key != key)
  {
    var key := ApprovalKey(item);
    RetireHistory(s, key);
    SetEntryMembers(s.current, Entry(key, |s.records|));
  }

  lemma PublishedRecords(s: Store, item: QueueItem)
    requires WellFormed(s)
    ensures var r := PublishOne(s, item);
      && |r.records| == |s.records| + 1
      && r.records[|s.records|] == Record(item, false, false)
      && (forall id :: 0 <= id < |s.records| ==> r.records[id].item == s.records[id].item)
      && (forall id :: 0 <= id < |r.records| ==> (r.records[id].superseded ==> r.records[id].consumed))
      && r.history == Retire(s, ApprovalKey(item)).history
  {
    RetireHistory(s, ApprovalKey(item));
  }

  /** One entry of the published map is in order. */
  lemma PublishedEntry(s: Store, item: QueueItem, e: Entry)
    requires WellFormed(s) && e in PublishOne(s, item).current
    ensures var r := PublishOne(s, item);
      && e.id < |r.records|
      && e.key == ApprovalKey(r.records[e.id].item)
      && e.id !in r.history
  {
    var key := ApprovalKey(item);
    PublishedEntries(s, item, e);
    PublishedRecords(s, item);
    RetireHistory(s, key);
    EntriesDistinct(s);
    if e.id < |s.records| {
      assert e in s.current;
      var k :| 0 <= k < |s.current| && s.current[k] == e;
      assert InCurrent(s, e.id);
    }
  }

  /** No later record shares the key of a published entry. */
  lemma PublishedNewest(s: Store, item: QueueItem, e: Entry, id: nat)
    requires WellFormed(s) && e in PublishOne(s, item).current
    requires e.id < id <= |s.records|
    ensures id < |PublishOne(s, item).records| && ApprovalKey(PublishOne(s, item).records[id].item) != e.key
  {
    PublishedEntries(s, item, e);
    PublishedRecords(s, item);
    var k :| 0 <= k < |s.current| && s.current[k] == e;
  }

  lemma PublishedIdsDistinct(s: Store, item: QueueItem)
    requires WellFormed(s)
    ensures var c := PublishOne(s, item).current;
      forall i, j :: 0 <= i < j < |c| ==> c[i].key != c[j].key && c[i].id != c[j].id
  {
    var c := PublishOne(s, item).current;
    EntriesDistinct(s);
    forall i, j | 0 <= i < j < |c| ensures c[i].key != c[j].key && c[i].id != c[j].id {
      PublishedEntries(s, item, c[i]);
      PublishedEntries(s, item, c[j]);
      assert c[i] in c && c[j] in c;
      PublishedEntry(s, item, c[i]);
      PublishedEntry(s, item, c[j]);
    }
  }

  lemma PublishOneWellFormed(s: Store, item: QueueItem)
    requires WellFormed(s)
    ensures WellFormed(PublishOne(s, item))
  {
    var r := PublishOne(s, item);
    PublishedIdsDistinct(s, item);
    PublishedRecords(s, item);
    RetireHistory(s, ApprovalKey(item));
    forall i | 0 <= i < |r.current|
      ensures r.current[i].id < |r.records|
      ensures r.current[i].key == ApprovalKey(r.records[r.current[i].id].item)
      ensures r.current[i].id !in r.history
    {
      PublishedEntry(s, item, r.current[i]);
    }
    forall i, id | 0 <= i < |r.current| && r.current[i].id < id < |r.records|
      ensures ApprovalKey(r.records[id].item) != r.current[i].key
    {
      PublishedNewest(s, item, r.current[i], id);
    }
  }

  lemma RetireHistory(s: Store, key: string)
    requires WellFormed(s)
    ensures IdsInRange(Retire(s, key))
    ensures var t := Retire(s, key);
      && |t.records| == |s.records|
      && t.current == s.current
      && (forall id :: 0 <= id < |s.records| ==> t.records[id].item == s.records[id].item)
      && (forall id :: 0 <= id < |s.records| ==> (t.records[id].superseded ==> t.records[id].consumed))
      && Distinct(t.history) && |t.history| <= HISTORY_LIMIT
      && (forall id :: id in t.history ==> id < |s.records| && (id in s.history || Entry(key, id) in s.current))
  {
    var previous := FindKey(s.current, key);
    if previous.Some? && !s.records[previous.value].consumed {
      var id := previous.value;
      assert Entry(key, id) in s.current;
      assert id !in s.history by {
        EntriesDistinct(s);
        assert InCurrent(s, id);
      }
      assert Distinct(s.history + [id]);
      CapMembers(s.history + [id]);
      var t := Retire(s, key);
      forall i | 0 <= i < |t.history| ensures t.history[i] < |s.records| {
        assert t.history[i] in t.history;
      }
    }
  }

  /** The store a decision leaves. */
  lemma DecideShape(s: Store, decision: Decision, clock: int) returns (owner: nat)
    requires IdsInRange(s)
    ensures IdsInRange(Detach(s, owner))
    ensures var (r, outcome) := Decide(s, decision, clock);
      match outcome
      case Rejected(_) => r == s || r == Prune(s, clock) || r == Prune(Detach(s, owner), clock)
      case Resuming(id) =>
        id < |s.records| && !s.records[id].consumed && !s.records[id].superseded
        && r == Prune(s, clock).(records := s.records[id := s.records[id].(consumed := true)])
  {
    hide WellFormed;
    owner := 0;
    DetachInRange(s, owner);
    if decision.Decision? && ReasonAllowed(decision.reason) {
      var found := TokenMatches(s, decision.approvalToken);
      MatchMembers(s, Searched(s), decision.approvalToken);
      if |found| == 1 {
        owner := found[0];
        assert owner in found;
        DetachInRange(s, owner);
      }
    }
  }

  lemma DecideWellFormed(s: Store, decision: Decision, clock: int)
    requires WellFormed(s)
    ensures WellFormed(Decide(s, decision, clock).0)
  {
    hide WellFormed, Decide, Prune, Detach;
    InRange(s);
    var owner := DecideShape(s, decision, clock);
    PruneWellFormed(s, clock);
    DetachWellFormed(s, owner);
    PruneWellFormed(Detach(s, owner), clock);
    var outcome := Decide(s, decision, clock).1;
    if outcome.Resuming? {
      PruneKeepsRecords(s, clock);
      FlagsWellFormed(Prune(s, clock), outcome.id, s.records[outcome.id].(consumed := true));
    }
  }

  lemma PruneKeepsRecords(s: Store, clock: int)
    requires IdsInRange(s)
    ensures Prune(s, clock).records == s.records
    ensures forall id :: Detach(s, id).records == s.records
  {
  }

  lemma DecideFlags(s: Store, decision: Decision, clock: int)
    requires WellFormed(s)
    ensures var (r, outcome) := Decide(s, decision, clock);
      match outcome
      case Rejected(_) => r.records == s.records
      case Resuming(id) =>
        id < |s.records| && !s.records[id].consumed && !s.records[id].superseded
        && r.records == s.records[id := s.records[id].(consumed := true)]
  {
    hide WellFormed, Decide, KeptEntries, PrunedHistory;
    InRange(s);
    var owner := DecideShape(s, decision, clock);
    PruneKeepsRecords(s, clock);
    PruneKeepsRecords(Detach(s, owner), clock);
  }
}
