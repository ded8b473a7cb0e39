/** What each call sweeps out of the live map and keeps in the history. */
module ApprovalSweep {
  import opened ApprovalStore
  import opened ApprovalLaws
  import opened ApprovalRuns
  import opened ApprovalFields

  /** Expired and used records leave the live map, no other, and nothing enters it. */
  ghost predicate MapSwept(s: Store, r: Store, clock: int) {
    forall id: nat | id < |s.records| ::
      InCurrent(r, id) <==>
        InCurrent(s, id) && !Lapsed(s.records[id].item, clock) && !s.records[id].consumed && !s.records[id].superseded
  }

  /**
   * The history keeps nothing expired and takes in used records of the live map only; it loses nothing
   * else while at most 64 records are stored.
   */
  ghost predicate HistorySwept(s: Store, r: Store, clock: int) {
    forall id: nat | id < |s.records| ::
      && (id in r.history ==>
            !Lapsed(s.records[id].item, clock) && (id in s.history || (InCurrent(s, id) && s.records[id].consumed)))
      && (|s.current| + |s.history| <= 64 ==>
            (id in r.history <==>
               !Lapsed(s.records[id].item, clock) && (id in s.history || (InCurrent(s, id) && s.records[id].consumed))))
  }

  lemma PruneSweeps(s: Store, clock: int)
    requires WellFormed(s)
    ensures MapSwept(s, Prune(s, clock), clock) && HistorySwept(s, Prune(s, clock), clock)
  {
    forall id: nat | id < |s.records|
      ensures InCurrent(Prune(s, clock), id) <==>
        InCurrent(s, id) && !Lapsed(s.records[id].item, clock) && !s.records[id].consumed && !s.records[id].superseded
    {
      PruneSweepsOne(s, clock, id);
    }
    HistoryShort(s, clock);
    forall id: nat | id < |s.records|
      ensures id in PrunedHistory(s, clock) <==>
        !Lapsed(s.records[id].item, clock) && (id in s.history || (InCurrent(s, id) && s.records[id].consumed))
    {
      PrunedHistoryExact(s, clock, id);
    }
    hide WellFormed, PrunedHistory, Lapsed, InCurrent;
  }

  lemma PruneSweepsOne(s: Store, clock: int, id: nat)
    requires WellFormed(s) && id < |s.records|
    ensures InCurrent(Prune(s, clock), id) <==>
      InCurrent(s, id) && !Lapsed(s.records[id].item, clock) && !s.records[id].consumed && !s.records[id].superseded
  {
    PrunedMembers(s, clock);
    PruneWellFormed(s, clock);
    InCurrentEntry(s, id);
    InCurrentEntry(Prune(s, clock), id);
    hide WellFormed, Prune, InCurrent;
  }

  lemma HistoryShort(s: Store, clock: int)
    requires WellFormed(s)
    ensures IdsInRange(s)
    ensures forall id :: id in Prune(s, clock).history ==> id in PrunedHistory(s, clock)
    ensures |s.current| + |s.history| <= 64 ==> Prune(s, clock).history == PrunedHistory(s, clock)
  {
    InRange(s);
    MovedInRange(s, clock);
    MovedCount(s.records, clock, s.current, s.history);
    UnexpiredCount(s.records, clock, MovedTo(s.records, clock, s.current, s.history));
    CapMembers(PrunedHistory(s, clock));
  }

  // ---- Decisions ----

  /** A decision that is invalid, ambiguous or for another run changes nothing; any other sweeps the session. */
  lemma DecideSweeps(s: Store, decision: Decision, clock: int)
    requires WellFormed(s)
    ensures var (r, outcome) := Decide(s, decision, clock);
      if Untouched(outcome) then r == s else MapSwept(s, r, clock) && HistorySwept(s, r, clock)
  {
    InRange(s);
    PruneSweeps(s, clock);
    var owner := DecideOwner(s, decision, clock);
    var (r, outcome) := Decide(s, decision, clock);
    hide *;
    match outcome
    case Rejected(ExpiredToken) =>
      DetachWellFormed(s, owner);
      PruneSweeps(Detach(s, owner), clock);
      DetachedSweeps(s, owner, r, clock);
    case Resuming(_) => FlagsAside(s, Prune(s, clock), r, clock);
    case Rejected(_) =>
  }

  lemma FlagsAside(s: Store, r: Store, flagged: Store, clock: int)
    requires MapSwept(s, r, clock) && HistorySwept(s, r, clock)
    requires flagged.current == r.current && flagged.history == r.history
    ensures MapSwept(s, flagged, clock) && HistorySwept(s, flagged, clock)
  {
  }

  /** Taking an expired record out first makes no difference to a sweep. */
  lemma DetachedSweeps(s: Store, owner: nat, r: Store, clock: int)
    requires WellFormed(s) && owner < |s.records| && Lapsed(s.records[owner].item, clock)
    requires MapSwept(Detach(s, owner), r, clock) && HistorySwept(Detach(s, owner), r, clock)
    ensures MapSwept(s, r, clock) && HistorySwept(s, r, clock)
  {
    var d := Detach(s, owner);
    assert d.records == s.records;
    DropFirstMembers(s.history, owner);
    DropIdShorter(s.current, owner);
    forall id: nat | id < |s.records| ensures InCurrent(d, id) <==> InCurrent(s, id) && id != owner {
      DetachedMember(s, owner, id);
    }
    hide WellFormed, InCurrent, Lapsed, DropId, DropFirst;
  }

  lemma DetachedMember(s: Store, owner: nat, id: nat)
    requires WellFormed(s)
    ensures InCurrent(Detach(s, owner), id) <==> InCurrent(s, id) && id != owner
  {
    var d := Detach(s, owner);
    DropIdMembers(s.current, owner);
    hide WellFormed, DropId;
    if InCurrent(s, id) && id != owner {
      var i :| 0 <= i < |s.current| && s.current[i].id == id;
      assert s.current[i] in d.current;
    }
    if InCurrent(d, id) {
      var i :| 0 <= i < |d.current| && d.current[i].id == id;
      assert d.current[i] in s.current;
    }
  }

  lemma {:induction false} DropIdShorter(current: seq<Entry>, id: nat)
    ensures |DropId(current, id)| <= |current|
  {
    if current != [] {
      DropIdShorter(current[..|current| - 1], id);
    }
  }

  // ---- Publishing ----

  /**
   * An item that supersedes a live record puts that record behind the history, where its token is still
   * found; an item that supersedes none leaves the history alone.
   */
  lemma SupersededFound(s: Store, item: QueueItem, id: nat)
    requires WellFormed(s) && LiveInMap(s, id) && SameFields(s.records[id].item, item)
    ensures var all, kept := s.history + [id], PublishOne(s, item).history;
      kept == all[|all| - |kept|..] && |kept| == if |all| > 64 then 64 else |all|
  {
    InCurrentEntry(s, id);
    FoundKey(s, ApprovalKey(item), id);
  }

  lemma NothingSuperseded(s: Store, item: QueueItem)
    requires WellFormed(s) && PlainStore(s) && Plain(item)
    requires forall id: nat | id < |s.records| && LiveInMap(s, id) :: !SameFields(s.records[id].item, item)
    ensures PublishOne(s, item).history == s.history
  {
    var previous := FindKey(s.current, ApprovalKey(item));
    if previous.Some? {
      var id := previous.value;
      assert Entry(ApprovalKey(item), id) in s.current;
      KeyExact(s.records[id].item, item);
      assert LiveInMap(s, id) || s.records[id].consumed;
    }
  }

  /** A publish call forgets every record that has expired. */
  lemma PublishForgets(s: Store, clock: int, items: seq<QueueItem>, id: nat)
    requires WellFormed(s) && id < |s.records| && Lapsed(s.records[id].item, clock)
    ensures !Stored(Publish(s, clock, items), id)
  {
    PruneWellFormed(s, clock);
    PruneSweeps(s, clock);
    PruneKeepsRecords(s, clock);
    hide WellFormed, Prune, Lapsed, InCurrent;
    assert !Stored(Prune(s, clock), id);
    hide Stored;
    if Stored(Publish(s, clock, items), id) {
      PublishAllStored(Prune(s, clock), items, id);
      assert false;
    }
  }
}
