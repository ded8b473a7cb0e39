/** The approval session object: a live map and a history of shared, mutable records. */
module Approval {
  import opened Wrappers
  import opened TokenCompare
  import opened ApprovalStore
  import opened ApprovalLaws
  import ApprovalRuns

  class StoredApproval {
    ghost const id: nat
    const queueItem: QueueItem
    var consumed: bool
    var superseded: bool

    constructor (ghost id: nat, queueItem: QueueItem)
      ensures this.id == id && this.queueItem == queueItem && !consumed && !superseded
    {
      this.id := id;
      this.queueItem := queueItem;
      consumed, superseded := false, false;
    }

    ghost function Value(): Record
      reads this
    {
      Record(queueItem, consumed, superseded)
    }
  }

  datatype Slot = Slot(key: string, record: StoredApproval)

  datatype Decided = Throws(why: Rejection) | Awaits(owner: StoredApproval)

  ghost function EntriesOf(slots: seq<Slot>): seq<Entry> {
    seq(|slots|, i requires 0 <= i < |slots| => Entry(slots[i].key, slots[i].record.id))
  }

  ghost function IdsOf(records: seq<StoredApproval>): seq<nat> {
    seq(|records|, i requires 0 <= i < |records| => records[i].id)
  }

  ghost function ValuesOf(records: seq<StoredApproval>): seq<Record>
    reads records
  {
    seq(|records|, i requires 0 <= i < |records| reads records => records[i].Value())
  }

  /** `Map.delete`. */
  function DeleteKey(slots: seq<Slot>, key: string): seq<Slot> {
    if slots == [] then []
    else if slots[0].key == key then slots[1..]
    else [slots[0]] + DeleteKey(slots[1..], key)
  }

  lemma {:induction false} DeleteKeyAt(before: seq<Slot>, slot: Slot, rest: seq<Slot>)
    requires forall i :: 0 <= i < |before| ==> before[i].key != slot.key
    ensures DeleteKey(before + [slot] + rest, slot.key) == before + rest
  {
    var all := before + [slot] + rest;
    if before == [] {
      assert all[0] == slot && all[1..] == rest;
    } else {
      assert all[0] == before[0] && all[1..] == before[1..] + [slot] + rest;
      DeleteKeyAt(before[1..], slot, rest);
      assert before + rest == [before[0]] + (before[1..] + rest);
    }
  }

  lemma {:induction false} UnexpiredSplit(records: seq<Record>, clock: int, a: seq<nat>, b: seq<nat>)
    requires forall i :: 0 <= i < |a + b| ==> (a + b)[i] < |records|
    requires forall i :: 0 <= i < |a| ==> a[i] < |records|
    requires forall i :: 0 <= i < |b| ==> b[i] < |records|
    ensures Unexpired(records, clock, a + b) == Unexpired(records, clock, a) + Unexpired(records, clock, b)
    decreases |b|
  {
    if b == [] {
      assert a + b == a;
    } else {
      var init := b[..|b| - 1];
      assert (a + b)[..|a + b| - 1] == a + init;
      assert forall i :: 0 <= i < |a + init| ==> (a + init)[i] == (a + b)[i];
      UnexpiredSplit(records, clock, a, init);
    }
  }

  lemma {:induction false} DeleteKeyMembers(slots: seq<Slot>, key: string)
    ensures forall i :: 0 <= i < |DeleteKey(slots, key)| ==> DeleteKey(slots, key)[i] in slots
  {
    if slots != [] && slots[0].key != key {
      DeleteKeyMembers(slots[1..], key);
    }
  }

  lemma UnexpiredFront(records: seq<Record>, clock: int, ids: seq<nat>, index: nat)
    requires index < |ids| && forall i :: 0 <= i < |ids| ==> ids[i] < |records|
    ensures Unexpired(records, clock, ids[index..])
         == (if Expired(records[ids[index]].item, clock) then [] else [ids[index]])
            + Unexpired(records, clock, ids[index + 1..])
  {
    assert ids[index..] == [ids[index]] + ids[index + 1..];
    UnexpiredSplit(records, clock, [ids[index]], ids[index + 1..]);
    assert [ids[index]][..0] == [];
    assert Unexpired(records, clock, []) == [];
  }

  lemma SplitAt(kept: seq<Slot>, entries: seq<Slot>, i: nat)
    requires i < |entries|
    ensures kept + entries[i..] == kept + [entries[i]] + entries[i + 1..]
  {
  }

  lemma SnocId(records: seq<StoredApproval>, record: StoredApproval)
    ensures IdsOf(records + [record]) == IdsOf(records) + [record.id]
  {
  }

  lemma SpliceIds(records: seq<StoredApproval>, index: nat)
    requires index < |records|
    ensures IdsOf(records[..index] + records[index + 1..]) == IdsOf(records)[..index] + IdsOf(records)[index + 1..]
  {
  }

  /** No key of `kept` occurs among the entries from `i` on, whose keys are distinct. */
  ghost predicate Apart(kept: seq<Slot>, entries: seq<Slot>, i: nat) {
    && (forall k, j :: 0 <= k < |kept| && i <= j < |entries| ==> kept[k].key != entries[j].key)
    && (forall k, j :: i <= k < j < |entries| ==> entries[k].key != entries[j].key)
  }

  lemma KeepApart(kept: seq<Slot>, entries: seq<Slot>, i: nat)
    requires i < |entries| && Apart(kept, entries, i)
    ensures Apart(kept + [entries[i]], entries, i + 1)
    ensures Apart(kept, entries, i + 1)
  {
  }

  lemma DeleteKept(kept: seq<Slot>, entries: seq<Slot>, i: nat)
    requires i < |entries| && Apart(kept, entries, i)
    ensures DeleteKey(kept + entries[i..], entries[i].key) == kept + entries[i + 1..]
  {
    SplitAt(kept, entries, i);
    DeleteKeyAt(kept, entries[i], entries[i + 1..]);
  }

  lemma SnocEntry(kept: seq<Slot>, slot: Slot)
    ensures EntriesOf(kept + [slot]) == EntriesOf(kept) + [Entry(slot.key, slot.record.id)]
  {
  }

  /** The live map and the history after `i` turns of the loop over `entries`. */
  ghost predicate Pruned(records: seq<Record>, clock: int, entries: seq<Entry>, start: seq<nat>,
                         kept: seq<Entry>, moved: seq<nat>, i: nat)
  {
    && i <= |entries|
    && (forall k :: 0 <= k < |entries| ==> entries[k].id < |records|)
    && kept == KeptEntries(records, clock, entries[..i])
    && moved == MovedTo(records, clock, entries[..i], start)
  }

  ghost function KeptStep(records: seq<Record>, clock: int, kept: seq<Entry>, entry: Entry): seq<Entry>
    requires entry.id < |records|
  {
    kept + if Keeps(records, clock, entry.id) then [entry] else []
  }

  ghost function MovedStep(records: seq<Record>, clock: int, moved: seq<nat>, id: nat): seq<nat>
    requires id < |records|
  {
    moved + if !Expired(records[id].item, clock) && Spent(records, id) && id !in moved then [id] else []
  }

  lemma PrunedStep(records: seq<Record>, clock: int, entries: seq<Entry>, start: seq<nat>,
                   kept: seq<Entry>, moved: seq<nat>, i: nat)
    requires i < |entries| && Pruned(records, clock, entries, start, kept, moved, i)
    ensures entries[i].id < |records|
    ensures Pruned(records, clock, entries, start,
      KeptStep(records, clock, kept, entries[i]), MovedStep(records, clock, moved, entries[i].id), i + 1)
  {
    assert entries[..i + 1][..i] == entries[..i];
  }

  lemma PrunedStart(records: seq<Record>, clock: int, entries: seq<Entry>, start: seq<nat>)
    requires forall k :: 0 <= k < |entries| ==> entries[k].id < |records|
    ensures Pruned(records, clock, entries, start, [], start, 0)
  {
  }

  lemma PrunedEnd(records: seq<Record>, clock: int, entries: seq<Entry>, start: seq<nat>, kept: seq<Entry>,
      moved: seq<nat>)
    requires Pruned(records, clock, entries, start, kept, moved, |entries|)
    ensures forall k :: 0 <= k < |entries| ==> entries[k].id < |records|
    ensures kept == KeptEntries(records, clock, entries) && moved == MovedTo(records, clock, entries, start)
  {
    assert entries[..|entries|] == entries;
  }

  /** `Map.get`. */
  function Lookup(slots: seq<Slot>, key: string): (r: Option<StoredApproval>)
    ensures r.Some? ==> Slot(key, r.value) in slots
  {
    if slots == [] then None
    else if slots[|slots| - 1].key == key then Some(slots[|slots| - 1].record)
    else Lookup(slots[..|slots| - 1], key)
  }

  lemma {:induction false} LookupEntries(slots: seq<Slot>, key: string)
    ensures FindKey(EntriesOf(slots), key) == match Lookup(slots, key) case None => None case Some(r) => Some(r.id)
  {
    if slots != [] {
      assert EntriesOf(slots)[..|slots| - 1] == EntriesOf(slots[..|slots| - 1]);
      LookupEntries(slots[..|slots| - 1], key);
    }
  }

  /** `Map.set`. */
  function SetSlot(slots: seq<Slot>, slot: Slot): seq<Slot> {
    if slots == [] then [slot]
    else
      var init, last := slots[..|slots| - 1], slots[|slots| - 1];
      if last.key == slot.key then init + [slot] else SetSlot(init, slot) + [last]
  }

  lemma {:induction false} SetSlotEntries(slots: seq<Slot>, slot: Slot)
    ensures EntriesOf(SetSlot(slots, slot)) == SetEntry(EntriesOf(slots), Entry(slot.key, slot.record.id))
    ensures forall s :: s in SetSlot(slots, slot) ==> s == slot || s in slots
  {
    if slots != [] {
      assert EntriesOf(slots)[..|slots| - 1] == EntriesOf(slots[..|slots| - 1]);
      SetSlotEntries(slots[..|slots| - 1], slot);
    }
  }

  lemma SnocValue(records: seq<StoredApproval>, record: StoredApproval)
    ensures ValuesOf(records + [record]) == ValuesOf(records) + [record.Value()]
  {
  }

  lemma {:induction false} FirstDropped(ids: seq<nat>, id: nat, index: nat)
    requires index <= |ids| && id !in ids[..index] && (index < |ids| ==> ids[index] == id)
    ensures DropFirst(ids, id) == if index < |ids| then ids[..index] + ids[index + 1..] else ids
  {
    if index > 0 {
      assert ids[0] in ids[..index];
      assert ids[1..][..index - 1] == ids[..index][1..];
      FirstDropped(ids[1..], id, index - 1);
      assert ids == [ids[0]] + ids[1..];
    }
  }

  class ClientApprovalSession {
    var current: seq<Slot>
    var history: seq<StoredApproval>
    ghost var minted: seq<StoredApproval>
    ghost var repr: set<StoredApproval>

    ghost predicate Known(record: StoredApproval)
      reads this
    {
      record.id < |minted| && minted[record.id] == record
    }

    ghost predicate Linked()
      reads this
    {
      && (forall i :: 0 <= i < |minted| ==> minted[i].id == i && minted[i] in repr)
      && (forall i :: 0 <= i < |current| ==> Known(current[i].record))
      && (forall i :: 0 <= i < |history| ==> Known(history[i]))
    }

    /** The session as a value; a record's identity is the position at which it was minted. */
    ghost function View(): Store
      reads this, minted
    {
      Store(ValuesOf(minted), EntriesOf(current), IdsOf(history))
    }

    ghost predicate Valid()
      reads this, minted
    {
      Linked() && WellFormed(View())
    }

    constructor ()
      ensures Valid() && View() == EMPTY && minted == []
    {
      current, history, minted, repr := [], [], [], {};
    }

    lemma ViewKeysDistinct()
      requires Valid()
      ensures Apart([], current, 0)
    {
      forall i, j | 0 <= i < j < |current| ensures current[i].key != current[j].key {
        assert View().current[i].key != View().current[j].key;
      }
    }

    method Prune(clock: int)
      requires Valid()
      modifies this`current, this`history
      ensures Valid()
      ensures View() == ApprovalStore.Prune(old(View()), clock)
    {
      ViewKeysDistinct();
      PruneWellFormed(View(), clock);
      InRange(View());
      hide WellFormed, Apart, KeptEntries, MovedTo, Unexpired, Cap;
      PruneCurrent(clock);
      PrunedEnd(ValuesOf(minted), clock, old(View()).current, old(View()).history, EntriesOf(current), IdsOf(history));
      DropExpiredHistory(clock);
      TrimHistory();
    }

    /** The loop over a copy of the live map: expired entries go, spent ones move to the history. */
    method PruneCurrent(clock: int)
      requires Linked()
      requires Apart([], current, 0)
      modifies this`current, this`history
      ensures Linked()
      ensures Pruned(ValuesOf(minted), clock, old(EntriesOf(current)), old(IdsOf(history)),
        EntriesOf(current), IdsOf(history), |old(current)|)
    {
      hide ValuesOf, EntriesOf, IdsOf, Pruned, Apart, Known, Linked;
      var entries := current;
      ghost var kept: seq<Slot> := [];
      var i := 0;
      PruneBegins(clock);
      while i < |entries|
        invariant 0 <= i <= |entries|
        invariant Linked()
        invariant current == kept + entries[i..]
        invariant Apart(kept, entries, i)
        invariant Pruned(ValuesOf(minted), clock, EntriesOf(entries), old(IdsOf(history)), EntriesOf(kept),
            IdsOf(history), i)
      {
        kept := PruneEntry(entries[i], clock, kept, entries, old(IdsOf(history)), i);
        i := i + 1;
      }
      assert current == kept;
    }

    lemma PruneBegins(clock: int)
      requires Linked()
      ensures Pruned(ValuesOf(minted), clock, EntriesOf(current), IdsOf(history), EntriesOf([]), IdsOf(history), 0)
    {
      assert EntriesOf([]) == [];
      PrunedStart(ValuesOf(minted), clock, EntriesOf(current), IdsOf(history));
    }

    /** One turn of the loop over the live map. */
    method PruneEntry(slot: Slot, clock: int, ghost kept: seq<Slot>, ghost entries: seq<Slot>, ghost start: seq<nat>,
        ghost i: nat)
      returns (ghost keptNow: seq<Slot>)
      requires Linked()
      requires i < |entries| && slot == entries[i] && current == kept + entries[i..] && Apart(kept, entries, i)
      requires Pruned(ValuesOf(minted), clock, EntriesOf(entries), start, EntriesOf(kept), IdsOf(history), i)
      modifies this`current, this`history
      ensures Linked()
      ensures current == keptNow + entries[i + 1..] && Apart(keptNow, entries, i + 1)
      ensures Pruned(ValuesOf(minted), clock, EntriesOf(entries), start, EntriesOf(keptNow), IdsOf(history), i + 1)
    {
      hide Pruned, KeptEntries, MovedTo, DeleteKey, Apart;
      var record := slot.record;
      SplitAt(kept, entries, i);
      KeepApart(kept, entries, i);
      assert current[|kept|] == slot;
      assert EntriesOf(entries)[i] == Entry(slot.key, record.id);
      assert ValuesOf(minted)[record.id] == record.Value();
      PrunedStep(ValuesOf(minted), clock, EntriesOf(entries), start, EntriesOf(kept), IdsOf(history), i);
      IdsTellRecordsApart(record);
      DeleteKeyMembers(current, slot.key);
      DeleteKept(kept, entries, i);
      SnocEntry(kept, slot);
      keptNow := kept;
      if Expired(record.queueItem, clock) {
        current := DeleteKey(current, slot.key);
      } else if record.consumed || record.superseded {
        current := DeleteKey(current, slot.key);
        if record !in history {
          SnocId(history, record);
          history := history + [record];
        }
      } else {
        keptNow := kept + [slot];
      }
      assert EntriesOf(keptNow) == KeptStep(ValuesOf(minted), clock, EntriesOf(kept), Entry(slot.key, record.id));
      assert IdsOf(history) == MovedStep(ValuesOf(minted), clock, old(IdsOf(history)), record.id);
    }

    lemma IdsTellRecordsApart(record: StoredApproval)
      requires Linked() && Known(record)
      ensures record.id in IdsOf(history) <==> record in history
    {
      if record in history {
        var k :| 0 <= k < |history| && history[k] == record;
        assert IdsOf(history)[k] == record.id;
      }
    }

    /** The backward loop that splices expired records out of the history. */
    method DropExpiredHistory(clock: int)
      requires Linked()
      modifies this`history
      ensures Linked()
      ensures forall i :: 0 <= i < |old(history)| ==> old(IdsOf(history))[i] < |minted|
      ensures IdsOf(history) == Unexpired(ValuesOf(minted), clock, old(IdsOf(history)))
    {
      ghost var ids := IdsOf(history);
      ghost var whole := history;
      ghost var tail: seq<StoredApproval> := [];
      var index := |history|;
      assert IdsOf(tail) == Unexpired(ValuesOf(minted), clock, ids[index..]);
      assert ids[0..] == ids;
      assert forall i :: 0 <= i < |ids| ==> ids[i] < |minted|;
      hide Unexpired, IdsOf, Linked, ValuesOf;
      while index > 0
        invariant 0 <= index <= |whole| && history == whole[..index] + tail
        invariant Linked()
        invariant DropState(clock, whole, tail, index)
      {
        index := index - 1;
        tail := DropAt(clock, whole, tail, index);
      }
      assert history == tail;
    }

    ghost predicate DropState(clock: int, whole: seq<StoredApproval>, tail: seq<StoredApproval>, index: nat)
      reads this, minted
    {
      && index <= |whole|
      && (forall i :: 0 <= i < |whole| ==> Known(whole[i]))
      && (forall i :: 0 <= i < |whole| ==> IdsOf(whole)[i] < |minted|)
      && IdsOf(tail) == Unexpired(ValuesOf(minted), clock, IdsOf(whole)[index..])
    }

    method DropAt(clock: int, ghost whole: seq<StoredApproval>, ghost tail: seq<StoredApproval>, index: nat)
      returns (ghost tailNow: seq<StoredApproval>)
      requires Linked() && index < |whole| && history == whole[..index + 1] + tail
      requires DropState(clock, whole, tail, index + 1)
      modifies this`history
      ensures Linked() && history == whole[..index] + tailNow
      ensures DropState(clock, whole, tailNow, index)
    {
      hide Unexpired;
      var record := history[index];
      assert record == whole[index];
      assert whole[..index + 1] == whole[..index] + [record];
      UnexpiredFront(ValuesOf(minted), clock, IdsOf(whole), index);
      assert ValuesOf(minted)[record.id] == record.Value();
      tailNow := tail;
      if Expired(record.queueItem, clock) {
        history := history[..index] + history[index + 1..];
      } else {
        tailNow := [record] + tail;
        assert IdsOf(tailNow) == [record.id] + IdsOf(tail);
      }
    }

    /** The loop that shifts the oldest records out of an over-long history. */
    method TrimHistory()
      requires Linked()
      modifies this`history
      ensures Linked()
      ensures IdsOf(history) == Cap(old(IdsOf(history)))
    {
      ghost var whole := history;
      while |history| > HISTORY_LIMIT
        invariant |history| <= |whole| && history == whole[|whole| - |history|..]
        invariant |whole| > HISTORY_LIMIT ==> |history| >= HISTORY_LIMIT
        invariant |whole| <= HISTORY_LIMIT ==> history == whole
        decreases |history|
      {
        history := history[1..];
      }
    }

    // ---- publish ----

    /** Publishes one queue item: a live record of the same approval is superseded, then the key is set. */
    method PublishOne(item: QueueItem)
      requires Valid()
      modifies this, repr
      ensures Valid()
      ensures View() == ApprovalStore.PublishOne(old(View()), item)
      ensures old(minted) <= minted && fresh(repr - old(repr))
    {
      PublishOneWellFormed(View(), item);
      InRange(View());
      hide WellFormed;
      var key := ApprovalKey(item);
      RetirePrevious(key);
      Install(key, item);
    }

    method Install(key: string, item: QueueItem)
      requires Linked()
      modifies this`current, this`minted, this`repr
      ensures Linked()
      ensures View() == old(View()).(records := old(View()).records + [Record(item, false, false)],
        current := SetEntry(old(View()).current, Entry(key, |old(minted)|)))
      ensures old(minted) <= minted && fresh(repr - old(repr))
    {
      hide SetSlot, SetEntry;
      var stored := new StoredApproval(|minted|, item);
      SnocValue(minted, stored);
      SetSlotEntries(current, Slot(key, stored));
      current := SetSlot(current, Slot(key, stored));
      minted, repr := minted + [stored], repr + {stored};
      forall i | 0 <= i < |current| ensures Known(current[i].record) {
        assert current[i] in current;
      }
    }

    method RetirePrevious(key: string)
      requires Valid()
      modifies this`history, repr
      ensures Linked() && IdsInRange(old(View()))
      ensures View() == Retire(old(View()), key)
    {
      InRange(View());
      hide WellFormed, FindKey, Lookup, Cap;
      LookupEntries(current, key);
      var previous := Lookup(current, key);
      if previous.Some? && !previous.value.consumed {
        ghost var before := View();
        assert Known(previous.value);
        assert before.records[previous.value.id] == previous.value.Value();
        assert FindKey(before.current, key) == Some(previous.value.id);
        Supersede(previous.value);
        PushHistory(previous.value);
      } else {
        assert previous.Some? ==> Known(previous.value) && View().records[previous.value.id] == previous.value.Value();
      }
    }

    method PushHistory(record: StoredApproval)
      requires Linked() && Known(record)
      modifies this`history
      ensures Linked()
      ensures View() == old(View()).(history := Cap(old(View()).history + [record.id]))
    {
      SnocId(history, record);
      history := history + [record];
      TrimHistory();
    }

    method Supersede(record: StoredApproval)
      requires Linked() && Known(record)
      modifies record
      ensures Linked()
      ensures View() == old(View()).(
        records := old(View()).records[record.id :=
            old(View()).records[record.id].(superseded := true, consumed := true)])
    {
      assert View().records[record.id] == record.Value();
      record.superseded := true;
      record.consumed := true;
      ChangedValue(record);
    }

    /** Changing the flags of one record changes one value of the view. */
    twostate lemma ChangedValue(record: StoredApproval)
      requires Linked() && Known(record) && unchanged(this)
      requires forall r <- minted :: r != record ==> unchanged(r)
      ensures record.id < |minted| && ValuesOf(minted) == old(ValuesOf(minted))[record.id := record.Value()]
    {
      forall i | 0 <= i < |minted| && i != record.id ensures ValuesOf(minted)[i] == old(ValuesOf(minted))[i] {
        assert minted[i] != record;
        assert minted[i] in minted;
      }
    }

    /** One publish call: a prune, then every item of the queue in turn. */
    method Publish(clock: int, items: seq<QueueItem>)
      requires Valid()
      modifies this, repr
      ensures Valid()
      ensures View() == ApprovalRuns.Publish(old(View()), clock, items)
      ensures old(minted) <= minted && fresh(repr - old(repr))
    {
      PruneWellFormed(View(), clock);
      Prune(clock);
      PublishItems(items);
    }

    method PublishItems(items: seq<QueueItem>)
      requires Valid()
      modifies this, repr
      ensures Valid()
      ensures View() == ApprovalRuns.PublishAll(old(View()), items)
      ensures old(minted) <= minted && fresh(repr - old(repr))
    {
      var done := 0;
      ghost var start := View();
      assert items[..0] == [] && items[..|items|] == items;
      assert WellFormed(start) && ApprovalRuns.PublishAll(start, []) == start;
      hide WellFormed, View, Valid, ApprovalRuns.PublishAll;
      while done < |items|
        invariant 0 <= done <= |items|
        invariant Valid()
        invariant View() == ApprovalRuns.PublishAll(start, items[..done])
        invariant old(minted) <= minted && fresh(repr - old(repr))
      {
        PublishNext(start, items, done);
        done := done + 1;
      }
    }

    method PublishNext(ghost pruned: Store, items: seq<QueueItem>, done: nat)
      requires Valid() && WellFormed(pruned) && done < |items|
      requires View() == ApprovalRuns.PublishAll(pruned, items[..done])
      modifies this, repr
      ensures Valid()
      ensures View() == ApprovalRuns.PublishAll(pruned, items[..done + 1])
      ensures old(minted) <= minted && fresh(repr - old(repr))
    {
      assert items[..done + 1][..done] == items[..done];
      ApprovalRuns.PublishAllSnoc(pruned, items[..done + 1]);
      PublishOne(items[done]);
    }

    // ---- decide ----

    /** Removes the record from the live map and from the history. */
    method Detach(record: StoredApproval)
      requires Valid() && Known(record)
      modifies this`current, this`history
      ensures Valid()
      ensures View() == ApprovalStore.Detach(old(View()), record.id)
    {
      DetachWellFormed(View(), record.id);
      ViewKeysDistinct();
      DetachCurrent(record);
      DetachHistory(record);
    }

    method DetachCurrent(record: StoredApproval)
      requires Linked() && Known(record) && Apart([], current, 0)
      modifies this`current
      ensures Linked()
      ensures EntriesOf(current) == DropId(old(EntriesOf(current)), record.id)
    {
      var entries := current;
      ghost var kept: seq<Slot> := [];
      var i := 0;
      assert EntriesOf(kept) == DropId(EntriesOf(entries)[..0], record.id);
      hide Apart, DropId;
      while i < |entries|
        invariant 0 <= i <= |entries|
        invariant Linked()
        invariant current == kept + entries[i..]
        invariant Apart(kept, entries, i)
        invariant EntriesOf(kept) == DropId(EntriesOf(entries)[..i], record.id)
      {
        kept := DetachEntry(record, kept, entries, i);
        i := i + 1;
      }
      assert current == kept;
      assert EntriesOf(entries)[..|entries|] == EntriesOf(entries);
    }

    method DetachEntry(record: StoredApproval, ghost kept: seq<Slot>, entries: seq<Slot>, i: nat)
      returns (ghost keptNow: seq<Slot>)
      requires Linked() && Known(record)
      requires i < |entries| && current == kept + entries[i..] && Apart(kept, entries, i)
      requires EntriesOf(kept) == DropId(EntriesOf(entries)[..i], record.id)
      modifies this`current
      ensures Linked()
      ensures current == keptNow + entries[i + 1..] && Apart(keptNow, entries, i + 1)
      ensures EntriesOf(keptNow) == DropId(EntriesOf(entries)[..i + 1], record.id)
    {
      var slot := entries[i];
      SplitAt(kept, entries, i);
      KeepApart(kept, entries, i);
      assert current[|kept|] == slot;
      DeleteKeyMembers(current, slot.key);
      DeleteKept(kept, entries, i);
      SnocEntry(kept, slot);
      assert EntriesOf(entries)[..i + 1][..i] == EntriesOf(entries)[..i];
      keptNow := kept;
      if slot.record == record {
        current := DeleteKey(current, slot.key);
      } else {
        keptNow := kept + [slot];
      }
    }

    lemma IdsBefore(record: StoredApproval, index: nat)
      requires Linked() && Known(record) && index <= |history| && record !in history[..index]
      ensures |IdsOf(history)| == |history| && record.id !in IdsOf(history)[..index]
      ensures index < |history| ==> IdsOf(history)[index] == history[index].id
    {
      forall i | 0 <= i < index ensures history[i].id != record.id {
        assert history[i] in history[..index];
      }
    }

    method DetachHistory(record: StoredApproval)
      requires Linked() && Known(record)
      modifies this`history
      ensures Linked()
      ensures IdsOf(history) == DropFirst(old(IdsOf(history)), record.id)
    {
      hide IdsOf, DropFirst;
      var index := 0;
      while index < |history| && history[index] != record
        invariant 0 <= index <= |history|
        invariant record !in history[..index]
      {
        index := index + 1;
      }
      IdsBefore(record, index);
      FirstDropped(IdsOf(history), record.id, index);
      if index < |history| {
        SpliceIds(history, index);
        history := history[..index] + history[index + 1..];
      }
    }

    /** The records the token matches, live ones first. */
    method FindByToken(token: Token) returns (matches: seq<StoredApproval>)
      requires Valid()
      ensures IdsInRange(View())
      ensures forall i :: 0 <= i < |matches| ==> Known(matches[i])
      ensures IdsOf(matches) == TokenMatches(View(), token)
    {
      InRange(View());
      hide WellFormed;
      SearchedLength();
      matches := MatchCurrent(token);
      matches := MatchHistory(token, matches);
      assert Searched(View())[..|current| + |history|] == Searched(View());
    }

    lemma SearchedLength()
      ensures |Searched(View())| == |current| + |history|
    {
    }

    /** `matches` are the matches among the first `n` searched records. */
    ghost predicate Matched(token: Token, matches: seq<StoredApproval>, n: nat)
      reads this, minted
    {
      && IdsInRange(View()) && n <= |Searched(View())|
      && (forall i :: 0 <= i < |matches| ==> Known(matches[i]))
      && (forall i :: 0 <= i < n ==> Searched(View())[i] < |View().records|)
      && IdsOf(matches) == MatchesIn(View(), Searched(View())[..n], token)
    }

    lemma SearchedAt(i: nat)
      requires Linked() && i < |current| + |history|
      ensures |Searched(View())| == |current| + |history|
      ensures Searched(View())[i] == (if i < |current| then current[i].record else history[i - |current|]).id
    {
    }

    method MatchCurrent(token: Token) returns (matches: seq<StoredApproval>)
      requires Linked() && IdsInRange(View())
      ensures Matched(token, matches, |current|)
    {
      matches := [];
      assert Matched(token, matches, 0) by {
        assert Searched(View())[..0] == [];
      }
      hide Matched;
      var i := 0;
      while i < |current|
        invariant 0 <= i <= |current|
        invariant Matched(token, matches, i)
      {
        matches := MatchNext(current[i].record, token, matches, i);
        i := i + 1;
      }
    }

    method MatchHistory(token: Token, before: seq<StoredApproval>) returns (matches: seq<StoredApproval>)
      requires Linked() && Matched(token, before, |current|)
      ensures Matched(token, matches, |current| + |history|)
    {
      hide Matched;
      matches := before;
      var i := 0;
      while i < |history|
        invariant 0 <= i <= |history|
        invariant Matched(token, matches, |current| + i)
      {
        matches := MatchNext(history[i], token, matches, |current| + i);
        i := i + 1;
      }
    }

    method MatchNext(record: StoredApproval, token: Token, matches: seq<StoredApproval>, ghost i: nat)
      returns (now: seq<StoredApproval>)
      requires Linked() && Matched(token, matches, i)
      requires i < |current| + |history|
      requires record == if i < |current| then current[i].record else history[i - |current|]
      ensures Matched(token, now, i + 1)
    {
      hide Agree;
      SearchedAt(i);
      assert Known(record);
      assert View().records[record.id] == record.Value();
      ghost var ids := Searched(View());
      assert ids[..i + 1][..i] == ids[..i];
      var same := TokensMatch(record.queueItem.approvalToken, token);
      TokensMatchIsEquality(record.queueItem.approvalToken, token);
      now := matches;
      if same {
        SnocId(matches, record);
        now := matches + [record];
      }
    }

    ghost predicate Agrees(decided: Decided, outcome: Outcome)
      reads this
    {
      match decided
      case Throws(why) => outcome == Rejected(why)
      case Awaits(owner) => Known(owner) && outcome == Resuming(owner.id)
    }

    /** Everything `decide` does before it awaits the control plane. */
    method Decide(decision: Decision, clock: int) returns (decided: Decided)
      requires Valid()
      modifies this`current, this`history, repr
      ensures Valid()
      ensures View() == ApprovalStore.Decide(old(View()), decision, clock).0
      ensures Agrees(decided, ApprovalStore.Decide(old(View()), decision, clock).1)
    {
      DecideWellFormed(View(), decision, clock);
      if decision.Malformed? || !ReasonAllowed(decision.reason) {
        return Throws(Invalid);
      }
      var matches := FindByToken(decision.approvalToken);
      if |matches| == 0 {
        Prune(clock);
        return Throws(UnknownToken);
      }
      if |matches| > 1 {
        return Throws(AmbiguousToken);
      }
      var owner := matches[0];
      assert IdsOf(matches) == [owner.id];
      decided := DecideOwner(owner, decision, clock);
    }

    method DecideOwner(owner: StoredApproval, decision: Decision, clock: int) returns (decided: Decided)
      requires Valid() && Known(owner)
      requires decision.Decision? && ReasonAllowed(decision.reason)
      requires TokenMatches(View(), decision.approvalToken) == [owner.id]
      modifies this`current, this`history, repr
      ensures Valid()
      ensures View() == ApprovalStore.Decide(old(View()), decision, clock).0
      ensures Agrees(decided, ApprovalStore.Decide(old(View()), decision, clock).1)
    {
      DecideWellFormed(View(), decision, clock);
      hide WellFormed, TokenMatches, KeptEntries, PrunedHistory, DropId, DropFirst;
      assert View().records[owner.id] == owner.Value();
      var item := owner.queueItem;
      if item.runId != decision.runId || item.provider != decision.provider
        || item.approvalRequestId != decision.approvalRequestId
      {
        return Throws(CrossRun);
      }
      if owner.superseded {
        Prune(clock);
        return Throws(Superseded);
      }
      if owner.consumed {
        Prune(clock);
        return Throws(AlreadyUsed);
      }
      if Expired(item, clock) {
        Detach(owner);
        Prune(clock);
        return Throws(ExpiredToken);
      }
      Prune(clock);
      label pruned:
      owner.consumed := true;
      ChangedValue@pruned(owner);
      return Awaits(owner);
    }

    /**
     * The end of the awaited resume. A transient failure makes the record usable again; a record
     * with a resume under way is never superseded (`ApprovalRuns.UsedOnce`).
     */
    method Settle(owner: StoredApproval, result: ResumeResult)
      requires Valid() && Known(owner) && !owner.superseded
      modifies owner`consumed
      ensures Valid()
      ensures owner.id < |old(View()).records| && View() == ApprovalStore.Settle(old(View()), owner.id, result)
    {
      assert View().records[owner.id] == owner.Value();
      if result.FailedTransiently? {
        FlagsWellFormed(View(), owner.id, View().records[owner.id].(consumed := false));
        label settled:
        owner.consumed := false;
        ChangedValue@settled(owner);
      }
    }
  }
}
