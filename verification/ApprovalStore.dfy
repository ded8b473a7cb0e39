/** The approval session as a value: published records, the live map, the history and the calls on them. */
module ApprovalStore {
  import opened Wrappers
  import opened TokenCompare

  const REASON_MAX_CHARS := 1000
  const HISTORY_LIMIT := 64

  datatype QueueItem = QueueItem(
    runId: string, provider: string, approvalRequestId: string, approvalToken: Token, expiresAt: Option<int>)

  datatype Reason = NotAString | Text(text: string)

  datatype Decision =
    | Malformed
    | Decision(runId: string, provider: string, approvalRequestId: string, approvalToken: Token, reason: Option<Reason>)

  datatype Rejection = Invalid | UnknownToken | AmbiguousToken | CrossRun | Superseded | AlreadyUsed | ExpiredToken

  datatype Outcome = Rejected(why: Rejection) | Resuming(id: nat)

  datatype Record = Record(item: QueueItem, consumed: bool, superseded: bool)

  datatype Entry = Entry(key: string, id: nat)

  /**
   * `records` holds every record ever published, in order; its index is the record's identity.
   * `current` is the insertion-ordered map, `history` the bounded list.
   */
  datatype Store = Store(records: seq<Record>, current: seq<Entry>, history: seq<nat>)

  const EMPTY := Store([], [], [])

  function ApprovalKey(item: QueueItem): string {
    item.runId + "\0" + item.provider + "\0" + item.approvalRequestId
  }

  /** The same approval of the same run. */
  predicate SameFields(a: QueueItem, b: QueueItem) {
    a.runId == b.runId && a.provider == b.provider && a.approvalRequestId == b.approvalRequestId
  }

  predicate Expired(item: QueueItem, clock: int) {
    item.expiresAt.Some? && clock >= item.expiresAt.value
  }

  // ---- Well-formed stores ----

  ghost predicate Distinct<T(!new)>(s: seq<T>) {
    forall i, j :: 0 <= i < j < |s| ==> s[i] != s[j]
  }

  ghost predicate InCurrent(s: Store, id: nat) {
    exists i :: 0 <= i < |s.current| && s.current[i].id == id
  }

  /** The record can be found by its token. */
  ghost predicate Stored(s: Store, id: nat) {
    InCurrent(s, id) || id in s.history
  }

  ghost predicate IdsInRange(s: Store) {
    && (forall i :: 0 <= i < |s.current| ==> s.current[i].id < |s.records|)
    && (forall i :: 0 <= i < |s.history| ==> s.history[i] < |s.records|)
  }

  ghost predicate WellFormed(s: Store) {
    && IdsInRange(s)
    && (forall i, j :: 0 <= i < j < |s.current| ==>
        s.current[i].key != s.current[j].key && s.current[i].id != s.current[j].id)
    && (forall i :: 0 <= i < |s.current| ==> s.current[i].key == ApprovalKey(s.records[s.current[i].id].item))
    && Distinct(s.history)
    && (forall i :: 0 <= i < |s.current| ==> s.current[i].id !in s.history)
    && |s.history| <= HISTORY_LIMIT
    && (forall id :: 0 <= id < |s.records| && s.records[id].superseded ==> s.records[id].consumed)
    && (forall i, id :: 0 <= i < |s.current| && s.current[i].id < id < |s.records| ==>
          ApprovalKey(s.records[id].item) != s.current[i].key)
  }

  // ---- Pruning ----

  function Spent(records: seq<Record>, id: nat): bool
    requires id < |records|
  {
    records[id].consumed || records[id].superseded
  }

  predicate Keeps(records: seq<Record>, clock: int, id: nat)
    requires id < |records|
  {
    !Expired(records[id].item, clock) && !Spent(records, id)
  }

  /** The entries that stay in the live map. */
  function KeptEntries(records: seq<Record>, clock: int, current: seq<Entry>): seq<Entry>
    requires forall i :: 0 <= i < |current| ==> current[i].id < |records|
  {
    if current == [] then []
    else
      var init, last := current[..|current| - 1], current[|current| - 1];
      KeptEntries(records, clock, init) + if Keeps(records, clock, last.id) then [last] else []
  }

  /** The history after the spent entries of the live map were moved to it. */
  function MovedTo(records: seq<Record>, clock: int, current: seq<Entry>, history: seq<nat>): seq<nat>
    requires forall i :: 0 <= i < |current| ==> current[i].id < |records|
  {
    if current == [] then history
    else
      var init, last := current[..|current| - 1], current[|current| - 1];
      var moved := MovedTo(records, clock, init, history);
      if !Expired(records[last.id].item, clock) && Spent(records, last.id) && last.id !in moved then moved + [last.id]
      else moved
  }

  function Unexpired(records: seq<Record>, clock: int, history: seq<nat>): seq<nat>
    requires forall i :: 0 <= i < |history| ==> history[i] < |records|
  {
    if history == [] then []
    else
      var init, last := history[..|history| - 1], history[|history| - 1];
      Unexpired(records, clock, init) + if Expired(records[last].item, clock) then [] else [last]
  }

  /** The newest entries of the history, up to its limit. */
  function Cap(history: seq<nat>): seq<nat> {
    if |history| > HISTORY_LIMIT then history[|history| - HISTORY_LIMIT..] else history
  }

  lemma {:induction false} MovedMembers(records: seq<Record>, clock: int, current: seq<Entry>, history: seq<nat>)
    requires forall i :: 0 <= i < |current| ==> current[i].id < |records|
    ensures forall id :: id in MovedTo(records, clock, current, history) ==>
      || id in history
      || ((exists i :: 0 <= i < |current| && current[i].id == id)
          && !Expired(records[id].item, clock) && Spent(records, id))
    ensures Distinct(history) ==> Distinct(MovedTo(records, clock, current, history))
    ensures forall id :: id in history ==> id in MovedTo(records, clock, current, history)
    ensures forall i :: 0 <= i < |current| ==>
      !Expired(records[current[i].id].item, clock) && Spent(records, current[i].id) ==>
        current[i].id in MovedTo(records, clock, current, history)
  {
    if current != [] {
      MovedMembers(records, clock, current[..|current| - 1], history);
    }
  }

  lemma {:induction false} KeptMembers(records: seq<Record>, clock: int, current: seq<Entry>)
    requires forall i :: 0 <= i < |current| ==> current[i].id < |records|
    ensures forall e :: e in KeptEntries(records, clock, current) <==> e in current && Keeps(records, clock, e.id)
    ensures Distinct(current) ==> Distinct(KeptEntries(records, clock, current))
  {
    if current != [] {
      KeptMembers(records, clock, current[..|current| - 1]);
    }
  }

  lemma {:induction false} UnexpiredMembers(records: seq<Record>, clock: int, history: seq<nat>)
    requires forall i :: 0 <= i < |history| ==> history[i] < |records|
    ensures forall id ::
      id in Unexpired(records, clock, history) <==> id in history && !Expired(records[id].item, clock)
    ensures Distinct(history) ==> Distinct(Unexpired(records, clock, history))
  {
    if history != [] {
      UnexpiredMembers(records, clock, history[..|history| - 1]);
    }
  }

  lemma MovedInRange(s: Store, clock: int)
    requires IdsInRange(s)
    ensures forall i :: 0 <= i < |MovedTo(s.records, clock, s.current, s.history)| ==>
      MovedTo(s.records, clock, s.current, s.history)[i] < |s.records|
  {
    MovedMembers(s.records, clock, s.current, s.history);
    var moved := MovedTo(s.records, clock, s.current, s.history);
    forall i | 0 <= i < |moved| ensures moved[i] < |s.records| {
      assert moved[i] in moved;
    }
  }

  /** The history a prune leaves, before the limit is applied. */
  function PrunedHistory(s: Store, clock: int): seq<nat>
    requires IdsInRange(s)
  {
    MovedInRange(s, clock);
    Unexpired(s.records, clock, MovedTo(s.records, clock, s.current, s.history))
  }

  function Prune(s: Store, clock: int): Store
    requires IdsInRange(s)
  {
    s.(current := KeptEntries(s.records, clock, s.current), history := Cap(PrunedHistory(s, clock)))
  }

  lemma CapMembers(history: seq<nat>)
    ensures forall id :: id in Cap(history) ==> id in history
    ensures Distinct(history) ==> Distinct(Cap(history))
    ensures |Cap(history)| <= HISTORY_LIMIT
  {
  }

  /** Who is stored after a prune. */
  lemma PrunedMembers(s: Store, clock: int)
    requires IdsInRange(s)
    ensures IdsInRange(Prune(s, clock))
    ensures forall e :: e in Prune(s, clock).current <==> e in s.current && Keeps(s.records, clock, e.id)
    ensures forall id :: id in Prune(s, clock).history ==>
      !Expired(s.records[id].item, clock) && (id in s.history || (InCurrent(s, id) && Spent(s.records, id)))
    ensures Distinct(s.current) ==> Distinct(Prune(s, clock).current)
    ensures Distinct(s.history) ==> Distinct(Prune(s, clock).history)
    ensures |Prune(s, clock).history| <= HISTORY_LIMIT
  {
    MovedInRange(s, clock);
    var moved := MovedTo(s.records, clock, s.current, s.history);
    MovedMembers(s.records, clock, s.current, s.history);
    KeptMembers(s.records, clock, s.current);
    UnexpiredMembers(s.records, clock, moved);
    CapMembers(PrunedHistory(s, clock));
    var r := Prune(s, clock);
    forall i | 0 <= i < |r.current| ensures r.current[i].id < |s.records| {
      assert r.current[i] in r.current;
    }
    forall i | 0 <= i < |r.history| ensures r.history[i] < |s.records| {
      assert r.history[i] in r.history;
    }
  }

  // ---- Publishing ----

  function FindKey(current: seq<Entry>, key: string): (r: Option<nat>)
    ensures r.Some? ==> exists i :: 0 <= i < |current| && current[i] == Entry(key, r.value)
    ensures r.None? ==> forall i :: 0 <= i < |current| ==> current[i].key != key
  {
    if current == [] then None
    else if current[|current| - 1].key == key then
      assert current[|current| - 1] == Entry(key, current[|current| - 1].id);
      Some(current[|current| - 1].id)
    else FindKey(current[..|current| - 1], key)
  }

  /** `Map.set`: an existing key keeps its place. */
  function SetEntry(current: seq<Entry>, entry: Entry): seq<Entry> {
    if current == [] then [entry]
    else
      var init, last := current[..|current| - 1], current[|current| - 1];
      if last.key == entry.key then init + [entry] else SetEntry(init, entry) + [last]
  }

  ghost predicate KeysDistinct(current: seq<Entry>) {
    forall i, j :: 0 <= i < j < |current| ==> current[i].key != current[j].key
  }

  lemma {:induction false} SetEntryMembers(current: seq<Entry>, entry: Entry)
    requires KeysDistinct(current)
    ensures KeysDistinct(SetEntry(current, entry))
    ensures forall e :: e in SetEntry(current, entry) <==> e == entry || (e in current && e.key != entry.key)
  {
    if current != [] {
      var init, last := current[..|current| - 1], current[|current| - 1];
      SetEntryMembers(init, entry);
      var r := SetEntry(current, entry);
      assert current == init + [last];
      if last.key == entry.key {
        forall e ensures e in r <==> e == entry || (e in current && e.key != entry.key) {
          assert e in r <==> e in init || e == entry;
          assert forall i :: 0 <= i < |init| ==> current[i].key != current[|current| - 1].key;
        }
        forall i, j | 0 <= i < j < |r| ensures r[i].key != r[j].key {
          assert r[i].key == current[i].key && r[j].key == current[j].key;
        }
      } else {
        var inner := SetEntry(init, entry);
        assert r == inner + [last];
        forall i | 0 <= i < |inner| ensures inner[i].key != last.key {
          assert inner[i] in inner;
          if inner[i] != entry {
            var j :| 0 <= j < |init| && init[j] == inner[i];
            assert current[j].key != current[|current| - 1].key;
          }
        }
        forall i, j | 0 <= i < j < |r| ensures r[i].key != r[j].key {
          if j == |inner| {
            assert r[j] == last && r[i] == inner[i];
          } else {
            assert r[j] == inner[j] && r[i] == inner[i];
          }
        }
      }
    }
  }

  /** The live record of `key`, when it is still usable, is retired into the history. */
  function Retire(s: Store, key: string): Store
    requires IdsInRange(s)
  {
    var previous := FindKey(s.current, key);
    if previous.Some? && !s.records[previous.value].consumed then
      s.(records := s.records[previous.value := s.records[previous.value].(superseded := true, consumed := true)],
         history := Cap(s.history + [previous.value]))
    else s
  }

  function PublishOne(s: Store, item: QueueItem): Store
    requires IdsInRange(s)
  {
    var key := ApprovalKey(item);
    var retired := Retire(s, key);
    retired.(records := retired.records + [Record(item, false, false)],
             current := SetEntry(retired.current, Entry(key, |retired.records|)))
  }

  // ---- Deciding ----

  function MatchesIn(s: Store, ids: seq<nat>, token: string): seq<nat>
    requires forall i :: 0 <= i < |ids| ==> ids[i] < |s.records|
  {
    if ids == [] then []
    else
      var init, last := ids[..|ids| - 1], ids[|ids| - 1];
      MatchesIn(s, init, token) + if s.records[last].item.approvalToken == token then [last] else []
  }

  function Ids(current: seq<Entry>): seq<nat> {
    seq(|current|, i requires 0 <= i < |current| => current[i].id)
  }

  /** Everything a token is looked up in: the live map, then the history. */
  function Searched(s: Store): seq<nat> {
    Ids(s.current) + s.history
  }

  function TokenMatches(s: Store, token: string): seq<nat>
    requires IdsInRange(s)
  {
    MatchesIn(s, Searched(s), token)
  }

  lemma {:induction false} MatchMembers(s: Store, ids: seq<nat>, token: string)
    requires forall i :: 0 <= i < |ids| ==> ids[i] < |s.records|
    ensures forall id :: id in MatchesIn(s, ids, token) <==> id in ids && s.records[id].item.approvalToken == token
    ensures Distinct(ids) ==> Distinct(MatchesIn(s, ids, token))
  {
    if ids != [] {
      MatchMembers(s, ids[..|ids| - 1], token);
    }
  }

  predicate ReasonAllowed(reason: Option<Reason>) {
    match reason
    case None => true
    case Some(NotAString) => false
    case Some(Text(text)) => |text| <= REASON_MAX_CHARS
  }

  function Detach(s: Store, id: nat): Store {
    s.(current := DropId(s.current, id), history := DropFirst(s.history, id))
  }

  function DropId(current: seq<Entry>, id: nat): seq<Entry> {
    if current == [] then []
    else
      var init, last := current[..|current| - 1], current[|current| - 1];
      DropId(init, id) + if last.id == id then [] else [last]
  }

  function DropFirst(history: seq<nat>, id: nat): seq<nat> {
    if history == [] then []
    else if history[0] == id then history[1..]
    else [history[0]] + DropFirst(history[1..], id)
  }

  lemma {:induction false} DropIdMembers(current: seq<Entry>, id: nat)
    ensures forall e :: e in DropId(current, id) <==> e in current && e.id != id
    ensures Distinct(current) ==> Distinct(DropId(current, id))
  {
    if current != [] {
      DropIdMembers(current[..|current| - 1], id);
    }
  }

  lemma {:induction false} DropFirstMembers(history: seq<nat>, id: nat)
    requires Distinct(history)
    ensures forall x :: x in DropFirst(history, id) <==> x in history && x != id
    ensures Distinct(DropFirst(history, id))
    ensures |DropFirst(history, id)| <= |history|
  {
    if history != [] {
      assert Distinct(history[1..]);
      DropFirstMembers(history[1..], id);
      assert history == [history[0]] + history[1..];
      if history[0] == id {
        assert id !in history[1..];
      } else {
        var r := DropFirst(history[1..], id);
        assert history[0] !in r;
      }
    }
  }

  lemma DetachInRange(s: Store, id: nat)
    requires IdsInRange(s)
    ensures IdsInRange(Detach(s, id))
  {
    DropIdMembers(s.current, id);
    var r := Detach(s, id);
    forall i | 0 <= i < |r.current| ensures r.current[i].id < |s.records| {
      assert r.current[i] in r.current;
    }
    DropFirstSubset(s.history, id);
    forall i | 0 <= i < |r.history| ensures r.history[i] < |s.records| {
      assert r.history[i] in r.history;
    }
  }

  lemma {:induction false} DropFirstSubset(history: seq<nat>, id: nat)
    ensures forall x :: x in DropFirst(history, id) ==> x in history
  {
    if history != [] && history[0] != id {
      DropFirstSubset(history[1..], id);
    }
  }

  /** A decision up to the resume: either an error, or the record whose resume starts. */
  function Decide(s: Store, decision: Decision, clock: int): (Store, Outcome)
    requires IdsInRange(s)
  {
    if decision.Malformed? || !ReasonAllowed(decision.reason) then (s, Rejected(Invalid))
    else
      var found := TokenMatches(s, decision.approvalToken);
      MatchMembers(s, Searched(s), decision.approvalToken);
      if found == [] then (Prune(s, clock), Rejected(UnknownToken))
      else if |found| > 1 then (s, Rejected(AmbiguousToken))
      else
        var owner := found[0];
        assert owner in found && owner in Searched(s);
        var record := s.records[owner];
        if record.item.runId != decision.runId
          || record.item.provider != decision.provider
          || record.item.approvalRequestId != decision.approvalRequestId
        then (s, Rejected(CrossRun))
        else if record.superseded then (Prune(s, clock), Rejected(Superseded))
        else if record.consumed then (Prune(s, clock), Rejected(AlreadyUsed))
        else if Expired(record.item, clock) then
          DetachInRange(s, owner);
          (Prune(Detach(s, owner), clock), Rejected(ExpiredToken))
        else
          var pruned := Prune(s, clock);
          (pruned.(records := pruned.records[owner := record.(consumed := true)]), Resuming(owner))
  }

  // ---- After the resume ----

  datatype ResumeResult = Resumed | FailedFinally | FailedTransiently

  /** Only a transient failure makes the record usable again. */
  function Settle(s: Store, id: nat, result: ResumeResult): Store
    requires id < |s.records|
  {
    if result.FailedTransiently? then s.(records := s.records[id := s.records[id].(consumed := false)]) else s
  }
}
