/** What one operation does, said of the two documents: the code's walk makes exactly this change. */
module PatchEffect {
  import opened Wrappers
  import opened Json
  import opened JsonPatch
  import opened JsonPointer
  import Decimal

  // ---- The change ----

  /** The segment stands for this place in an array: its decimal number, or "-" for the place behind the end. */
  predicate Names(segment: string, index: nat, length: nat, adding: bool) {
    || (segment == Decimal.Show(index) && index <= 9007199254740991 && (index < length || (adding && index == length)))
    || (segment == "-" && adding && index == length)
  }

  predicate Adds(path: Path, op: Op) {
    |path| == 1 && op.Add?
  }

  predicate Inserted(items: seq<Json>, index: nat, value: Json, after: seq<Json>) {
    && index <= |items| && |after| == |items| + 1 && after[index] == value
    && (forall j :: 0 <= j < index ==> after[j] == items[j])
    && (forall j :: index <= j < |items| ==> after[j + 1] == items[j])
  }

  predicate Deleted(items: seq<Json>, index: nat, after: seq<Json>) {
    && index < |items| && |after| == |items| - 1
    && (forall j :: 0 <= j < index ==> after[j] == items[j])
    && (forall j :: index < j < |items| ==> after[j - 1] == items[j])
  }

  predicate OthersKept(items: seq<Json>, index: nat, after: seq<Json>) {
    && index < |items| && |after| == |items|
    && (forall j :: 0 <= j < |items| && j != index ==> after[j] == items[j])
  }

  /** Every other member is kept, except that "__proto__" is dropped. */
  ghost predicate MembersKept(fields: map<string, Json>, segment: string, after: map<string, Json>) {
    && "__proto__" !in after
    && forall k :: k != segment && k != "__proto__" ==>
         (k in after <==> k in fields) && (k in fields ==> after[k] == fields[k])
  }

  predicate MemberSet(segment: string, op: Op, after: map<string, Json>) {
    if op.Remove? then segment !in after else segment in after && after[segment] == op.value
  }

  predicate ElementSet(items: seq<Json>, index: nat, op: Op, after: seq<Json>) {
    match op
    case Add(_, value) => Inserted(items, index, value, after)
    case Remove(_) => Deleted(items, index, after)
    case Replace(_, value) => OthersKept(items, index, after) && after[index] == value
  }

  /** The operation at the path turns `before` into `after`. */
  ghost predicate Effect(before: Json, path: Path, op: Op, after: Json)
    decreases |path|
  {
    if path == [] then !op.Remove? && after == op.value
    else if path[0] == "__proto__" || path[0] == "constructor" || path[0] == "prototype" then false
    else match before
      case Obj(fields) =>
        && after.Obj?
        && MembersKept(fields, path[0], after.fields)
        && (if |path| == 1 then MemberSet(path[0], op, after.fields)
            else
              && path[0] in fields && path[0] in after.fields
              && Effect(fields[path[0]], path[1..], op, after.fields[path[0]]))
      case Arr(items) =>
        && after.Arr?
        && exists i: nat ::
             && Names(path[0], i, |items|, Adds(path, op))
             && (if |path| == 1 then ElementSet(items, i, op, after.items)
                 else OthersKept(items, i, after.items) && Effect(items[i], path[1..], op, after.items[i]))
      case _ => false
  }

  // ---- Indices ----

  lemma DashIsNoNumber(index: nat)
    ensures Decimal.Show(index) != "-"
  {
    Decimal.ShowCanonical(index);
  }

  /** The accepted segments and the places they stand for. */
  lemma NamesExact(segment: string, operation: OpKind, length: nat, index: nat)
    ensures ArrayIndex(segment, operation, length) == Success(index)
       <==> Names(segment, index, length, operation.AddOp?)
  {
    DashIsNoNumber(index);
    if segment != "-" {
      IndexSpelling(segment, operation, length, index);
    }
  }

  /** Which error a segment that names no place gives. */
  lemma IndexErrors(segment: string, operation: OpKind, length: nat)
    ensures segment == "-" && !operation.AddOp? ==>
      ArrayIndex(segment, operation, length) == Failure(DashWithoutAdd)
    ensures segment != "-" && (forall n: nat :: n <= 9007199254740991 ==> segment != Decimal.Show(n)) ==>
      ArrayIndex(segment, operation, length) == Failure(InvalidIndex)
    ensures forall n: nat | segment == Decimal.Show(n) && n <= 9007199254740991 ::
      !Names(segment, n, length, operation.AddOp?) ==>
        ArrayIndex(segment, operation, length) == Failure(IndexOutOfBounds)
  {
    if segment != "-" && (forall n: nat :: n <= 9007199254740991 ==> segment != Decimal.Show(n))
      && Decimal.Canonical(segment)
    {
      Decimal.CanonicalIsShown(segment);
      assert segment == Decimal.Show(Decimal.Value(segment));
    }
    forall n: nat | segment == Decimal.Show(n) && n <= 9007199254740991 && !Names(segment, n, length, operation.AddOp?)
      ensures ArrayIndex(segment, operation, length) == Failure(IndexOutOfBounds)
    {
      Decimal.ShowCanonical(n);
      DashIsNoNumber(n);
    }
  }

  // ---- The walk makes exactly the change ----

  function ElementsAfter(items: seq<Json>, index: nat, op: Op): seq<Json>
    requires index <= |items| && (!op.Add? ==> index < |items|)
  {
    match op
    case Remove(_) => items[..index] + items[index + 1..]
    case Add(_, value) => items[..index] + [value] + items[index..]
    case Replace(_, value) => items[index := value]
  }

  lemma InsertedExact(items: seq<Json>, index: nat, value: Json, after: seq<Json>)
    requires index <= |items|
    ensures Inserted(items, index, value, after) <==> after == items[..index] + [value] + items[index..]
  {
    var expected := items[..index] + [value] + items[index..];
    assert forall j :: index <= j < |items| ==> expected[j + 1] == items[j];
    if Inserted(items, index, value, after) {
      forall j | index < j < |after| ensures after[j] == expected[j] {
        assert after[(j - 1) + 1] == items[j - 1];
      }
    }
  }

  lemma DeletedExact(items: seq<Json>, index: nat, after: seq<Json>)
    requires index < |items|
    ensures Deleted(items, index, after) <==> after == items[..index] + items[index + 1..]
  {
    var expected := items[..index] + items[index + 1..];
    assert forall j :: index < j < |items| ==> expected[j - 1] == items[j];
    if Deleted(items, index, after) {
      forall j | index <= j < |after| ensures after[j] == expected[j] {
        assert after[(j + 1) - 1] == items[j + 1];
      }
    }
  }

  lemma ElementSetExact(items: seq<Json>, index: nat, op: Op, after: seq<Json>)
    requires index <= |items| && (!op.Add? ==> index < |items|)
    ensures ElementSet(items, index, op, after) <==> after == ElementsAfter(items, index, op)
  {
    hide Inserted, Deleted;
    match op
    case Add(_, value) => InsertedExact(items, index, value, after);
    case Remove(_) => DeletedExact(items, index, after);
    case Replace(_, _) =>
  }

  lemma LeafElement(items: seq<Json>, segment: string, op: Op, after: Json)
    ensures ApplyOperation(Arr(items), [segment], op) == Success(after) <==> Effect(Arr(items), [segment], op, after)
  {
    assert [segment][1..] == [];
    var r := ArrayIndex(segment, op.Kind(), |items|);
    assert ApplyOperation(Arr(items), [segment], op)
        == if Reserved(segment) then Failure(ForbiddenSegment)
           else if r.Failure? then Failure(r.error)
           else Success(Arr(ElementsAfter(items, r.value, op)));
    hide ArrayIndex, ElementSet, ElementsAfter;
    if r.Success? {
      NamesExact(segment, op.Kind(), |items|, r.value);
      if after.Arr? {
        ElementSetExact(items, r.value, op, after.items);
      }
    }
    if Effect(Arr(items), [segment], op, after) {
      var i: nat :| Names(segment, i, |items|, op.Add?) && ElementSet(items, i, op, after.items);
      NamesExact(segment, op.Kind(), |items|, i);
    }
  }

  lemma LeafMember(fields: map<string, Json>, segment: string, op: Op, after: Json)
    ensures ApplyOperation(Obj(fields), [segment], op) == Success(after) <==> Effect(Obj(fields), [segment], op, after)
  {
    assert [segment][1..] == [];
    if Effect(Obj(fields), [segment], op, after) {
      if op.Remove? {
        assert after.fields == RecordWithout(fields, segment);
      } else {
        assert after.fields == RecordWith(fields, segment, op.value);
      }
    }
  }

  /** An operation succeeds with a document exactly when that document is its effect. */
  lemma {:induction false} OperationExact(before: Json, path: Path, op: Op, after: Json)
    ensures ApplyOperation(before, path, op) == Success(after) <==> Effect(before, path, op, after)
    decreases |path|
  {
    if |path| > 1 {
      var rest := path[1..];
      match before
      case Obj(fields) =>
        if path[0] in fields {
          forall child ensures ApplyOperation(fields[path[0]], rest, op) == Success(child)
            <==> Effect(fields[path[0]], rest, op, child)
          {
            OperationExact(fields[path[0]], rest, op, child);
          }
          InnerMember(fields, path, op, after);
        }
      case Arr(items) =>
        forall i, child | 0 <= i < |items|
          ensures ApplyOperation(items[i], rest, op) == Success(child) <==> Effect(items[i], rest, op, child)
        {
          OperationExact(items[i], rest, op, child);
        }
        InnerElement(items, path, op, after);
      case _ =>
    } else if |path| == 1 {
      assert path == [path[0]];
      match before
      case Obj(fields) => LeafMember(fields, path[0], op, after);
      case Arr(items) => LeafElement(items, path[0], op, after);
      case _ =>
    }
  }

  lemma InnerMember(fields: map<string, Json>, path: Path, op: Op, after: Json)
    requires |path| > 1 && path[0] in fields
    requires forall child ::
      (ApplyOperation(fields[path[0]], path[1..], op) == Success(child)
       <==> Effect(fields[path[0]], path[1..], op, child))
    ensures ApplyOperation(Obj(fields), path, op) == Success(after) <==> Effect(Obj(fields), path, op, after)
  {
    if Effect(Obj(fields), path, op, after) {
      var child := after.fields[path[0]];
      assert after.fields == RecordWith(fields, path[0], child);
    }
  }

  lemma InnerElement(items: seq<Json>, path: Path, op: Op, after: Json)
    requires |path| > 1
    requires forall i, child :: 0 <= i < |items| ==>
      (ApplyOperation(items[i], path[1..], op) == Success(child) <==> Effect(items[i], path[1..], op, child))
    ensures ApplyOperation(Arr(items), path, op) == Success(after) <==> Effect(Arr(items), path, op, after)
  {
    var r := ArrayIndex(path[0], ReplaceOp, |items|);
    hide ArrayIndex, Names, Reserved;
    if r.Success? {
      NamesExact(path[0], ReplaceOp, |items|, r.value);
    }
    if Effect(Arr(items), path, op, after) {
      var i: nat :| Names(path[0], i, |items|, false) && OthersKept(items, i, after.items)
        && Effect(items[i], path[1..], op, after.items[i]);
      NamesExact(path[0], ReplaceOp, |items|, i);
      assert ApplyOperation(items[i], path[1..], op) == Success(after.items[i]);
      assert after.items == items[i := after.items[i]];
    }
  }

  /** An add at "-" puts the value behind the last element; no other operation takes it. */
  lemma DashAppends(items: seq<Json>, op: Op)
    ensures ApplyOperation(Arr(items), ["-"], op)
         == if op.Add? then Success(Arr(items + [op.value])) else Failure(DashWithoutAdd)
  {
    assert ["-"][1..] == [];
    assert items[..|items|] + [Null] + items[|items|..] == items + [Null];
    if op.Add? {
      assert items[..|items|] + [op.value] + items[|items|..] == items + [op.value];
    }
  }

  // ---- The error ----

  /** The first obstacle on the way down the path. */
  ghost predicate Obstacle(before: Json, path: Path, op: Op, error: PatchError)
    decreases |path|
  {
    if path == [] then op.Remove? && error == RootRemoved
    else if path[0] == "__proto__" || path[0] == "constructor" || path[0] == "prototype" then error == ForbiddenSegment
    else match before
      case Obj(fields) =>
        && |path| > 1
        && if path[0] in fields then Obstacle(fields[path[0]], path[1..], op, error) else error == PathMissing
      case Arr(items) =>
        if exists i: nat :: Names(path[0], i, |items|, Adds(path, op)) then
          |path| > 1 && exists i: nat :: Names(path[0], i, |items|, false) && Obstacle(items[i], path[1..], op, error)
        else error == NoPlace(path[0])
      case _ => error == PathMissing
  }

  /** Why a segment names no place in an array. */
  ghost function NoPlace(segment: string): PatchError {
    if segment == "-" then DashWithoutAdd
    else if exists n: nat :: n <= 9007199254740991 && segment == Decimal.Show(n) then IndexOutOfBounds
    else InvalidIndex
  }

  lemma PlaceExact(segment: string, operation: OpKind, length: nat)
    ensures forall i: nat ::
      ArrayIndex(segment, operation, length) == Success(i) <==> Names(segment, i, length, operation.AddOp?)
    ensures (exists i: nat :: Names(segment, i, length, operation.AddOp?))
      <==> ArrayIndex(segment, operation, length).Success?
    ensures ArrayIndex(segment, operation, length).Failure? ==>
      ArrayIndex(segment, operation, length) == Failure(NoPlace(segment))
  {
    var r := ArrayIndex(segment, operation, length);
    IndexErrors(segment, operation, length);
    forall i: nat ensures r == Success(i) <==> Names(segment, i, length, operation.AddOp?) {
      NamesExact(segment, operation, length, i);
    }
    hide ArrayIndex;
    if r.Success? {
      assert Names(segment, r.value, length, operation.AddOp?);
    }
  }

  lemma NoLeafElement(items: seq<Json>, segment: string, op: Op, error: PatchError)
    ensures ApplyOperation(Arr(items), [segment], op) == Failure(error) <==> Obstacle(Arr(items), [segment], op, error)
  {
    assert [segment][1..] == [] && op.Kind().AddOp? == Adds([segment], op);
    PlaceExact(segment, op.Kind(), |items|);
    hide ArrayIndex, NoPlace, Names;
  }

  lemma NoInnerElement(items: seq<Json>, path: Path, op: Op, error: PatchError)
    requires |path| > 1
    requires forall i :: 0 <= i < |items| ==>
      (ApplyOperation(items[i], path[1..], op) == Failure(error) <==> Obstacle(items[i], path[1..], op, error))
    ensures ApplyOperation(Arr(items), path, op) == Failure(error) <==> Obstacle(Arr(items), path, op, error)
  {
    assert !Adds(path, op);
    PlaceExact(path[0], ReplaceOp, |items|);
    hide ArrayIndex, NoPlace, Names, Adds;
    var r := ArrayIndex(path[0], ReplaceOp, |items|);
    if r.Success? {
      assert Names(path[0], r.value, |items|, false);
    }
  }

  /** An operation fails with an error exactly when the first obstacle gives that error. */
  lemma {:induction false} FailureExact(before: Json, path: Path, op: Op, error: PatchError)
    ensures ApplyOperation(before, path, op) == Failure(error) <==> Obstacle(before, path, op, error)
    decreases |path|
  {
    hide ArrayIndex, NoPlace, Names;
    if path != [] {
      match before
      case Obj(fields) =>
        if |path| > 1 && path[0] in fields {
          FailureExact(fields[path[0]], path[1..], op, error);
        }
      case Arr(items) =>
        if |path| == 1 {
          assert path == [path[0]];
          NoLeafElement(items, path[0], op, error);
        } else {
          forall i | 0 <= i < |items|
            ensures ApplyOperation(items[i], path[1..], op) == Failure(error)
              <==> Obstacle(items[i], path[1..], op, error)
          {
            FailureExact(items[i], path[1..], op, error);
          }
          NoInnerElement(items, path, op, error);
        }
      case _ =>
    }
  }

  // ---- Whole patches ----

  /** One operation, its pointer read, turns `before` into `after`. */
  ghost predicate Stepped(before: Json, op: Op, after: Json) {
    PointerSegments(op.path).Some? && Effect(before, PointerSegments(op.path).value, op, after)
  }

  /** The documents between the operations of a patch. */
  ghost predicate Chain(docs: seq<Json>, ops: seq<Op>) {
    |docs| == |ops| + 1 && forall i :: 0 <= i < |ops| ==> Stepped(docs[i], ops[i], docs[i + 1])
  }

  lemma StepExact(before: Json, op: Op, after: Json)
    ensures ApplyOne(before, op) == Success(after) <==> Stepped(before, op, after)
  {
    hide ApplyOperation, PointerSegments;
    if PointerSegments(op.path).Some? {
      OperationExact(before, PointerSegments(op.path).value, op, after);
    }
  }

  ghost predicate Leads(document: Json, ops: seq<Op>, after: Json, docs: seq<Json>) {
    Chain(docs, ops) && docs[0] == document && docs[|ops|] == after
  }

  lemma LeadsSnoc(document: Json, ops: seq<Op>, op: Op, docs: seq<Json>, next: Json)
    requires Chain(docs, ops) && docs[0] == document && Stepped(docs[|ops|], op, next)
    ensures Leads(document, ops + [op], next, docs + [next])
  {
    var all, longer := ops + [op], docs + [next];
    hide Stepped;
    forall i | 0 <= i < |all| ensures Stepped(longer[i], all[i], longer[i + 1]) {
      if i < |ops| {
        assert Stepped(docs[i], ops[i], docs[i + 1]);
      }
    }
  }

  /** A patch succeeds with a document exactly when a chain of single changes leads to it. */
  lemma {:induction false} PatchExact(document: Json, ops: seq<Op>, after: Json)
    ensures ApplyAll(document, ops) == Success(after) <==> exists docs :: Leads(document, ops, after, docs)
  {
    hide Stepped, ApplyOne;
    if ops == [] {
      if document == after {
        assert Leads(document, ops, after, [document]);
      }
    } else {
      var init, last := ops[..|ops| - 1], ops[|ops| - 1];
      assert ops == init + [last];
      if ApplyAll(document, ops) == Success(after) {
        var before := ApplyAll(document, init).value;
        PatchExact(document, init, before);
        var docs :| Leads(document, init, before, docs);
        StepExact(before, last, after);
        LeadsSnoc(document, init, last, docs, after);
      }
      if exists docs :: Leads(document, ops, after, docs) {
        var docs :| Leads(document, ops, after, docs);
        LeadsInit(document, init, last, after, docs);
        PatchExact(document, init, docs[|init|]);
        StepExact(docs[|init|], last, after);
      }
    }
  }

  lemma LeadsInit(document: Json, init: seq<Op>, last: Op, after: Json, docs: seq<Json>)
    requires Leads(document, init + [last], after, docs)
    ensures Leads(document, init, docs[|init|], docs[..|init| + 1])
    ensures Stepped(docs[|init|], last, after)
  {
    var ops, shorter := init + [last], docs[..|init| + 1];
    hide Stepped;
    forall i | 0 <= i < |init| ensures Stepped(shorter[i], init[i], shorter[i + 1]) {
      assert Stepped(docs[i], ops[i], docs[i + 1]);
    }
    assert Stepped(docs[|init|], ops[|init|], docs[|init| + 1]);
  }
}
