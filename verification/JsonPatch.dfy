/** The JSON diff and the patch that replays it: add, remove and replace of RFC 6902. */
module JsonPatch {
  import opened Wrappers
  import opened Json
  import opened JsonPointer
  import Decimal

  datatype OpKind = AddOp | RemoveOp | ReplaceOp

  datatype Op =
    | Add(path: string, value: Json)
    | Remove(path: string)
    | Replace(path: string, value: Json)
  {
    function Kind(): OpKind {
      match this
      case Add(_, _) => AddOp
      case Remove(_) => RemoveOp
      case Replace(_, _) => ReplaceOp
    }
  }

  datatype PatchError =
    | InvalidPointer
    | ForbiddenSegment
    | DashWithoutAdd
    | InvalidIndex
    | IndexOutOfBounds
    | PathMissing
    | RootRemoved

  type Path = seq<string>

  // ---- Array indices ----

  const MAX_SAFE_INTEGER: nat := 9007199254740991

  /** An array index segment is accepted when it is canonical, safe and in bounds for the operation. */
  function ArrayIndex(segment: string, operation: OpKind, length: nat): (r: Result<nat, PatchError>)
    ensures r.Success? ==> r.value <= length && (!operation.AddOp? ==> r.value < length)
  {
    if segment == "-" then if operation.AddOp? then Success(length) else Failure(DashWithoutAdd)
    else if !Decimal.Canonical(segment) || Decimal.Value(segment) > MAX_SAFE_INTEGER then Failure(InvalidIndex)
    else
      var index := Decimal.Value(segment);
      if index > (if operation.AddOp? then length as int else length - 1) then Failure(IndexOutOfBounds)
      else Success(index)
  }

  method ParseArrayIndex(segment: string, operation: OpKind, length: nat) returns (r: Result<nat, PatchError>)
    ensures r == ArrayIndex(segment, operation, length)
  {
    if segment == "-" {
      if !operation.AddOp? {
        return Failure(DashWithoutAdd);
      }
      return Success(length);
    }
    if !Decimal.Canonical(segment) {
      return Failure(InvalidIndex);
    }
    var index := 0;
    var cursor := 0;
    while cursor < |segment|
      invariant 0 <= cursor <= |segment|
      invariant index == Decimal.Value(segment[..cursor]) <= MAX_SAFE_INTEGER
    {
      assert segment[..cursor + 1][..cursor] == segment[..cursor];
      index := index * 10 + Decimal.DigitValue(segment[cursor]);
      if index > MAX_SAFE_INTEGER {
        ValueGrows(segment, cursor + 1);
        return Failure(InvalidIndex);
      }
      cursor := cursor + 1;
    }
    assert segment[..cursor] == segment;
    var maxInclusive := if operation.AddOp? then length as int else length - 1;
    if index > maxInclusive {
      return Failure(IndexOutOfBounds);
    }
    return Success(index);
  }

  /** A longer digit string denotes at least as large a number. */
  lemma {:induction false} ValueGrows(s: string, n: nat)
    requires Decimal.AllDigits(s) && n <= |s|
    ensures Decimal.Value(s[..n]) <= Decimal.Value(s)
    decreases |s|
  {
    if n == |s| {
      assert s[..n] == s;
    } else {
      ValueGrows(s[..|s| - 1], n);
      assert s[..|s| - 1][..n] == s[..n];
    }
  }

  /** Every in-bounds safe index has exactly one accepted spelling besides "-". */
  lemma IndexSpelling(segment: string, operation: OpKind, length: nat, index: nat)
    requires segment != "-"
    ensures ArrayIndex(segment, operation, length) == Success(index)
      <==> segment == Decimal.Show(index)
           && index <= MAX_SAFE_INTEGER
           && (index < length || (operation.AddOp? && index == length))
  {
    Decimal.ShowCanonical(index);
    if Decimal.Canonical(segment) {
      Decimal.CanonicalIsShown(segment);
    }
  }

  // ---- Applying a patch ----

  /** Own keys of `source`, except the prototype key. */
  function RecordCopy(source: map<string, Json>): map<string, Json> {
    map k | k in source && k != PROTO :: source[k]
  }

  function RecordWith(source: map<string, Json>, segment: string, value: Json): map<string, Json> {
    if segment != PROTO then RecordCopy(source)[segment := value] else RecordCopy(source)
  }

  function RecordWithout(source: map<string, Json>, segment: string): map<string, Json> {
    map k | k in source && k != segment && k != PROTO :: source[k]
  }

  function ApplyOperation(node: Json, segments: Path, op: Op): Result<Json, PatchError>
    decreases |segments|
  {
    if segments == [] then
      if op.Remove? then Failure(RootRemoved) else Success(op.value)
    else
      var segment, rest := segments[0], segments[1..];
      var atLeaf := rest == [];
      if Reserved(segment) then Failure(ForbiddenSegment)
      else match node
        case Arr(items) =>
          var index :- ArrayIndex(segment, if atLeaf then op.Kind() else ReplaceOp, |items|);
          if atLeaf then Success(Arr(
            match op
            case Remove(_) => items[..index] + items[index + 1..]
            case Add(_, value) => items[..index] + [value] + items[index..]
            case Replace(_, value) => items[index := value]))
          else
            var child :- ApplyOperation(items[index], rest, op);
            Success(Arr(items[index := child]))
        case Obj(fields) =>
          if !atLeaf && segment !in fields then Failure(PathMissing)
          else if atLeaf && op.Remove? then Success(Obj(RecordWithout(fields, segment)))
          else
            var child :- if atLeaf then Success(op.value) else ApplyOperation(fields[segment], rest, op);
            Success(Obj(RecordWith(fields, segment, child)))
        case _ => Failure(PathMissing)
  }

  function ApplyOne(document: Json, op: Op): Result<Json, PatchError> {
    match PointerSegments(op.path)
    case None => Failure(InvalidPointer)
    case Some(segments) => ApplyOperation(document, segments, op)
  }

  function ApplyAll(document: Json, ops: seq<Op>): Result<Json, PatchError> {
    if ops == [] then Success(document)
    else
      var before :- ApplyAll(document, ops[..|ops| - 1]);
      ApplyOne(before, ops[|ops| - 1])
  }

  method ApplyJsonPatch(document: Json, operations: seq<Op>) returns (r: Result<Json, PatchError>)
    ensures r == ApplyAll(document, operations)
  {
    var current := document;
    for i := 0 to |operations|
      invariant ApplyAll(document, operations[..i]) == Success(current)
    {
      assert operations[..i + 1][..i] == operations[..i];
      var next := ApplyOne(current, operations[i]);
      if next.Failure? {
        FailurePersists(document, operations, i + 1);
        return next;
      }
      current := next.value;
    }
    assert operations[..|operations|] == operations;
    return Success(current);
  }

  lemma {:induction false} FailurePersists(document: Json, ops: seq<Op>, n: nat)
    requires n <= |ops| && ApplyAll(document, ops[..n]).Failure?
    ensures ApplyAll(document, ops) == ApplyAll(document, ops[..n])
    decreases |ops|
  {
    if n == |ops| {
      assert ops[..n] == ops;
    } else {
      assert ops[..|ops| - 1][..n] == ops[..n];
      FailurePersists(document, ops[..|ops| - 1], n);
    }
  }

  // ---- What a diff is ----

  /** The change a diff makes at one relative path. */
  datatype Edit = Put(value: Json) | Drop | Overwrite(value: Json)

  /**
   * The change that turns `before` into `after` at `path`, if there is one there:
   * a whole subtree appears, disappears or is replaced. Arrays are replaced even
   * when they are equal, because the diff compares them by reference.
   */
  function EditAt(before: Json, after: Json, path: Path): Option<Edit>
    decreases |path|
  {
    if before.Obj? && after.Obj? then
      if path == [] then None
      else
        var k := path[0];
        if k in before.fields && k in after.fields then EditAt(before.fields[k], after.fields[k], path[1..])
        else if |path| > 1 then None
        else if k in before.fields then Some(Drop)
        else if k in after.fields then Some(Put(after.fields[k]))
        else None
    else if path != [] || (before == after && !before.Arr?) then None
    else Some(Overwrite(after))
  }

  function MakeOp(path: Path, edit: Edit): Op {
    match edit
    case Put(value) => Add(PrintPointer(path), value)
    case Drop => Remove(PrintPointer(path))
    case Overwrite(value) => Replace(PrintPointer(path), value)
  }

  /** `paths` lists every edited path once, in some order. */
  ghost predicate Enumerates(before: Json, after: Json, paths: seq<Path>) {
    && (forall p :: p in paths <==> EditAt(before, after, p).Some?)
    && (forall i, j :: 0 <= i < j < |paths| ==> paths[i] != paths[j])
  }

  /** The operations for the edits at `paths`, printed below the prefix `at`. */
  ghost predicate PrintsEdits(before: Json, after: Json, at: Path, paths: seq<Path>, ops: seq<Op>) {
    && |ops| == |paths|
    && forall i :: 0 <= i < |ops| ==>
         EditAt(before, after, paths[i]).Some?
         && ops[i] == MakeOp(at + paths[i], EditAt(before, after, paths[i]).value)
  }

  /** `ops` is a diff from `before` to `after` below the path `at`, in any order of the object keys. */
  ghost predicate IsPatchAt(before: Json, after: Json, at: Path, ops: seq<Op>) {
    exists paths: seq<Path> :: Enumerates(before, after, paths) && PrintsEdits(before, after, at, paths, ops)
  }

  /** A diff of two whole documents. */
  ghost predicate IsPatch(before: Json, after: Json, ops: seq<Op>) {
    IsPatchAt(before, after, [], ops)
  }

  // ---- Computing a diff ----

  /** The part of the diff below key `k`, as relative paths. */
  function Under(k: string, paths: seq<Path>): seq<Path> {
    seq(|paths|, i requires 0 <= i < |paths| => [k] + paths[i])
  }

  lemma UnderMembers(k: string, paths: seq<Path>, p: Path)
    ensures p in Under(k, paths) <==> p != [] && p[0] == k && p[1..] in paths
  {
    if p != [] && p[0] == k && p[1..] in paths {
      var i :| 0 <= i < |paths| && paths[i] == p[1..];
      assert Under(k, paths)[i] == [k] + p[1..] == p;
    }
  }

  /** Edited paths whose first key lies in `keys`. */
  ghost predicate EditedIn(before: Json, after: Json, keys: set<string>, p: Path) {
    p != [] && p[0] in keys && EditAt(before, after, p).Some?
  }

  ghost predicate Lists(before: Json, after: Json, keys: set<string>, paths: seq<Path>) {
    && (forall p :: p in paths <==> EditedIn(before, after, keys, p))
    && (forall i, j :: 0 <= i < j < |paths| ==> paths[i] != paths[j])
  }

  lemma ListsOne(before: Json, after: Json, keys: set<string>, paths: seq<Path>, k: string, more: seq<Path>)
    requires Lists(before, after, keys, paths) && k !in keys
    requires Lists(before, after, {k}, more)
    ensures Lists(before, after, keys + {k}, paths + more)
  {
    var all := paths + more;
    forall p ensures p in all <==> EditedIn(before, after, keys + {k}, p) {
      assert p in all <==> p in paths || p in more;
    }
    forall i, j | 0 <= i < j < |all| ensures all[i] != all[j] {
      if i < |paths| <= j {
        assert all[i] in paths && all[j] in more;
      }
    }
  }

  /** The operations for one more key are appended. */
  lemma ListsMore(before: Json, after: Json, at: Path, keys: set<string>, paths: seq<Path>, ops: seq<Op>,
                  k: string, paths': seq<Path>, ops': seq<Op>)
    requires Lists(before, after, keys, paths) && PrintsEdits(before, after, at, paths, ops)
    requires k !in keys && Lists(before, after, {k}, paths') && PrintsEdits(before, after, at, paths', ops')
    ensures Lists(before, after, keys + {k}, paths + paths')
    ensures PrintsEdits(before, after, at, paths + paths', ops + ops')
  {
    hide PrintPointer, EditAt;
    ListsOne(before, after, keys, paths, k, paths');
  }

  lemma ListsLeaf(before: Json, after: Json, at: Path, k: string, op: Op)
    requires before.Obj? && after.Obj? && (k in before.fields) != (k in after.fields)
    requires op == if k in before.fields then Remove(PrintPointer(at) + "/" + PointerToken(k))
                   else Add(PrintPointer(at) + "/" + PointerToken(k), after.fields[k])
    ensures Lists(before, after, {k}, [[k]])
    ensures PrintsEdits(before, after, at, [[k]], [op])
  {
    forall p ensures p in [[k]] <==> EditedIn(before, after, {k}, p) {
      if EditedIn(before, after, {k}, p) {
        assert p == [k];
      }
    }
    PrintSnoc(at, k);
  }

  lemma ListsUnder(before: Json, after: Json, at: Path, k: string, inner: seq<Path>, ops: seq<Op>)
    requires before.Obj? && after.Obj? && k in before.fields && k in after.fields
    requires Enumerates(before.fields[k], after.fields[k], inner)
    requires PrintsEdits(before.fields[k], after.fields[k], at + [k], inner, ops)
    ensures Lists(before, after, {k}, Under(k, inner))
    ensures PrintsEdits(before, after, at, Under(k, inner), ops)
  {
    var outer := Under(k, inner);
    forall p ensures p in outer <==> EditedIn(before, after, {k}, p) {
      UnderMembers(k, inner, p);
    }
    forall i, j | 0 <= i < j < |outer| ensures outer[i] != outer[j] {
      assert outer[i][1..] == inner[i] && outer[j][1..] == inner[j];
    }
    forall i | 0 <= i < |ops|
      ensures EditAt(before, after, outer[i]).Some?
      ensures ops[i] == MakeOp(at + outer[i], EditAt(before, after, outer[i]).value)
    {
      assert outer[i][1..] == inner[i];
      assert at + outer[i] == at + [k] + inner[i];
    }
  }

  method DiffJson(before: Json, after: Json, path: string, ghost at: Path)
    returns (ops: seq<Op>, ghost paths: seq<Path>)
    requires path == PrintPointer(at)
    ensures Enumerates(before, after, paths)
    ensures PrintsEdits(before, after, at, paths, ops)
    ensures IsPatchAt(before, after, at, ops)
    decreases before, 1
  {
    ops, paths := [], [];
    if before == after && !before.Arr? && !before.Obj? {
      return;
    }
    if before.Obj? && after.Obj? {
      hide EditAt, PrintPointer, Lists, Enumerates, PrintsEdits;
      ops, paths := DiffRemoved(before, after, path, at);
      ops, paths := DiffKept(before, after, path, at, ops, paths);
      AllKeysListed(before, after, before.fields.Keys - after.fields.Keys, paths);
      return;
    }
    assert at + [] == at;
    ops, paths := [Replace(path, after)], [[]];
  }

  /** The loop over the keys of the old object: a key that is gone is removed. */
  method DiffRemoved(before: Json, after: Json, path: string, ghost at: Path)
    returns (ops: seq<Op>, ghost paths: seq<Path>)
    requires before.Obj? && after.Obj? && path == PrintPointer(at)
    ensures Lists(before, after, before.fields.Keys - after.fields.Keys, paths)
    ensures PrintsEdits(before, after, at, paths, ops)
  {
    ops, paths := [], [];
    assert Lists(before, after, {}, []) && PrintsEdits(before, after, at, [], []);
    hide Lists, PrintsEdits, EditAt, PrintPointer, PointerToken;
    var todo := before.fields.Keys;
    ghost var gone := {};
    while todo != {}
      invariant gone == (before.fields.Keys - todo) - after.fields.Keys
      invariant todo <= before.fields.Keys
      invariant Lists(before, after, gone, paths) && PrintsEdits(before, after, at, paths, ops)
      decreases todo
    {
      var key :| key in todo;
      todo := todo - {key};
      if key !in after.fields {
        var op := Remove(path + "/" + PointerToken(key));
        ListsLeaf(before, after, at, key, op);
        ListsMore(before, after, at, gone, paths, ops, key, [[key]], [op]);
        ops, paths, gone := ops + [op], paths + [[key]], gone + {key};
      }
    }
  }

  /** The loop over the keys of the new object: a new key is added, an old one is compared. */
  method DiffKept(before: Json, after: Json, path: string, ghost at: Path, removed: seq<Op>,
      ghost removedPaths: seq<Path>)
    returns (ops: seq<Op>, ghost paths: seq<Path>)
    requires before.Obj? && after.Obj? && path == PrintPointer(at)
    requires Lists(before, after, before.fields.Keys - after.fields.Keys, removedPaths)
    requires PrintsEdits(before, after, at, removedPaths, removed)
    ensures Lists(before, after, (before.fields.Keys - after.fields.Keys) + after.fields.Keys, paths)
    ensures PrintsEdits(before, after, at, paths, ops)
    decreases before, 0
  {
    hide Lists, PrintsEdits, EditAt, Under, PrintPointer, PointerToken, Enumerates;
    ops, paths := removed, removedPaths;
    ghost var seen := before.fields.Keys - after.fields.Keys;
    var todo := after.fields.Keys;
    while todo != {}
      invariant todo <= after.fields.Keys
      invariant seen == (before.fields.Keys - after.fields.Keys) + (after.fields.Keys - todo)
      invariant Lists(before, after, seen, paths) && PrintsEdits(before, after, at, paths, ops)
      decreases todo
    {
      var key :| key in todo;
      todo := todo - {key};
      var nextPath := path + "/" + PointerToken(key);
      var more: seq<Op>;
      ghost var morePaths: seq<Path>;
      if key !in before.fields {
        more, morePaths := [Add(nextPath, after.fields[key])], [[key]];
        ListsLeaf(before, after, at, key, more[0]);
      } else {
        PrintSnoc(at, key);
        ghost var inner;
        more, inner := DiffJson(before.fields[key], after.fields[key], nextPath, at + [key]);
        ListsUnder(before, after, at, key, inner, more);
        morePaths := Under(key, inner);
      }
      ListsMore(before, after, at, seen, paths, ops, key, morePaths, more);
      ops, paths, seen := ops + more, paths + morePaths, seen + {key};
    }
    assert seen == (before.fields.Keys - after.fields.Keys) + after.fields.Keys;
  }

  /** The diff of two whole documents. */
  method DiffDocuments(before: Json, after: Json) returns (ops: seq<Op>)
    ensures IsPatch(before, after, ops)
  {
    ghost var paths;
    ops, paths := DiffJson(before, after, "", []);
  }

  lemma AllKeysListed(before: Json, after: Json, gone: set<string>, paths: seq<Path>)
    requires before.Obj? && after.Obj? && gone == before.fields.Keys - after.fields.Keys
    requires Lists(before, after, gone + after.fields.Keys, paths)
    ensures Enumerates(before, after, paths)
  {
    forall p ensures p in paths <==> EditAt(before, after, p).Some? {
      assert p in paths <==> EditedIn(before, after, gone + after.fields.Keys, p);
    }
  }
}
