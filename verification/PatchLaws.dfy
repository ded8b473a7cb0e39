/** What a diff promises: replaying it, in any order, turns `before` into `after`. */
module PatchLaws {
  import opened Wrappers
  import opened Json
  import opened JsonPointer
  import opened JsonPatch

  // ---- The document half way through a patch ----

  /** Some edit in `done` lies strictly below `at`. */
  ghost predicate Touched(at: Path, done: set<Path>) {
    exists p :: p in done && at < p
  }

  ghost predicate Keeps(before: map<string, Json>, after: map<string, Json>, at: Path, done: set<Path>, k: string) {
    && (k in before ==> k in after || at + [k] !in done)
    && (k !in before ==> at + [k] in done)
    && (k == PROTO ==> !Touched(at, done))
  }

  /**
   * `before` with the edits at the absolute paths `done` carried out. Every object
   * above an edit has been copied, and a copy loses the key "__proto__".
   */
  ghost function Merge(before: Json, after: Json, at: Path, done: set<Path>): Json
    decreases before
  {
    if before.Obj? && after.Obj? then
      var b, a := before.fields, after.fields;
      Obj(map k | k in b.Keys + a.Keys && Keeps(b, a, at, done, k) ::
        if k in b && k in a then Merge(b[k], a[k], at + [k], done)
        else if k in b then b[k] else a[k])
    else if at in done then after else before
  }

  lemma {:induction false} MergeFrame(before: Json, after: Json, at: Path, done: set<Path>, p: Path)
    requires !(at <= p)
    ensures Merge(before, after, at, done + {p}) == Merge(before, after, at, done)
    decreases before
  {
    if before.Obj? && after.Obj? {
      var b, a := before.fields, after.fields;
      forall k | k in b && k in a
        ensures Merge(b[k], a[k], at + [k], done + {p}) == Merge(b[k], a[k], at + [k], done)
      {
        MergeFrame(b[k], a[k], at + [k], done, p);
      }
      forall k ensures Keeps(b, a, at, done + {p}, k) == Keeps(b, a, at, done, k) {
        assert at + [k] != p;
      }
    }
  }

  lemma {:induction false} MergeNone(before: Json, after: Json, at: Path)
    ensures Merge(before, after, at, {}) == before
    decreases before
  {
    if before.Obj? && after.Obj? {
      forall k | k in before.fields && k in after.fields
        ensures Merge(before.fields[k], after.fields[k], at + [k], {}) == before.fields[k]
      {
        MergeNone(before.fields[k], after.fields[k], at + [k]);
      }
    }
  }

  predicate NoReserved(path: Path) {
    forall i :: 0 <= i < |path| ==> !Reserved(path[i])
  }

  /** Edits already done are free of reserved segments and do not include `next`. */
  ghost predicate Before(done: set<Path>, next: Path) {
    && next !in done
    && NoReserved(next)
    && forall p :: p in done ==> NoReserved(p)
  }

  lemma TouchesAncestors(at: Path, rest: Path, done: set<Path>)
    requires rest != []
    ensures Touched(at, done + {at + rest})
  {
    assert at < at + rest && at + rest in done + {at + rest};
  }

  /** Keys other than the one on the path keep their value when one more edit is carried out. */
  lemma MergeSibling(before: Json, after: Json, at: Path, done: set<Path>, rest: Path, k: string)
    requires before.Obj? && after.Obj? && rest != [] && k != rest[0] && k != PROTO
    ensures var b, a, done' := before.fields, after.fields, done + {at + rest};
      && Keeps(b, a, at, done', k) == Keeps(b, a, at, done, k)
      && (k in b && k in a ==> Merge(b[k], a[k], at + [k], done') == Merge(b[k], a[k], at + [k], done))
  {
    var b, a := before.fields, after.fields;
    assert (at + rest)[|at|] == rest[0] && (at + [k])[|at|] == k;
    if k in b && k in a {
      MergeFrame(b[k], a[k], at + [k], done, at + rest);
    }
  }

  /** At every key off the path, "__proto__" apart, one more edit changes nothing. */
  lemma MergeSiblings(before: Json, after: Json, at: Path, done: set<Path>, rest: Path)
    requires before.Obj? && after.Obj? && rest != []
    ensures var now, later := Merge(before, after, at, done).fields,
        Merge(before, after, at, done + {at + rest}).fields;
      && PROTO !in later
      && forall j :: j != rest[0] && j != PROTO ==> (j in now) == (j in later) && (j in now ==> now[j] == later[j])
  {
    TouchesAncestors(at, rest, done);
    var now, later := Merge(before, after, at, done).fields, Merge(before, after, at, done + {at + rest}).fields;
    forall j | j != rest[0] && j != PROTO
      ensures (j in now) == (j in later) && (j in now ==> now[j] == later[j])
    {
      MergeSibling(before, after, at, done, rest, j);
    }
  }

  /** An edit that adds or removes a member of this very object. */
  lemma MergeStepMember(before: Json, after: Json, at: Path, done: set<Path>, k: string, op: Op)
    requires before.Obj? && after.Obj? && (k in before.fields) != (k in after.fields)
    requires op == MakeOp(at + [k], EditAt(before, after, [k]).value)
    requires Before(done, at + [k])
    ensures ApplyOperation(Merge(before, after, at, done), [k], op)
        == Success(Merge(before, after, at, done + {at + [k]}))
  {
    hide PrintPointer, PointerSegments;
    assert (at + [k])[|at|] == k;
    MergeSiblings(before, after, at, done, [k]);
    var now, later := Merge(before, after, at, done).fields, Merge(before, after, at, done + {at + [k]}).fields;
    if k in before.fields {
      assert RecordWithout(now, k) == later;
    } else {
      assert RecordWith(now, k, after.fields[k]) == later;
    }
  }

  /** An edit below a member that both versions of this object have. */
  lemma MergeStepBelow(before: Json, after: Json, at: Path, done: set<Path>, rest: Path, op: Op)
    requires before.Obj? && after.Obj? && rest != [] && rest[0] in before.fields && rest[0] in after.fields
    requires EditAt(before, after, rest).Some?
    requires op == MakeOp(at + rest, EditAt(before, after, rest).value)
    requires Before(done, at + rest)
    requires var k := rest[0];
      ApplyOperation(Merge(before.fields[k], after.fields[k], at + [k], done), rest[1..], op)
        == Success(Merge(before.fields[k], after.fields[k], at + [k], done + {at + rest}))
    ensures ApplyOperation(Merge(before, after, at, done), rest, op)
        == Success(Merge(before, after, at, done + {at + rest}))
  {
    hide PrintPointer, PointerSegments, EditAt;
    var k := rest[0];
    assert (at + rest)[|at|] == k;
    assert at + [k] + rest[1..] == at + rest;
    MergeSiblings(before, after, at, done, rest);
    var now, later := Merge(before, after, at, done).fields, Merge(before, after, at, done + {at + rest}).fields;
    assert now[k] == Merge(before.fields[k], after.fields[k], at + [k], done);
    assert RecordWith(now, k, later[k]) == later;
  }

  /** One edit carried out on the half-patched document gives the next half-patched document. */
  lemma {:induction false} MergeStep(before: Json, after: Json, at: Path, done: set<Path>, rest: Path, op: Op)
    requires EditAt(before, after, rest).Some?
    requires op == MakeOp(at + rest, EditAt(before, after, rest).value)
    requires Before(done, at + rest)
    ensures ApplyOperation(Merge(before, after, at, done), rest, op)
         == Success(Merge(before, after, at, done + {at + rest}))
    decreases |rest|
  {
    hide PrintPointer;
    if before.Obj? && after.Obj? {
      var k := rest[0];
      if k in before.fields && k in after.fields {
        assert at + [k] + rest[1..] == at + rest;
        MergeStep(before.fields[k], after.fields[k], at + [k], done, rest[1..], op);
        MergeStepBelow(before, after, at, done, rest, op);
      } else {
        assert rest == [k];
        MergeStepMember(before, after, at, done, k, op);
      }
    } else {
      assert at + rest == at;
    }
  }

  // ---- Running a whole patch ----

  ghost function Done(paths: seq<Path>): set<Path> {
    set p | p in paths
  }

  /** The i-th operation of a diff, carried out after those before it. */
  lemma RunStep(before: Json, after: Json, paths: seq<Path>, ops: seq<Op>, i: nat)
    requires Enumerates(before, after, paths) && PrintsEdits(before, after, [], paths, ops)
    requires forall p :: p in paths ==> NoReserved(p)
    requires i < |ops|
    ensures ApplyOne(Merge(before, after, [], Done(paths[..i])), ops[i])
        == Success(Merge(before, after, [], Done(paths[..i + 1])))
  {
    hide PrintPointer, PointerSegments, ApplyOperation, Merge, EditAt, NoReserved;
    var p := paths[i];
    NthSegments(before, after, paths, ops, i);
    assert Done(paths[..i + 1]) == Done(paths[..i]) + {p};
    assert [] + p == p;
    MergeStep(before, after, [], Done(paths[..i]), p, ops[i]);
  }

  lemma {:induction false} RunMerges(before: Json, after: Json, paths: seq<Path>, ops: seq<Op>, n: nat)
    requires Enumerates(before, after, paths) && PrintsEdits(before, after, [], paths, ops)
    requires forall p :: p in paths ==> NoReserved(p)
    requires n <= |ops|
    ensures ApplyAll(before, ops[..n]) == Success(Merge(before, after, [], Done(paths[..n])))
  {
    hide PrintPointer, PointerSegments, ApplyOperation, ApplyOne, Merge, EditAt, NoReserved;
    if n == 0 {
      MergeNone(before, after, []);
      assert Done(paths[..0]) == {};
    } else {
      RunMerges(before, after, paths, ops, n - 1);
      assert ops[..n][..n - 1] == ops[..n - 1];
      RunStep(before, after, paths, ops, n - 1);
    }
  }

  /** A segment list with a reserved name is always refused. */
  lemma {:induction false} ReservedRefused(node: Json, segments: Path, op: Op)
    requires ApplyOperation(node, segments, op).Success?
    ensures NoReserved(segments)
    decreases |segments|
  {
    if segments != [] {
      var rest := segments[1..];
      if rest != [] {
        match node
        case Arr(items) =>
          var index := ArrayIndex(segments[0], ReplaceOp, |items|).value;
          ReservedRefused(items[index], rest, op);
        case Obj(fields) => ReservedRefused(fields[segments[0]], rest, op);
        case _ =>
      }
      assert segments == [segments[0]] + rest;
    }
  }

  lemma NthSegments(before: Json, after: Json, paths: seq<Path>, ops: seq<Op>, i: nat)
    requires PrintsEdits(before, after, [], paths, ops) && i < |ops|
    ensures |paths| == |ops| && PointerSegments(ops[i].path) == Some(paths[i])
  {
    hide PrintPointer, PointerSegments, EditAt;
    assert [] + paths[i] == paths[i];
    PathRoundTrip(paths[i]);
  }

  lemma {:induction false} SuccessMeansNoReserved(before: Json, after: Json, paths: seq<Path>, ops: seq<Op>, n: nat)
    requires PrintsEdits(before, after, [], paths, ops) && n <= |ops|
    requires ApplyAll(before, ops[..n]).Success?
    ensures forall i :: 0 <= i < n ==> NoReserved(paths[i])
  {
    hide PrintsEdits, PointerSegments, ApplyOperation, NoReserved, EditAt;
    if n > 0 {
      assert ops[..n][..n - 1] == ops[..n - 1];
      assert ops[..n][n - 1] == ops[n - 1];
      SuccessMeansNoReserved(before, after, paths, ops, n - 1);
      NthSegments(before, after, paths, ops, n - 1);
      ReservedRefused(ApplyAll(before, ops[..n - 1]).value, paths[n - 1], ops[n - 1]);
    }
  }

  // ---- When the round trip holds ----

  /** The two documents are equal and the diff finds nothing to replace in them. */
  predicate Unchanged(before: Json, after: Json) {
    before == after && ArrayFree(before)
  }

  ghost predicate NoEdits(before: Json, after: Json) {
    forall p :: EditAt(before, after, p).None?
  }

  lemma EditBelow(before: Json, after: Json, k: string, p: Path)
    requires before.Obj? && after.Obj? && k in before.fields && k in after.fields
    ensures EditAt(before, after, [k] + p) == EditAt(before.fields[k], after.fields[k], p)
  {
    assert ([k] + p)[1..] == p;
  }

  lemma {:induction false} UnchangedHasNoEdits(doc: Json, p: Path)
    requires ArrayFree(doc)
    ensures EditAt(doc, doc, p).None?
    decreases |p|
  {
    if doc.Obj? && p != [] && p[0] in doc.fields {
      UnchangedHasNoEdits(doc.fields[p[0]], p[1..]);
    }
  }

  lemma {:induction false} NoEditsMeansUnchanged(before: Json, after: Json)
    requires NoEdits(before, after)
    ensures Unchanged(before, after)
    decreases before
  {
    if before.Obj? && after.Obj? {
      var b, a := before.fields, after.fields;
      forall k ensures (k in b) == (k in a) {
        assert EditAt(before, after, [k]).None?;
      }
      forall k | k in b ensures Unchanged(b[k], a[k]) {
        forall p ensures EditAt(b[k], a[k], p).None? {
          EditBelow(before, after, k, p);
        }
        assert NoEdits(b[k], a[k]);
        NoEditsMeansUnchanged(b[k], a[k]);
      }
      assert b == a;
    } else {
      assert EditAt(before, after, []).None?;
    }
  }

  /** Nothing is edited exactly when the documents are equal and hold no array. */
  lemma NoEditsExact(before: Json, after: Json)
    ensures NoEdits(before, after) <==> Unchanged(before, after)
  {
    if Unchanged(before, after) {
      forall p ensures EditAt(before, after, p).None? {
        UnchangedHasNoEdits(before, p);
      }
    }
    if NoEdits(before, after) {
      NoEditsMeansUnchanged(before, after);
    }
  }

  /**
   * The condition for the round trip. A key on the way to a change must not be
   * reserved, and an object with something to change must not carry "__proto__".
   */
  predicate Safe(before: Json, after: Json)
    decreases before
  {
    before.Obj? && after.Obj? ==>
      var b, a := before.fields, after.fields;
      && (forall k | k in b.Keys + a.Keys && Reserved(k) :: k in b && k in a && Unchanged(b[k], a[k]))
      && (PROTO in b ==> Unchanged(before, after))
      && (forall k | k in b && k in a && !Reserved(k) :: Safe(b[k], a[k]))
  }

  lemma {:induction false} SafeEdits(before: Json, after: Json, p: Path)
    requires Safe(before, after) && EditAt(before, after, p).Some?
    ensures NoReserved(p)
    decreases |p|
  {
    if before.Obj? && after.Obj? {
      var k := p[0];
      if k in before.fields && k in after.fields {
        EditBelow(before, after, k, p[1..]);
        assert [k] + p[1..] == p;
        if Reserved(k) {
          UnchangedHasNoEdits(before.fields[k], p[1..]);
        }
        SafeEdits(before.fields[k], after.fields[k], p[1..]);
      }
      assert p == [k] + p[1..];
    }
  }

  /** `done` holds exactly the edits between the two subdocuments at `at`, as far as `at` is concerned. */
  ghost predicate AllDone(before: Json, after: Json, at: Path, done: set<Path>) {
    forall p :: at + p in done <==> EditAt(before, after, p).Some?
  }

  lemma AllDoneBelow(before: Json, after: Json, at: Path, done: set<Path>, k: string)
    requires before.Obj? && after.Obj? && k in before.fields && k in after.fields
    requires AllDone(before, after, at, done)
    ensures AllDone(before.fields[k], after.fields[k], at + [k], done)
  {
    forall p ensures at + [k] + p in done <==> EditAt(before.fields[k], after.fields[k], p).Some? {
      assert at + [k] + p == at + ([k] + p);
      assert ([k] + p)[1..] == p;
    }
  }

  /** An object is touched exactly when its two versions differ in something the diff replaces. */
  lemma TouchedExact(before: Json, after: Json, at: Path, done: set<Path>)
    requires before.Obj? && after.Obj? && AllDone(before, after, at, done)
    ensures Touched(at, done) <==> !Unchanged(before, after)
  {
    NoEditsExact(before, after);
    if Touched(at, done) {
      var q :| q in done && at < q;
      var p := q[|at|..];
      assert at + p == q;
      assert EditAt(before, after, p).Some?;
    }
    if !NoEdits(before, after) {
      var p :| EditAt(before, after, p).Some?;
      assert at + p in done && at < at + p;
    }
  }

  lemma {:induction false} MergeAll(before: Json, after: Json, at: Path, done: set<Path>)
    requires Safe(before, after) && AllDone(before, after, at, done)
    ensures Merge(before, after, at, done) == after
    decreases before
  {
    if before.Obj? && after.Obj? {
      var b, a := before.fields, after.fields;
      TouchedExact(before, after, at, done);
      var m := Merge(before, after, at, done).fields;
      forall k ensures (k in m) == (k in a) && (k in m ==> m[k] == a[k]) {
        assert EditAt(before, after, [k]).Some? == (at + [k] in done);
        if k in b && k in a {
          AllDoneBelow(before, after, at, done, k);
          if Reserved(k) {
            MergeUnchanged(b[k], at + [k], done);
          } else {
            MergeAll(b[k], a[k], at + [k], done);
          }
        }
      }
      assert m == a;
    } else {
      assert at + [] == at;
    }
  }

  lemma {:induction false} MergeUnchanged(doc: Json, at: Path, done: set<Path>)
    requires ArrayFree(doc) && AllDone(doc, doc, at, done)
    ensures Merge(doc, doc, at, done) == doc
    decreases doc
  {
    if doc.Obj? {
      TouchedExact(doc, doc, at, done);
      var m := Merge(doc, doc, at, done).fields;
      forall k ensures (k in m) == (k in doc.fields) && (k in m ==> m[k] == doc.fields[k]) {
        assert EditAt(doc, doc, [k]).Some? == (at + [k] in done);
        if k in doc.fields {
          AllDoneBelow(doc, doc, at, done, k);
          MergeUnchanged(doc.fields[k], at + [k], done);
        }
      }
      assert m == doc.fields;
    }
  }

  /** Where no edit is reserved, a reserved key is on both sides with the same value. */
  lemma ReservedUnchanged(before: Json, after: Json, k: string)
    requires before.Obj? && after.Obj? && Reserved(k) && k in before.fields.Keys + after.fields.Keys
    requires forall p :: EditAt(before, after, p).Some? ==> NoReserved(p)
    ensures k in before.fields && k in after.fields && Unchanged(before.fields[k], after.fields[k])
  {
    var b, a := before.fields, after.fields;
    assert !NoReserved([k]) by {
      assert Reserved([k][0]);
    }
    assert EditAt(before, after, [k]).None? || (k in b && k in a);
    NoEditsExact(b[k], a[k]);
    forall p ensures EditAt(b[k], a[k], p).None? {
      var q := [k] + p;
      assert q[1..] == p && Reserved(q[0]);
      assert !NoReserved(q);
    }
    assert NoEdits(b[k], a[k]);
  }

  lemma {:induction false} MergeAllOnlyIfSafe(before: Json, after: Json, at: Path, done: set<Path>)
    requires AllDone(before, after, at, done)
    requires forall p :: EditAt(before, after, p).Some? ==> NoReserved(p)
    requires Merge(before, after, at, done) == after
    ensures Safe(before, after)
    decreases before
  {
    if before.Obj? && after.Obj? {
      var b, a := before.fields, after.fields;
      TouchedExact(before, after, at, done);
      forall k | k in b && k in a
        ensures forall p :: EditAt(b[k], a[k], p).Some? ==> NoReserved([k] + p)
      {
        forall p | EditAt(b[k], a[k], p).Some? ensures NoReserved([k] + p) {
          assert ([k] + p)[1..] == p;
        }
      }
      forall k | k in b.Keys + a.Keys && Reserved(k)
        ensures k in b && k in a && Unchanged(b[k], a[k])
      {
        ReservedUnchanged(before, after, k);
      }
      forall k | k in b && k in a && !Reserved(k) ensures Safe(b[k], a[k]) {
        AllDoneBelow(before, after, at, done, k);
        forall p | EditAt(b[k], a[k], p).Some? ensures NoReserved(p) {
          var q := [k] + p;
          assert forall i :: 0 <= i < |p| ==> p[i] == q[i + 1];
        }
        MergeAllOnlyIfSafe(b[k], a[k], at + [k], done);
      }
    }
  }

  lemma RunsToMerge(before: Json, after: Json, paths: seq<Path>, ops: seq<Op>)
    requires Enumerates(before, after, paths) && PrintsEdits(before, after, [], paths, ops)
    requires forall p :: p in paths ==> NoReserved(p)
    ensures ApplyAll(before, ops) == Success(Merge(before, after, [], Done(paths)))
    ensures AllDone(before, after, [], Done(paths))
  {
    RunMerges(before, after, paths, ops, |ops|);
    assert ops[..|ops|] == ops && paths[..|paths|] == paths;
    forall p ensures [] + p in Done(paths) <==> EditAt(before, after, p).Some? {
      assert [] + p == p;
    }
  }

  lemma SafeRoundTrip(before: Json, after: Json, paths: seq<Path>, ops: seq<Op>)
    requires Enumerates(before, after, paths) && PrintsEdits(before, after, [], paths, ops)
    requires Safe(before, after)
    ensures ApplyAll(before, ops) == Success(after)
  {
    hide ApplyAll, Merge, AllDone, PrintsEdits, Safe;
    forall p | p in paths ensures NoReserved(p) {
      SafeEdits(before, after, p);
    }
    hide EditAt, Enumerates, NoReserved;
    RunsToMerge(before, after, paths, ops);
    MergeAll(before, after, [], Done(paths));
  }

  lemma RoundTripOnlyIfSafe(before: Json, after: Json, paths: seq<Path>, ops: seq<Op>)
    requires Enumerates(before, after, paths) && PrintsEdits(before, after, [], paths, ops)
    requires ApplyAll(before, ops) == Success(after)
    ensures Safe(before, after)
  {
    assert |ops| == |paths| && ops[..|ops|] == ops;
    hide ApplyAll, Merge, AllDone, PrintsEdits, Safe, EditAt, NoReserved, Enumerates;
    SuccessMeansNoReserved(before, after, paths, ops, |ops|);
    RunsToMerge(before, after, paths, ops);
    MergeAllOnlyIfSafe(before, after, [], Done(paths));
  }

  /**
   * Round trip, exactly: for any two documents and any diff between them, in any
   * order, applying the diff to the first gives the second if and only if the pair is safe.
   */
  lemma RoundTripExact(before: Json, after: Json, ops: seq<Op>)
    requires IsPatch(before, after, ops)
    ensures ApplyAll(before, ops) == Success(after) <==> Safe(before, after)
  {
    hide ApplyAll, Safe, EditAt, Enumerates, PrintsEdits;
    var paths :| Enumerates(before, after, paths) && PrintsEdits(before, after, [], paths, ops);
    if Safe(before, after) {
      SafeRoundTrip(before, after, paths, ops);
    } else if ApplyAll(before, ops) == Success(after) {
      RoundTripOnlyIfSafe(before, after, paths, ops);
    }
  }

  lemma {:induction false} NoReservedKeysSafe(before: Json, after: Json)
    requires NoReservedKeys(before) && NoReservedKeys(after)
    ensures Safe(before, after)
    decreases before
  {
    if before.Obj? && after.Obj? {
      forall k | k in before.fields && k in after.fields ensures Safe(before.fields[k], after.fields[k]) {
        NoReservedKeysSafe(before.fields[k], after.fields[k]);
      }
    }
  }

  /** Without reserved keys the round trip always holds. */
  lemma RoundTrip(before: Json, after: Json, ops: seq<Op>)
    requires IsPatch(before, after, ops)
    requires NoReservedKeys(before) && NoReservedKeys(after)
    ensures ApplyAll(before, ops) == Success(after)
  {
    NoReservedKeysSafe(before, after);
    RoundTripExact(before, after, ops);
  }

  // ---- The shape of a diff ----

  /** No edited path is a prefix of another. */
  lemma {:induction false} EditsPrefixFree(before: Json, after: Json, p: Path, q: Path)
    requires EditAt(before, after, p).Some? && EditAt(before, after, q).Some?
    requires p <= q
    ensures p == q
    decreases |p|
  {
    if before.Obj? && after.Obj? {
      var k := p[0];
      assert q[0] == k;
      if k in before.fields && k in after.fields {
        assert p[1..] <= q[1..];
        EditsPrefixFree(before.fields[k], after.fields[k], p[1..], q[1..]);
        assert p == [k] + p[1..] && q == [k] + q[1..];
      }
    }
  }

  /** The document at a pointer, if it exists (section 4 of RFC 6901). */
  function Lookup(doc: Json, path: Path): Option<Json>
    decreases |path|
  {
    if path == [] then Some(doc)
    else match doc
      case Obj(fields) => if path[0] in fields then Lookup(fields[path[0]], path[1..]) else None
      case Arr(items) =>
        var index := ArrayIndex(path[0], ReplaceOp, |items|);
        if index.Success? then Lookup(items[index.value], path[1..]) else None
      case _ => None
  }

  predicate IsContainer(node: Option<Json>) {
    node.Some? && (node.value.Obj? || node.value.Arr?)
  }

  /** Sections 4.1 to 4.3 of RFC 6902: the container of an added member exists, a removed or replaced target exists. */
  predicate TargetExists(doc: Json, path: Path, op: Op) {
    match op
    case Add(_, _) =>
      path == [] || IsContainer(Lookup(doc, path[..|path| - 1]))
    case _ => Lookup(doc, path).Some?
  }

  lemma {:induction false} MergeTarget(before: Json, after: Json, at: Path, done: set<Path>, rest: Path)
    requires EditAt(before, after, rest).Some? && Before(done, at + rest)
    ensures TargetExists(Merge(before, after, at, done), rest, MakeOp(at + rest, EditAt(before, after, rest).value))
    ensures EditAt(before, after, rest).value.Put? ==> rest != [] && Lookup(Merge(before, after, at, done), rest).None?
    decreases |rest|
  {
    if before.Obj? && after.Obj? {
      var k, b, a := rest[0], before.fields, after.fields;
      assert (at + rest)[|at|] == k;
      var now := Merge(before, after, at, done).fields;
      if k in b && k in a {
        assert at + [k] + rest[1..] == at + rest;
        MergeTarget(b[k], a[k], at + [k], done, rest[1..]);
        assert now[k] == Merge(b[k], a[k], at + [k], done);
        if |rest| > 1 {
          assert rest[..|rest| - 1][1..] == rest[1..][..|rest[1..]| - 1];
        }
      } else {
        assert rest == [k] && rest[..0] == [];
      }
    }
  }

  /**
   * In any order of a diff whose paths avoid the reserved names, every operation finds its target
   * when its turn comes, and an added member is not there yet.
   */
  lemma TargetsExistInTurn(before: Json, after: Json, paths: seq<Path>, ops: seq<Op>, i: nat)
    requires Enumerates(before, after, paths) && PrintsEdits(before, after, [], paths, ops)
    requires forall p :: p in paths ==> NoReserved(p)
    requires i < |ops|
    ensures PointerSegments(ops[i].path) == Some(paths[i])
    ensures ApplyAll(before, ops[..i]).Success?
    ensures TargetExists(ApplyAll(before, ops[..i]).value, paths[i], ops[i])
    ensures ops[i].Add? ==> Lookup(ApplyAll(before, ops[..i]).value, paths[i]).None?
  {
    hide PointerSegments, PrintPointer, ApplyAll, Merge, Lookup;
    RunMerges(before, after, paths, ops, i);
    var p := paths[i];
    assert [] + p == p;
    PathRoundTrip(p);
    assert Before(Done(paths[..i]), p);
    MergeTarget(before, after, [], Done(paths[..i]), p);
  }

  /** The sequences hold the same elements, each once. */
  ghost predicate Reorders<T(!new)>(s: seq<T>, t: seq<T>) {
    && (forall x :: x in s <==> x in t)
    && (forall i, j :: 0 <= i < j < |s| ==> s[i] != s[j])
    && (forall i, j :: 0 <= i < j < |t| ==> t[i] != t[j])
  }

  lemma PermutationReorders<T(!new)>(s: seq<T>, t: seq<T>)
    requires multiset(s) == multiset(t)
    requires forall i, j :: 0 <= i < j < |s| ==> s[i] != s[j]
    ensures Reorders(s, t)
  {
    forall x ensures x in s <==> x in t {
      assert x in s <==> x in multiset(s);
      assert x in t <==> x in multiset(t);
    }
    forall i, j | 0 <= i < j < |t| ensures t[i] != t[j] {
      if t[i] == t[j] {
        DuplicateCounts(t, i, j);
        DistinctCounts(s, t[i]);
      }
    }
  }

  ghost function PathOf(paths: seq<Path>, ops: seq<Op>, op: Op): Path
    requires |paths| == |ops| && op in ops
  {
    var i :| 0 <= i < |ops| && ops[i] == op;
    paths[i]
  }

  lemma ReorderedEnumerates(before: Json, after: Json, paths: seq<Path>, ops: seq<Op>, ops': seq<Op>, paths': seq<Path>)
    requires Enumerates(before, after, paths) && PrintsEdits(before, after, [], paths, ops)
    requires Reorders(ops, ops') && |paths'| == |ops'|
    requires forall j :: 0 <= j < |ops'| ==> paths'[j] == PathOf(paths, ops, ops'[j])
    ensures PrintsEdits(before, after, [], paths', ops')
    ensures Enumerates(before, after, paths')
  {
    ReorderedPrints(before, after, paths, ops, ops', paths');
    ReorderedDistinct(before, after, ops', paths');
    hide EditAt, PrintsEdits;
    forall p | p in paths ensures p in paths' {
      var i :| 0 <= i < |paths| && paths[i] == p;
      ReorderedHas(before, after, paths, ops, ops', paths', i);
    }
    forall p | p in paths' ensures EditAt(before, after, p).Some? {
      var j :| 0 <= j < |paths'| && paths'[j] == p;
      ReorderedEdit(before, after, ops', paths', j);
    }
  }

  lemma ReorderedHas(before: Json, after: Json, paths: seq<Path>, ops: seq<Op>, ops': seq<Op>, paths': seq<Path>,
      i: nat)
    requires Enumerates(before, after, paths) && PrintsEdits(before, after, [], paths, ops)
    requires Reorders(ops, ops') && |paths'| == |ops'| && i < |paths|
    requires forall j :: 0 <= j < |ops'| ==> paths'[j] == PathOf(paths, ops, ops'[j])
    ensures paths[i] in paths'
  {
    hide Enumerates, EditAt;
    assert ops[i] in ops';
    var j :| 0 <= j < |ops'| && ops'[j] == ops[i];
    assert PathOf(paths, ops, ops[i]) == paths[i];
    assert paths'[j] in paths';
  }

  lemma ReorderedEdit(before: Json, after: Json, ops': seq<Op>, paths': seq<Path>, j: nat)
    requires PrintsEdits(before, after, [], paths', ops') && j < |paths'|
    ensures EditAt(before, after, paths'[j]).Some?
  {
  }

  lemma ReorderedDistinct(before: Json, after: Json, ops': seq<Op>, paths': seq<Path>)
    requires PrintsEdits(before, after, [], paths', ops')
    requires forall i, j :: 0 <= i < j < |ops'| ==> ops'[i] != ops'[j]
    ensures forall i, j :: 0 <= i < j < |paths'| ==> paths'[i] != paths'[j]
  {
    hide EditAt;
    forall i, j | 0 <= i < j < |paths'| ensures paths'[i] != paths'[j] {
      assert ops'[i] != ops'[j];
    }
  }

  lemma ReorderedPrints(before: Json, after: Json, paths: seq<Path>, ops: seq<Op>, ops': seq<Op>, paths': seq<Path>)
    requires PrintsEdits(before, after, [], paths, ops)
    requires Reorders(ops, ops') && |paths'| == |ops'|
    requires forall j :: 0 <= j < |ops'| ==> paths'[j] == PathOf(paths, ops, ops'[j])
    ensures PrintsEdits(before, after, [], paths', ops')
  {
    hide EditAt;
    forall j | 0 <= j < |ops'|
      ensures EditAt(before, after, paths'[j]).Some?
      ensures ops'[j] == MakeOp([] + paths'[j], EditAt(before, after, paths'[j]).value)
    {
      assert ops'[j] in ops;
    }
  }

  lemma ReorderedPaths(before: Json, after: Json, paths: seq<Path>, ops: seq<Op>, ops': seq<Op>)
    returns (paths': seq<Path>)
    requires Enumerates(before, after, paths) && PrintsEdits(before, after, [], paths, ops)
    requires multiset(ops) == multiset(ops')
    ensures Enumerates(before, after, paths') && PrintsEdits(before, after, [], paths', ops')
  {
    assert |paths| == |ops|;
    hide Enumerates, EditAt, PrintsEdits;
    OpsDistinct(before, after, paths, ops);
    PermutationReorders(ops, ops');
    paths' := seq(|ops'|, j requires 0 <= j < |ops'| => PathOf(paths, ops, ops'[j]));
    ReorderedEnumerates(before, after, paths, ops, ops', paths');
  }

  /** Reordering a diff gives a diff. */
  lemma ReorderedPatch(before: Json, after: Json, ops: seq<Op>, ops': seq<Op>)
    requires IsPatch(before, after, ops) && multiset(ops) == multiset(ops')
    ensures IsPatch(before, after, ops')
  {
    hide Enumerates, EditAt, PrintsEdits;
    var paths :| Enumerates(before, after, paths) && PrintsEdits(before, after, [], paths, ops);
    var paths' := ReorderedPaths(before, after, paths, ops, ops');
  }

  lemma OpsDistinct(before: Json, after: Json, paths: seq<Path>, ops: seq<Op>)
    requires Enumerates(before, after, paths) && PrintsEdits(before, after, [], paths, ops)
    ensures forall i, j :: 0 <= i < j < |ops| ==> ops[i] != ops[j]
  {
    hide PrintPointer, PointerSegments, EditAt;
    forall i, j | 0 <= i < j < |ops| ensures ops[i] != ops[j] {
      NthSegments(before, after, paths, ops, i);
      NthSegments(before, after, paths, ops, j);
    }
  }

  lemma DuplicateCounts<T>(s: seq<T>, i: nat, j: nat)
    requires i < j < |s| && s[i] == s[j]
    ensures multiset(s)[s[i]] >= 2
  {
    assert s == s[..j] + [s[j]] + s[j + 1..];
    assert s[..j][i] == s[i];
    assert s[i] in multiset(s[..j]);
  }

  lemma {:induction false} DistinctCounts<T>(s: seq<T>, x: T)
    requires forall i, j :: 0 <= i < j < |s| ==> s[i] != s[j]
    ensures multiset(s)[x] <= 1
  {
    if s != [] {
      var init, last := s[..|s| - 1], s[|s| - 1];
      assert s == init + [last];
      DistinctCounts(init, x);
      if x == last {
        assert x !in init;
        assert x !in multiset(init);
      }
    }
  }

  /** With a reserved name on some edited path, no order of the diff can be applied. */
  lemma ReservedFails(before: Json, after: Json, paths: seq<Path>, ops: seq<Op>, p: Path)
    requires Enumerates(before, after, paths) && PrintsEdits(before, after, [], paths, ops)
    requires EditAt(before, after, p).Some? && !NoReserved(p)
    ensures ApplyAll(before, ops).Failure?
  {
    assert ops[..|ops|] == ops;
    assert p in paths;
    if ApplyAll(before, ops).Success? {
      SuccessMeansNoReserved(before, after, paths, ops, |ops|);
    }
  }

  ghost predicate AllAllowed(paths: set<Path>) {
    forall p :: p in paths ==> NoReserved(p)
  }

  lemma PatchOutcome(before: Json, after: Json, ops: seq<Op>) returns (done: set<Path>)
    requires IsPatch(before, after, ops)
    ensures forall p :: p in done <==> EditAt(before, after, p).Some?
    ensures AllAllowed(done) ==> ApplyAll(before, ops) == Success(Merge(before, after, [], done))
    ensures !AllAllowed(done) ==> ApplyAll(before, ops).Failure?
  {
    var paths :| Enumerates(before, after, paths) && PrintsEdits(before, after, [], paths, ops);
    done := Done(paths);
    if AllAllowed(done) {
      RunsToMerge(before, after, paths, ops);
    } else {
      var p :| p in done && !NoReserved(p);
      ReservedFails(before, after, paths, ops, p);
    }
  }

  lemma SameOutcome(before: Json, after: Json, ops: seq<Op>, ops': seq<Op>)
    requires IsPatch(before, after, ops) && IsPatch(before, after, ops')
    ensures ApplyAll(before, ops) == ApplyAll(before, ops')
      || (ApplyAll(before, ops).Failure? && ApplyAll(before, ops').Failure?)
  {
    var done := PatchOutcome(before, after, ops);
    var done' := PatchOutcome(before, after, ops');
    assert done == done';
  }

  /** Every permutation of a diff gives the same document, or none of them can be applied. */
  lemma OrderIrrelevant(before: Json, after: Json, ops: seq<Op>, ops': seq<Op>)
    requires IsPatch(before, after, ops) && multiset(ops) == multiset(ops')
    ensures ApplyAll(before, ops) == ApplyAll(before, ops')
      || (ApplyAll(before, ops).Failure? && ApplyAll(before, ops').Failure?)
  {
    ReorderedPatch(before, after, ops, ops');
    SameOutcome(before, after, ops, ops');
  }

  /** A diff is empty exactly when the documents are equal and hold no array. */
  lemma EmptyPatchExact(before: Json, after: Json, ops: seq<Op>)
    requires IsPatch(before, after, ops)
    ensures ops == [] <==> Unchanged(before, after)
  {
    var paths :| Enumerates(before, after, paths) && PrintsEdits(before, after, [], paths, ops);
    if Unchanged(before, after) {
      if paths != [] {
        assert EditAt(before, after, paths[0]).Some?;
        UnchangedHasNoEdits(before, paths[0]);
      }
    } else if ops == [] {
      NoEditsExact(before, after);
    }
  }

  // ---- Single operations, arrays included ----

  /** No object on the way down the path carries "__proto__". */
  predicate PlainPath(node: Json, segments: Path)
    decreases |segments|
  {
    segments == [] ||
    match node
    case Obj(fields) => PROTO !in fields && (segments[0] in fields ==> PlainPath(fields[segments[0]], segments[1..]))
    case Arr(items) =>
      var index := ArrayIndex(segments[0], ReplaceOp, |items|);
      index.Success? ==> PlainPath(items[index.value], segments[1..])
    case _ => true
  }

  /** What was added or put in place of the old value is found at its path. */
  lemma {:induction false} WrittenValueFound(node: Json, segments: Path, op: Op)
    requires !op.Remove? && ApplyOperation(node, segments, op).Success?
    requires segments != [] ==> segments[|segments| - 1] != "-"
    ensures Lookup(ApplyOperation(node, segments, op).value, segments) == Some(op.value)
    decreases |segments|
  {
    if segments != [] {
      var rest := segments[1..];
      if rest != [] {
        assert rest[|rest| - 1] == segments[|segments| - 1];
        match node
        case Arr(items) =>
          WrittenValueFound(items[ArrayIndex(segments[0], ReplaceOp, |items|).value], rest, op);
        case Obj(fields) => WrittenValueFound(fields[segments[0]], rest, op);
        case _ =>
      } else {
        assert segments == [segments[0]];
      }
    }
  }

  /** Removing what was just added, from an object or an array, gives the old document back. */
  lemma {:induction false} RemoveUndoesAdd(node: Json, segments: Path, value: Json, path: string)
    requires segments != [] && segments[|segments| - 1] != "-"
    requires ApplyOperation(node, segments, Add(path, value)).Success?
    requires PlainPath(node, segments)
    requires var parent := Lookup(node, segments[..|segments| - 1]);
      parent.Some? && parent.value.Obj? ==> segments[|segments| - 1] !in parent.value.fields
    ensures ApplyOperation(ApplyOperation(node, segments, Add(path, value)).value, segments, Remove(path))
        == Success(node)
    decreases |segments|
  {
    var segment, rest := segments[0], segments[1..];
    if rest == [] {
      assert segments == [segment] && segments[..0] == [];
      RemoveUndoesAddHere(node, segment, value, path);
    } else {
      assert segments[..|segments| - 1][1..] == rest[..|rest| - 1];
      assert rest[|rest| - 1] == segments[|segments| - 1];
      match node
      case Arr(items) =>
        var index := ArrayIndex(segment, ReplaceOp, |items|).value;
        RemoveUndoesAdd(items[index], rest, value, path);
        var child := ApplyOperation(items[index], rest, Add(path, value)).value;
        assert items[index := child][index := items[index]] == items;
      case Obj(fields) =>
        RemoveUndoesAdd(fields[segment], rest, value, path);
        var child := ApplyOperation(fields[segment], rest, Add(path, value)).value;
        assert RecordWith(RecordWith(fields, segment, child), segment, fields[segment]) == fields;
      case _ =>
    }
  }

  lemma RemoveUndoesAddHere(node: Json, segment: string, value: Json, path: string)
    requires segment != "-" && PlainPath(node, [segment])
    requires ApplyOperation(node, [segment], Add(path, value)).Success?
    requires node.Obj? ==> segment !in node.fields
    ensures ApplyOperation(ApplyOperation(node, [segment], Add(path, value)).value, [segment], Remove(path))
        == Success(node)
  {
    match node
    case Arr(items) =>
      var index := ArrayIndex(segment, AddOp, |items|).value;
      InsertThenDelete(items, index, value);
      var longer := items[..index] + [value] + items[index..];
      assert ApplyOperation(node, [segment], Add(path, value)) == Success(Arr(longer));
      assert ArrayIndex(segment, RemoveOp, |longer|) == Success(index);
    case Obj(fields) => assert RecordWithout(RecordWith(fields, segment, value), segment) == fields;
    case _ =>
  }

  lemma InsertThenDelete<T>(items: seq<T>, index: nat, value: T)
    requires index <= |items|
    ensures var longer := items[..index] + [value] + items[index..];
      longer[..index] + longer[index + 1..] == items
  {
  }

  lemma PointerToX()
    ensures PrintPointer(["x"]) == "/x"
  {
    assert ["x"][..0] == [];
    PointerTokenCons('x', "");
    assert "x" == ['x'] + "";
  }

  /** A pair with "__proto__" on both sides that the round trip does not restore. */
  lemma UnsafeExample()
    ensures var before := Obj(map[PROTO := Null, "x" := Bool(false)]);
      var after := Obj(map[PROTO := Null, "x" := Bool(true)]);
      !Safe(before, after) && ApplyAll(before, [Replace("/x", Bool(true))]) == Success(Obj(map["x" := Bool(true)]))
  {
    var before := Obj(map[PROTO := Null, "x" := Bool(false)]);
    var after := Obj(map[PROTO := Null, "x" := Bool(true)]);
    var op := Replace("/x", Bool(true));
    assert before.fields["x"] != after.fields["x"];
    PointerToX();
    PathRoundTrip(["x"]);
    assert PROTO != "x" && !Reserved("x");
    hide PrintPointer, PointerSegments, Reserved;
    assert ["x"][1..] == [];
    assert RecordWith(before.fields, "x", Bool(true)) == map["x" := Bool(true)];
    assert [op][..0] == [];
    assert ApplyAll(before, []) == Success(before);
  }
}
