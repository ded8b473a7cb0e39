/** Splicing version edits into the lockfile text from back to front. */
module LockSplice {
  import opened Wrappers

  /** The text between two offsets is replaced by a value. */
  datatype Edit = Edit(start: nat, end: nat, value: string)

  /** Every edit replaces at least one character of the text. */
  predicate Inside(edits: seq<Edit>, text: string) {
    forall i :: 0 <= i < |edits| ==> edits[i].start < edits[i].end <= |text|
  }

  predicate Apart(a: Edit, b: Edit) {
    a.end <= b.start || b.end <= a.start
  }

  predicate Disjoint(edits: seq<Edit>) {
    forall i, j :: 0 <= i < j < |edits| ==> Apart(edits[i], edits[j])
  }

  predicate Descending(edits: seq<Edit>) {
    forall i, j :: 0 <= i < j < |edits| ==> edits[i].start >= edits[j].start
  }

  // ---- What the edits mean ----

  predicate StartsAt(edits: seq<Edit>, at: nat) {
    exists i :: 0 <= i < |edits| && edits[i].start == at
  }

  /** The edit that starts at an offset. */
  function Starting(edits: seq<Edit>, at: nat): Option<Edit> {
    if edits == [] then None
    else if edits[0].start == at then Some(edits[0])
    else Starting(edits[1..], at)
  }

  /**
   * All edits at once, against the original offsets: reading from the left, an edited range gives
   * its value and any other character gives itself.
   */
  function Substitute(text: string, edits: seq<Edit>, at: nat): string
    requires at <= |text| && Inside(edits, text)
    decreases |text| - at
  {
    if at == |text| then ""
    else match Starting(edits, at)
      case Some(edit) =>
        StartingIsIn(edits, at);
        edit.value + Substitute(text, edits, edit.end)
      case None => [text[at]] + Substitute(text, edits, at + 1)
  }

  lemma {:induction false} StartingIsIn(edits: seq<Edit>, at: nat)
    ensures Starting(edits, at).Some? <==> StartsAt(edits, at)
    ensures Starting(edits, at).Some? ==> Starting(edits, at).value in edits && Starting(edits, at).value.start == at
  {
    if edits != [] && edits[0].start != at {
      StartingIsIn(edits[1..], at);
      if StartsAt(edits, at) {
        var i :| 0 <= i < |edits| && edits[i].start == at;
        assert edits[1..][i - 1].start == at;
      }
      if StartsAt(edits[1..], at) {
        var i :| 0 <= i < |edits[1..]| && edits[1..][i].start == at;
        assert edits[i + 1].start == at;
      }
    }
  }

  /** Disjoint edits start at different places, so which edit starts where does not depend on their order. */
  lemma StartingIsUnique(edits: seq<Edit>, edit: Edit, text: string)
    requires Disjoint(edits) && Inside(edits, text) && edit in edits
    ensures Starting(edits, edit.start) == Some(edit)
  {
    StartingIsIn(edits, edit.start);
    assert edits[IndexOf(edits, edit)] == edit;
    var found := Starting(edits, edit.start).value;
    if found != edit {
      PairApart(edits, edit, found);
    }
    InsideOne(edits, edit, text);
    InsideOne(edits, found, text);
  }

  function IndexOf(edits: seq<Edit>, edit: Edit): (i: nat)
    requires edit in edits
    ensures i < |edits| && edits[i] == edit
  {
    if edits[0] == edit then 0 else IndexOf(edits[1..], edit) + 1
  }

  lemma PairApart(edits: seq<Edit>, a: Edit, b: Edit)
    requires Disjoint(edits) && a in edits && b in edits && a != b
    ensures Apart(a, b)
  {
    var i, j := IndexOf(edits, a), IndexOf(edits, b);
    assert if i < j then Apart(edits[i], edits[j]) else Apart(edits[j], edits[i]);
  }

  lemma InsideOne(edits: seq<Edit>, edit: Edit, text: string)
    requires Inside(edits, text) && edit in edits
    ensures edit.start < edit.end <= |text|
  {
  }

  lemma {:induction false} OrderIrrelevant(text: string, a: seq<Edit>, b: seq<Edit>, at: nat)
    requires at <= |text| && Inside(a, text) && Inside(b, text) && Disjoint(a) && Disjoint(b)
    requires forall edit :: edit in a <==> edit in b
    ensures Substitute(text, a, at) == Substitute(text, b, at)
    decreases |text| - at
  {
    if at < |text| {
      StartingIsIn(a, at);
      SameStarting(text, a, b, at);
      hide Inside, Disjoint, Starting;
      match Starting(a, at)
      case Some(edit) =>
        InsideOne(a, edit, text);
        OrderIrrelevant(text, a, b, edit.end);
      case None => OrderIrrelevant(text, a, b, at + 1);
    }
  }

  lemma SameStarting(text: string, a: seq<Edit>, b: seq<Edit>, at: nat)
    requires Inside(a, text) && Inside(b, text) && Disjoint(a) && Disjoint(b)
    requires forall edit :: edit in a <==> edit in b
    ensures Starting(a, at) == Starting(b, at)
  {
    hide Inside, Disjoint, Starting, StartsAt;
    StartingIsIn(a, at);
    StartingIsIn(b, at);
    if Starting(a, at).Some? {
      StartingIsUnique(b, Starting(a, at).value, text);
    } else if Starting(b, at).Some? {
      StartingIsUnique(a, Starting(b, at).value, text);
    }
  }

  /** Where no edit starts, the text stays. */
  lemma {:induction false} Gap(text: string, edits: seq<Edit>, a: nat, b: nat)
    requires a <= b <= |text| && Inside(edits, text)
    requires forall at :: a <= at < b ==> !StartsAt(edits, at)
    ensures Substitute(text, edits, a) == text[a..b] + Substitute(text, edits, b)
    decreases b - a
  {
    if a < b {
      StartingIsIn(edits, a);
      hide Inside, StartsAt, Starting;
      Gap(text, edits, a + 1, b);
      assert text[a..b] == [text[a]] + text[a + 1..b];
      var tail := Substitute(text, edits, b);
      assert [text[a]] + (text[a + 1..b] + tail) == [text[a]] + text[a + 1..b] + tail;
    } else {
      assert text[a..b] == "";
    }
  }

  // ---- The splice ----

  function SpliceOne(text: string, edit: Edit): string
    requires edit.start <= edit.end <= |text|
  {
    text[..edit.start] + edit.value + text[edit.end..]
  }

  /** The sort's result: the same edits, later ones first. */
  function SortDescending(edits: seq<Edit>): (sorted: seq<Edit>)
    ensures |sorted| == |edits|
    ensures Descending(sorted)
  {
    if edits == [] then [] else Insert(SortDescending(edits[..|edits| - 1]), edits[|edits| - 1])
  }

  function Insert(sorted: seq<Edit>, edit: Edit): (r: seq<Edit>)
    requires Descending(sorted)
    ensures |r| == |sorted| + 1
    ensures Descending(r)
    ensures forall x :: x in r <==> x in sorted || x == edit
  {
    if sorted == [] then [edit]
    else if sorted[0].start < edit.start then [edit] + sorted
    else
      var rest := Insert(sorted[1..], edit);
      assert sorted == [sorted[0]] + sorted[1..];
      assert forall i :: 0 <= i < |rest| ==> rest[i] in rest;
      [sorted[0]] + rest
  }

  lemma {:induction false} InsertKeepsApart(sorted: seq<Edit>, edit: Edit)
    requires Descending(sorted) && Disjoint(sorted)
    requires forall i :: 0 <= i < |sorted| ==> Apart(sorted[i], edit)
    ensures Disjoint(Insert(sorted, edit))
  {
    if sorted != [] && sorted[0].start >= edit.start {
      var tail := sorted[1..];
      assert forall i :: 0 <= i < |tail| ==> tail[i] == sorted[i + 1];
      InsertKeepsApart(tail, edit);
      var rest := Insert(tail, edit);
      forall j | 0 <= j < |rest| ensures Apart(sorted[0], rest[j]) {
        assert rest[j] in rest;
      }
    }
  }

  /** Sorting keeps the edits, inside the text and apart from each other. */
  lemma {:induction false} SortKeeps(edits: seq<Edit>, text: string)
    requires Inside(edits, text) && Disjoint(edits)
    ensures forall edit :: edit in SortDescending(edits) <==> edit in edits
    ensures Inside(SortDescending(edits), text) && Disjoint(SortDescending(edits))
  {
    if edits != [] {
      var n := |edits| - 1;
      SortKeeps(edits[..n], text);
      hide Inside, Disjoint, Insert, Apart;
      InsertKeeps(SortDescending(edits[..n]), edits, text);
    }
  }

  lemma InsertKeeps(sorted: seq<Edit>, edits: seq<Edit>, text: string)
    requires edits != [] && Inside(edits, text) && Disjoint(edits)
    requires Inside(sorted, text) && Disjoint(sorted) && Descending(sorted)
    requires forall edit :: edit in sorted <==> edit in edits[..|edits| - 1]
    ensures var r := Insert(sorted, edits[|edits| - 1]);
      (forall edit :: edit in r <==> edit in edits) && Inside(r, text) && Disjoint(r)
  {
    hide Insert, Apart;
    var last := edits[|edits| - 1];
    forall i | 0 <= i < |sorted| ensures Apart(sorted[i], last) {
      assert sorted[i] in sorted;
      var k := IndexOf(edits[..|edits| - 1], sorted[i]);
      assert edits[k] == sorted[i];
    }
    InsertKeepsApart(sorted, last);
    var r := Insert(sorted, last);
    assert edits == edits[..|edits| - 1] + [last];
    forall edit ensures edit in r <==> edit in edits {
      assert edit in edits <==> edit in edits[..|edits| - 1] || edit == last;
    }
    InsideBoth(edits, r, text);
  }

  lemma InsideBoth(edits: seq<Edit>, r: seq<Edit>, text: string)
    requires Inside(edits, text) && forall edit :: edit in r ==> edit in edits
    ensures Inside(r, text)
  {
    forall i | 0 <= i < |r| ensures r[i] in edits {
      assert r[i] in r;
    }
  }

  /** How far down the text the first k edits have rewritten it. */
  function Front(sorted: seq<Edit>, k: nat, text: string): nat
    requires k <= |sorted|
  {
    if k == 0 then |text| else sorted[k - 1].start
  }

  /**
   * Splices the edits in, the last one first, each against the text as it then stands. The result
   * is the simultaneous substitution against the original text, whatever order the edits came in.
   */
  method ApplyEdits(text: string, edits: seq<Edit>) returns (r: string)
    requires Inside(edits, text) && Disjoint(edits)
    ensures r == Substitute(text, edits, 0)
  {
    var sorted := SortDescending(edits);
    SortKeeps(edits, text);
    hide Inside, Disjoint, Descending, Substitute, SortDescending;
    r := text;
    assert Substitute(text, sorted, |text|) == "" by {
      NothingBehind(text, sorted);
    }
    var k := 0;
    while k < |sorted|
      invariant 0 <= k <= |sorted|
      invariant Front(sorted, k, text) <= |text|
      invariant r == text[..Front(sorted, k, text)] + Substitute(text, sorted, Front(sorted, k, text))
    {
      SpliceStep(text, sorted, k);
      r := SpliceOne(r, sorted[k]);
      k := k + 1;
    }
    FirstGap(text, sorted);
    OrderIrrelevant(text, edits, sorted, 0);
  }

  lemma NothingBehind(text: string, edits: seq<Edit>)
    requires Inside(edits, text)
    ensures Substitute(text, edits, |text|) == ""
  {
  }

  /** The next edit ends before everything rewritten so far, and nothing starts in between. */
  lemma NextEdit(text: string, sorted: seq<Edit>, k: nat)
    requires Inside(sorted, text) && Disjoint(sorted) && Descending(sorted) && k < |sorted|
    ensures sorted[k].start < sorted[k].end <= Front(sorted, k, text) <= |text|
    ensures forall at :: sorted[k].end <= at < Front(sorted, k, text) ==> !StartsAt(sorted, at)
  {
    if k > 0 {
      assert Apart(sorted[k - 1], sorted[k]) && sorted[k - 1].start >= sorted[k].start;
    }
    assert forall i :: 0 <= i < k ==> sorted[i].start >= Front(sorted, k, text);
    assert forall i :: k <= i < |sorted| ==> sorted[i].start < sorted[k].end;
  }

  /** Splicing one edit in moves the front down to where the edit starts. */
  lemma SpliceStep(text: string, sorted: seq<Edit>, k: nat)
    requires Inside(sorted, text) && Disjoint(sorted) && Descending(sorted) && k < |sorted|
    ensures var b, e := Front(sorted, k, text), sorted[k];
      && e.start < e.end <= b <= |text|
      && SpliceOne(text[..b] + Substitute(text, sorted, b), e) == text[..e.start] + Substitute(text, sorted, e.start)
  {
    NextEdit(text, sorted, k);
    var b, e := Front(sorted, k, text), sorted[k];
    StartingIsUnique(sorted, e, text);
    assert Substitute(text, sorted, e.start) == e.value + Substitute(text, sorted, e.end);
    hide Inside, Disjoint, Descending, Substitute, Starting, StartsAt, SpliceOne;
    Gap(text, sorted, e.end, b);
    CutAround(text, b, e, Substitute(text, sorted, b));
  }

  lemma CutAround(text: string, b: nat, e: Edit, tail: string)
    requires e.start <= e.end <= b <= |text|
    ensures SpliceOne(text[..b] + tail, e) == text[..e.start] + (e.value + (text[e.end..b] + tail))
  {
    assert (text[..b] + tail)[..e.start] == text[..e.start];
    assert (text[..b] + tail)[e.end..] == text[e.end..b] + tail;
  }

  /** Nothing starts before the first edit. */
  lemma FirstGap(text: string, sorted: seq<Edit>)
    requires Inside(sorted, text) && Disjoint(sorted) && Descending(sorted)
    ensures var front := Front(sorted, |sorted|, text);
      && front <= |text|
      && Substitute(text, sorted, 0) == text[..front] + Substitute(text, sorted, front)
  {
    var front := Front(sorted, |sorted|, text);
    forall at | 0 <= at < front ensures !StartsAt(sorted, at) {
    }
    Gap(text, sorted, 0, front);
  }

  // ---- The text, piece by piece ----

  predicate Ascending(edits: seq<Edit>) {
    forall i, j :: 0 <= i < j < |edits| ==> edits[i].end <= edits[j].start
  }

  /** The text from an offset on: the pieces between the edits as they are, and each edit's value between them. */
  function Assembled(text: string, edits: seq<Edit>, at: nat): string
    requires at <= |text| && Inside(edits, text) && Ascending(edits)
    requires edits != [] ==> at <= edits[0].start
  {
    if edits == [] then text[at..]
    else text[at..edits[0].start] + edits[0].value + Assembled(text, edits[1..], edits[0].end)
  }

  lemma AscendingApart(edits: seq<Edit>)
    requires Ascending(edits)
    ensures Disjoint(edits)
  {
    forall i, j | 0 <= i < j < |edits| ensures Apart(edits[i], edits[j]) {
    }
  }

  lemma {:induction false} AssembledFrom(text: string, edits: seq<Edit>, k: nat, at: nat)
    requires k <= |edits| && at <= |text| && Inside(edits, text) && Ascending(edits)
    requires k < |edits| ==> at <= edits[k].start
    requires k > 0 ==> edits[k - 1].end <= at
    ensures Inside(edits[k..], text) && Ascending(edits[k..])
    ensures Substitute(text, edits, at) == Assembled(text, edits[k..], at)
    decreases |edits| - k
  {
    AscendingApart(edits);
    var stop := if k < |edits| then edits[k].start else |text|;
    forall x | at <= x < stop ensures !StartsAt(edits, x) {
      NoneBetween(edits, text, k, at, x);
    }
    Gap(text, edits, at, stop);
    if k < |edits| {
      var e := edits[k];
      StartingIsUnique(edits, e, text);
      assert Substitute(text, edits, e.start) == e.value + Substitute(text, edits, e.end);
      assert edits[k..][1..] == edits[k + 1..] && edits[k..][0] == e;
      AssembledFrom(text, edits, k + 1, e.end);
      hide Substitute, Inside, Ascending, StartsAt;
      Associates(text[at..e.start], e.value, Assembled(text, edits[k + 1..], e.end));
    } else {
      NothingBehind(text, edits);
      assert text[at..] == text[at..stop] + "";
    }
  }

  lemma NoneBetween(edits: seq<Edit>, text: string, k: nat, at: nat, x: nat)
    requires k <= |edits| && Inside(edits, text) && Ascending(edits)
    requires k > 0 ==> edits[k - 1].end <= at
    requires at <= x && (k < |edits| ==> x < edits[k].start)
    ensures !StartsAt(edits, x)
  {
    forall i | 0 <= i < |edits| ensures edits[i].start != x {
      if i < k {
        assert i == k - 1 || edits[i].end <= edits[k - 1].start;
      } else {
        assert i == k || edits[k].end <= edits[i].start;
      }
    }
  }

  /**
   * Whatever order the edits came in, the result is the text between them, unchanged, with each value in
   * the place of its own range.
   */
  lemma AssembledExactly(text: string, edits: seq<Edit>, ascending: seq<Edit>)
    requires Inside(edits, text) && Disjoint(edits) && Inside(ascending, text) && Ascending(ascending)
    requires forall edit :: edit in ascending <==> edit in edits
    ensures Substitute(text, edits, 0) == Assembled(text, ascending, 0)
  {
    AscendingApart(ascending);
    OrderIrrelevant(text, edits, ascending, 0);
    hide Substitute, Disjoint;
    assert ascending[0..] == ascending;
    AssembledFrom(text, ascending, 0, 0);
  }

  // ---- Characters outside the edits ----

  predicate Covered(edits: seq<Edit>, at: nat) {
    exists i :: 0 <= i < |edits| && edits[i].start <= at < edits[i].end
  }

  /** The characters no edit covers, in order. */
  function Untouched(text: string, edits: seq<Edit>, at: nat): string
    requires at <= |text|
    decreases |text| - at
  {
    if at == |text| then ""
    else (if Covered(edits, at) then "" else [text[at]]) + Untouched(text, edits, at + 1)
  }

  predicate Subsequence(a: string, b: string) {
    a == "" || (b != "" && ((a[0] == b[0] && Subsequence(a[1..], b[1..])) || Subsequence(a, b[1..])))
  }

  lemma {:induction false} SubsequenceBehind(a: string, value: string, b: string)
    requires Subsequence(a, b)
    ensures Subsequence(a, value + b)
    decreases |value|
  {
    if value == "" {
      assert value + b == b;
    } else {
      assert (value + b)[1..] == value[1..] + b;
      SubsequenceBehind(a, value[1..], b);
    }
  }

  lemma {:induction false} CoveredSkipped(text: string, edits: seq<Edit>, edit: Edit, at: nat)
    requires edit in edits && edit.start <= at <= edit.end <= |text|
    ensures Untouched(text, edits, at) == Untouched(text, edits, edit.end)
    decreases edit.end - at
  {
    if at < edit.end {
      assert Covered(edits, at);
      CoveredSkipped(text, edits, edit, at + 1);
    }
  }

  /** Reading from a boundary, every character outside the edits comes out, in order. */
  lemma {:induction false} UntouchedKept(text: string, edits: seq<Edit>, at: nat)
    requires at <= |text| && Inside(edits, text) && Disjoint(edits)
    requires forall i :: 0 <= i < |edits| ==> !(edits[i].start < at < edits[i].end)
    ensures Subsequence(Untouched(text, edits, at), Substitute(text, edits, at))
    decreases |text| - at
  {
    if at < |text| {
      StartingIsIn(edits, at);
      match Starting(edits, at)
      case Some(edit) =>
        NoBoundaryCrossed(edits, edit, text);
        UntouchedKept(text, edits, edit.end);
        CoveredSkipped(text, edits, edit, at);
        SubsequenceBehind(Untouched(text, edits, edit.end), edit.value, Substitute(text, edits, edit.end));
      case None =>
        assert forall i :: 0 <= i < |edits| ==> edits[i].start != at;
        assert !Covered(edits, at);
        UntouchedKept(text, edits, at + 1);
        assert ([text[at]] + Untouched(text, edits, at + 1))[1..] == Untouched(text, edits, at + 1);
        assert ([text[at]] + Substitute(text, edits, at + 1))[1..] == Substitute(text, edits, at + 1);
    }
  }

  lemma NoBoundaryCrossed(edits: seq<Edit>, edit: Edit, text: string)
    requires Inside(edits, text) && Disjoint(edits) && edit in edits
    ensures forall i :: 0 <= i < |edits| ==> !(edits[i].start < edit.end < edits[i].end)
  {
    var k :| 0 <= k < |edits| && edits[k] == edit;
    forall i | 0 <= i < |edits| ensures !(edits[i].start < edit.end < edits[i].end) {
      if i < k {
        assert Apart(edits[i], edits[k]);
      } else if k < i {
        assert Apart(edits[k], edits[i]);
      }
    }
  }
}
