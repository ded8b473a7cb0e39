/** When the cuts between chunks change the frames that the agent-to-agent reader hands on. */
module EventCuts {
  import opened EventFrames
  import opened EventStream

  const CLOSING := "\n\n"

  /** The frames of a response that arrives in these chunks, with the closing blank line behind them. */
  ghost function Yielded(texts: seq<string>): seq<string> {
    TakeAll(texts + [CLOSING]).frames
  }

  /** No CR CR LF that a later chunk folds: with empty chunks any, without them any with text behind it. */
  ghost predicate Settled(rest: string, empties: bool) {
    forall i :: 2 <= i < |rest| && (empties || i + 1 < |rest|) ==>
      !(rest[i - 2] == '\r' && rest[i - 1] == '\r' && rest[i] == '\n')
  }

  /**
   * Read in one chunk, no complete frame holds a CRLF, or ends with a CR, after folding, and the
   * rest that is carried to the closing holds no CR CR LF for a later chunk to fold.
   */
  ghost predicate OnePassClean(text: string, empties: bool) {
    NoCrLf(Consumed(Normalize(text))) && Settled(Take(text).rest, empties)
  }

  /** The text in chunks; `empties` says whether chunks may be empty. */
  ghost predicate Pieces(texts: seq<string>, text: string, empties: bool) {
    Concat(texts) == text && (empties || forall i :: 0 <= i < |texts| ==> texts[i] != "")
  }

  // ---- Reading on from a carried rest ----

  ghost function TakeFrom(rest: string, texts: seq<string>): Frames
    decreases |texts|
  {
    if texts == [] then Frames([], rest)
    else
      var first := Take(rest + texts[0]);
      var later := TakeFrom(first.rest, texts[1..]);
      Frames(first.frames + later.frames, later.rest)
  }

  lemma {:induction false} TakeFromSnoc(rest: string, texts: seq<string>, text: string)
    ensures var before := TakeFrom(rest, texts);
      var last := Take(before.rest + text);
      TakeFrom(rest, texts + [text]) == Frames(before.frames + last.frames, last.rest)
    decreases |texts|
  {
    hide Take;
    if texts == [] {
      assert [] + [text] == [text] && [text][1..] == [];
      var last := Take(rest + text);
      assert TakeFrom(last.rest, []) == Frames([], last.rest);
      assert last.frames + [] == last.frames && [] + last.frames == last.frames;
    } else {
      var first := Take(rest + texts[0]);
      assert (texts + [text])[0] == texts[0] && (texts + [text])[1..] == texts[1..] + [text];
      TakeFromSnoc(first.rest, texts[1..], text);
      var later := TakeFrom(first.rest, texts[1..]);
      var last := Take(later.rest + text);
      assert first.frames + (later.frames + last.frames) == first.frames + later.frames + last.frames;
    }
  }

  lemma {:induction false} TakeAllFrom(texts: seq<string>)
    ensures TakeAll(texts) == TakeFrom("", texts)
  {
    if texts != [] {
      hide Take;
      var init, text := texts[..|texts| - 1], texts[|texts| - 1];
      assert texts == init + [text];
      TakeAllFrom(init);
      TakeFromSnoc("", init, text);
    }
  }

  lemma {:induction false} ConcatCons(text: string, texts: seq<string>)
    ensures Concat([text] + texts) == text + Concat(texts)
  {
    if texts == [] {
      assert [text] + [] == [text] && [text][..0] == [];
      assert text + "" == text && "" + text == text;
    } else {
      var n := |texts| - 1;
      ConcatCons(text, texts[..n]);
      assert ([text] + texts)[..n + 1] == [text] + texts[..n];
      assert text + Concat(texts[..n]) + texts[n] == text + (Concat(texts[..n]) + texts[n]);
    }
  }

  // ---- One cut in a clean text ----

  /** What was consumed stays consumed, and the text behind it is consumed on its own. */
  lemma {:induction false} ConsumedOfThen(s: string, t: string)
    ensures Consumed(Consumed(s) + t) == Consumed(s) + Consumed(t)
    decreases |s|
  {
    hide FindBlank;
    if FindBlank(s).None? {
      assert "" + t == t && "" + Consumed(t) == Consumed(t);
    } else {
      FindBlankLocal(s, "");
      var n := FindBlank(s).value.index + 2;
      var head, later := s[..n], Consumed(s[n..]) + t;
      assert Consumed(s) + t == head + later;
      FindBlankLocal(s, later);
      assert (head + later)[..n] == head && (head + later)[n..] == later;
      ConsumedOfThen(s[n..], t);
      assert head + (Consumed(s[n..]) + Consumed(t)) == head + Consumed(s[n..]) + Consumed(t);
    }
  }

  /** Folding across a cut, in two parts: the carried text, and what is folded behind it. */
  lemma FoldParts(x: string, y: string, consumed: string, rest: string) returns (kept: string, tail: string)
    requires Normalize(x) == consumed + rest
    requires consumed != "" ==> consumed[|consumed| - 1] == '\n'
    ensures Normalize(x + y) == consumed + (kept + tail)
    ensures Normalize(rest + y) == Normalize(kept) + tail
    ensures kept <= rest
    ensures y != "" ==> tail != ""
  {
    if y != "" {
      NormalizeLast(y);
    }
    hide Normalize;
    RestEnds(x, y, consumed, rest);
    if Straddles(x, y) {
      kept, tail := FoldPartsCrLf(x, y, consumed, rest);
    } else {
      hide Straddles;
      NormalizeAppend(x, y);
      NormalizeAppend(rest, y);
      kept, tail := rest, Normalize(y);
      assert consumed + rest + tail == consumed + (rest + tail);
    }
  }

  lemma FoldPartsCrLf(x: string, y: string, consumed: string, rest: string) returns (kept: string, tail: string)
    requires Normalize(x) == consumed + rest && Straddles(x, y) && Straddles(rest, y)
    ensures Normalize(x + y) == consumed + (kept + tail)
    ensures Normalize(rest + y) == Normalize(kept) + tail
    ensures kept <= rest && tail != ""
  {
    NormalizeBeforeCr(x, consumed, rest);
    hide Normalize;
    var x', y' := x[..|x| - 1], y[1..];
    kept := rest[..|rest| - 1];
    tail := "\n" + Normalize(y');
    FoldBehindCr(x, y, x');
    FoldBehindCr(rest, y, kept);
    assert (consumed + kept) + tail == consumed + (kept + tail);
  }

  lemma NormalizeBeforeCr(x: string, consumed: string, rest: string)
    requires Normalize(x) == consumed + rest
    requires x != "" && rest != "" && x[|x| - 1] == '\r' && rest[|rest| - 1] == '\r'
    ensures Normalize(x[..|x| - 1]) == consumed + rest[..|rest| - 1]
  {
    hide Normalize;
    CrKept(x);
    InitOfJoin(Normalize(x[..|x| - 1]), consumed, rest);
  }

  lemma InitOfJoin(init: string, consumed: string, rest: string)
    requires rest != "" && init + "\r" == consumed + rest
    ensures init == consumed + rest[..|rest| - 1]
  {
    assert init == (init + "\r")[..|init|] == (consumed + rest)[..|init|];
  }

  lemma FoldBehindCr(x: string, y: string, init: string)
    requires Straddles(x, y) && init == x[..|x| - 1]
    ensures Normalize(x + y) == Normalize(init) + ("\n" + Normalize(y[1..]))
  {
    hide Normalize;
    SplitCrLf(x, y);
    NormalizeAround(init, y[1..]);
    assert Normalize(init) + "\n" + Normalize(y[1..]) == Normalize(init) + ("\n" + Normalize(y[1..]));
  }

  ghost predicate NoBlank(s: string) {
    forall i :: 1 <= i < |s| ==> !(s[i - 1] == '\n' && s[i] == '\n')
  }

  lemma NoBlankExact(s: string)
    ensures NoBlank(s) <==> FindBlank(s).None?
  {
    hide FindBlank;
    FindBlankExact(s);
    if FindBlank(s).Some? {
      var i := FindBlank(s).value.index;
      assert s[i + 1 - 1] == '\n' && s[i + 1] == '\n';
    }
  }

  lemma BreakBeyond(kept: string, tail: string)
    requires NoBlank(kept) && FindBlank(kept + tail).Some?
    ensures |kept| < FindBlank(kept + tail).value.index + 2 <= |kept + tail|
  {
    hide FindBlank;
    var s := kept + tail;
    assert forall i :: 0 <= i < |kept| ==> s[i] == kept[i];
    FindBlankExact(s);
    var i := FindBlank(s).value.index + 1;
    assert s[i - 1] == '\n' && s[i] == '\n';
  }

  /** A first frame reaches beyond a text without a blank line. */
  lemma ConsumedCovers(kept: string, tail: string)
    requires NoBlank(kept) && !NoCrLf(kept) && FindBlank(kept + tail).Some?
    ensures !NoCrLf(Consumed(kept + tail))
  {
    var s := kept + tail;
    FindBlankLocal(s, "");
    var c := Consumed(s);
    hide FindBlank, Consumed;
    BreakBeyond(kept, tail);
    assert forall i :: 0 <= i < |kept| ==> c[i] == kept[i];
    var i :| 1 <= i < |kept| && kept[i - 1] == '\r' && kept[i] == '\n';
    assert c[i - 1] == '\r' && c[i] == '\n';
  }

  lemma {:induction false} CrKept(s: string)
    ensures s != "" && s[|s| - 1] == '\r' ==> Normalize(s) == Normalize(s[..|s| - 1]) + "\r"
    ensures s != "" && s[|s| - 1] != '\r' ==> Normalize(s) != "" && Normalize(s)[|Normalize(s)| - 1] != '\r'
    ensures s == "" ==> Normalize(s) == ""
  {
    if s != "" {
      NormalizeLast(s);
      assert Normalize("\r") == "\r";
      if s[|s| - 1] == '\r' {
        hide Normalize;
        assert s == s[..|s| - 1] + "\r";
        NormalizeAppend(s[..|s| - 1], "\r");
      }
    }
  }

  /** Folding the carried text once more brings no CR CR LF and no blank line at or behind the join. */
  lemma FoldedJoin(kept: string, tail: string, empties: bool)
    requires Settled(kept + tail, empties) && NoBlank(kept + tail) && (empties || tail != "")
    ensures NoCrLf(Normalize(kept))
    ensures Settled(Normalize(kept) + tail, empties)
    ensures var w := Normalize(kept); forall i :: |w| <= i < |w + tail| && 1 <= i ==>
      !((w + tail)[i - 1] == '\n' && (w + tail)[i] == '\n')
  {
    SettledBefore(kept, tail, empties);
    FoldingIsClean(kept);
    var w := Normalize(kept);
    CrKept(kept);
    if kept != "" {
      CrKept(kept[..|kept| - 1]);
      NormalizeLast(kept);
    }
    hide Normalize;
    JoinBlank(kept, w, tail);
    forall i | 2 <= i < |w + tail| && (empties || i + 1 < |w + tail|)
      ensures !((w + tail)[i - 2] == '\r' && (w + tail)[i - 1] == '\r' && (w + tail)[i] == '\n')
    {
      JoinCr(kept, w, tail, i, empties);
    }
  }

  lemma SettledBefore(kept: string, tail: string, empties: bool)
    requires Settled(kept + tail, empties) && (empties || tail != "")
    ensures NoCrCrLf(kept)
  {
    assert forall i :: 0 <= i < |kept| ==> kept[i] == (kept + tail)[i];
  }

  lemma JoinBlank(kept: string, w: string, tail: string)
    requires NoBlank(kept + tail)
    requires kept == "" ==> w == ""
    requires kept != "" ==> w != "" && w[|w| - 1] == kept[|kept| - 1]
    ensures forall i :: |w| <= i < |w + tail| && 1 <= i ==> !((w + tail)[i - 1] == '\n' && (w + tail)[i] == '\n')
  {
    var s, joined := kept + tail, w + tail;
    forall i | |w| <= i < |joined| && 1 <= i ensures !(joined[i - 1] == '\n' && joined[i] == '\n') {
      var k := |kept| + (i - |w|);
      assert s[k] == joined[i];
      assert k >= 1 ==> s[k - 1] == joined[i - 1];
    }
  }

  lemma JoinCr(kept: string, w: string, tail: string, i: nat, empties: bool)
    requires Settled(kept + tail, empties) && NoCrLf(w)
    requires kept == "" ==> w == ""
    requires kept != "" ==> w != "" && w[|w| - 1] == kept[|kept| - 1]
    requires |w| >= 2 && w[|w| - 1] == '\r' && w[|w| - 2] == '\r' ==>
      |kept| >= 2 && kept[|kept| - 1] == '\r' && kept[|kept| - 2] == '\r'
    requires 2 <= i < |w + tail| && (empties || i + 1 < |w + tail|)
    ensures !((w + tail)[i - 2] == '\r' && (w + tail)[i - 1] == '\r' && (w + tail)[i] == '\n')
  {
    var s, joined := kept + tail, w + tail;
    if i < |w| {
      assert joined[i - 1] == w[i - 1] && joined[i] == w[i];
    } else if joined[i - 2] == '\r' && joined[i - 1] == '\r' {
      var k := |kept| + (i - |w|);
      assert s[k] == joined[i];
      if i == |w| {
        assert joined[i - 1] == w[i - 1] && joined[i - 2] == w[i - 2];
        assert s[k - 1] == kept[k - 1] && s[k - 2] == kept[k - 2];
      } else if i == |w| + 1 {
        assert joined[i - 2] == w[i - 2];
        assert s[k - 1] == joined[i - 1] && s[k - 2] == kept[k - 2];
      } else {
        assert s[k - 1] == joined[i - 1] && s[k - 2] == joined[i - 2];
      }
    }
  }

  /** What is left of a buffer, closed by a blank line, and the frames of both. */
  ghost function ClosedFrames(s: string): seq<string> {
    BlanksAreStable();
    Drain(FindBlank, s).frames + Take(Drain(FindBlank, s).rest + CLOSING).frames
  }

  /** The frames of a folded buffer and of its closing are those of the buffer closed at once. */
  lemma ClosedAtOnce(s: string)
    requires NoCrLf(Consumed(s))
    ensures Stable(FindBlank)
    ensures ClosedFrames(s) == Drain(FindBlank, Normalize(s + CLOSING)).frames
  {
    BlanksAreStable();
    hide Stable, FindBlank, Drain, NoCrLf, Normalize;
    var consumed, rest := Consumed(s), Drain(FindBlank, s).rest;
    ConsumedAndRest(s);
    NormalizeExact(consumed);
    NormalizeAppend(consumed, rest + CLOSING);
    assert s + CLOSING == consumed + (rest + CLOSING);
    ConsumedThen(s, Normalize(rest + CLOSING));
  }

  lemma NoBlankRest(s: string)
    requires Stable(FindBlank)
    ensures NoBlank(Drain(FindBlank, s).rest)
  {
    hide Stable, FindBlank, Drain;
    FramesHoldNoCut(FindBlank, s);
    NoBlankExact(Drain(FindBlank, s).rest);
  }

  lemma PrefixNoBlank(a: string, b: string)
    requires a <= b && NoBlank(b)
    ensures NoBlank(a)
  {
  }

  lemma PrefixNoCrLf(a: string, b: string)
    requires a <= b && NoCrLf(b)
    ensures NoCrLf(a)
  {
  }

  lemma SettledBehind(a: string, b: string, empties: bool)
    requires Settled(a + b, empties)
    ensures Settled(b, empties)
  {
    assert forall i :: 0 <= i < |b| ==> (a + b)[|a| + i] == b[i];
  }

  /** A text whose blank lines all lie in its first part is consumed no further than that part. */
  lemma ConsumedWithin(w: string, tail: string)
    requires forall i :: |w| <= i < |w + tail| && 1 <= i ==> !((w + tail)[i - 1] == '\n' && (w + tail)[i] == '\n')
    ensures Stable(FindBlank)
    ensures Consumed(w + tail) <= w
  {
    BlanksAreStable();
    hide Stable, FindBlank, Drain;
    var s := w + tail;
    ConsumedAndRest(s);
    ConsumedEndsBlank(s);
    var n := |Consumed(s)|;
    if n > 0 {
      assert s[n - 1] == Consumed(s)[n - 1] && s[n - 2] == Consumed(s)[n - 2];
    }
    assert n <= |w|;
    assert Consumed(s) == s[..n] == w[..n];
  }

  /**
   * The carried part of a clean text may be folded once more before the text behind it arrives:
   * what is consumed stays clean, what is carried stays clean, and the frames stay the same.
   */
  lemma FoldedAgain(kept: string, tail: string, empties: bool)
    requires Stable(FindBlank)
    requires NoBlank(kept) && (empties || tail != "")
    requires NoCrLf(Consumed(kept + tail)) && Settled(Drain(FindBlank, kept + tail).rest, empties)
    ensures NoCrLf(Consumed(Normalize(kept) + tail))
    ensures Settled(Drain(FindBlank, Normalize(kept) + tail).rest, empties)
    ensures ClosedFrames(Normalize(kept) + tail) == ClosedFrames(kept + tail)
  {
    hide Stable, FindBlank, Drain, Normalize, Settled;
    if NoCrLf(kept) {
      NormalizeExact(kept);
    } else {
      if FindBlank(kept + tail).Some? {
        ConsumedCovers(kept, tail);
      }
      DrainStep(FindBlank, kept + tail);
      NoBlankExact(kept + tail);
      var w := Normalize(kept);
      FoldedJoin(kept, tail, empties);
      ConsumedWithin(w, tail);
      PrefixNoCrLf(Consumed(w + tail), w);
      ConsumedAndRest(w + tail);
      SettledBehind(Consumed(w + tail), Drain(FindBlank, w + tail).rest, empties);
      ClosedAtOnce(w + tail);
      ClosedAtOnce(kept + tail);
      FoldedOnce(kept, tail);
    }
  }

  /** Folding a part first makes no difference to folding the whole when nothing is left to fold in it. */
  lemma FoldedOnce(kept: string, tail: string)
    requires NoCrLf(Normalize(kept))
    ensures Normalize(Normalize(kept) + tail + CLOSING) == Normalize(kept + tail + CLOSING)
  {
    hide Normalize, NoCrLf;
    var w := Normalize(kept);
    assert "" + w == w;
    var folded := FoldAcross(kept, tail + CLOSING, "", w);
    assert "" + folded == folded;
    assert kept + tail + CLOSING == kept + (tail + CLOSING) && w + tail + CLOSING == w + (tail + CLOSING);
  }

  /** A cut in a clean text leaves the rest of it clean and the frames as they are. */
  lemma CutKeepsFrames(x: string, t: string, empties: bool)
    requires OnePassClean(x + t, empties) && (empties || t != "")
    ensures OnePassClean(Take(x).rest + t, empties)
    ensures TakeFrom("", [x + t, CLOSING]).frames
         == Take(x).frames + TakeFrom(Take(x).rest, [t, CLOSING]).frames
  {
    BlanksAreStable();
    hide Stable, FindBlank, Drain, Normalize, NoCrLf, Settled;
    var s, rest := Normalize(x), Take(x).rest;
    ConsumedAndRest(s);
    var kept, tail := FoldParts(x, t, Consumed(s), rest);
    NoBlankRest(s);
    PrefixNoBlank(kept, rest);
    ConsumedOfThen(s, kept + tail);
    ConsumedThen(s, kept + tail);
    SplitClean(Consumed(s), Consumed(kept + tail));
    FoldedAgain(kept, tail, empties);
    TwoTaken("", x + t);
    TwoTaken(rest, t);
    assert "" + (x + t) == x + t;
    var first, later := Take(x).frames, Drain(FindBlank, kept + tail);
    assert first + later.frames + Take(later.rest + CLOSING).frames
        == first + (later.frames + Take(later.rest + CLOSING).frames);
  }

  lemma SplitClean(a: string, b: string)
    requires NoCrLf(a + b)
    ensures NoCrLf(b)
  {
    assert forall i :: 0 <= i < |b| ==> (a + b)[|a| + i] == b[i];
  }

  lemma TwoTaken(rest: string, t: string)
    ensures TakeFrom(rest, [t, CLOSING]).frames == ClosedFrames(Normalize(rest + t))
  {
    var first := Take(rest + t);
    assert [t, CLOSING][1..] == [CLOSING] && [CLOSING][1..] == [];
    var last := Take(first.rest + CLOSING);
    assert TakeFrom(first.rest, [CLOSING]).frames == last.frames + [];
    assert last.frames + [] == last.frames;
  }

  // ---- All chunkings of a clean text ----

  lemma {:induction false} CleanFrom(rest: string, texts: seq<string>, empties: bool)
    requires texts != [] && Pieces(texts, Concat(texts), empties) && OnePassClean(rest + Concat(texts), empties)
    ensures TakeFrom(rest, texts + [CLOSING]).frames == TakeFrom(rest, [Concat(texts), CLOSING]).frames
    decreases |texts|
  {
    hide Take, OnePassClean;
    if |texts| == 1 {
      assert texts[..0] == [] && "" + texts[0] == texts[0];
      assert texts + [CLOSING] == [Concat(texts), CLOSING];
    } else {
      var x, more := texts[0], texts[1..];
      assert texts == [x] + more;
      ConcatCons(x, more);
      var t := Concat(more);
      assert rest + (x + t) == (rest + x) + t;
      assert !empties ==> more[|more| - 1] != "" && t != "";
      CutKeepsFrames(rest + x, t, empties);
      CleanFrom(Take(rest + x).rest, more, empties);
      assert (texts + [CLOSING])[0] == x && (texts + [CLOSING])[1..] == more + [CLOSING];
      SameBuffer(rest, x + t);
    }
  }

  /** Reading a text behind a carried rest is reading both at once. */
  lemma SameBuffer(rest: string, t: string)
    ensures TakeFrom(rest, [t, CLOSING]).frames == TakeFrom("", [rest + t, CLOSING]).frames
  {
    TwoTaken(rest, t);
    TwoTaken("", rest + t);
    assert "" + (rest + t) == rest + t;
  }

  lemma YieldedFrom(texts: seq<string>)
    ensures Yielded(texts) == TakeFrom("", texts + [CLOSING]).frames
  {
    TakeAllFrom(texts + [CLOSING]);
  }

  /** Every chunking of a clean text yields the frames of the text in one chunk. */
  lemma CleanYields(texts: seq<string>, text: string, empties: bool)
    requires Pieces(texts, text, empties) && OnePassClean(text, empties)
    ensures Yielded(texts) == Yielded([text])
  {
    hide Take, TakeAll, OnePassClean;
    YieldedFrom(texts);
    YieldedFrom([text]);
    assert [text] + [CLOSING] == [text, CLOSING];
    if texts == [] {
      EmptyYields();
    } else {
      assert "" + text == text;
      CleanFrom("", texts, empties);
    }
  }

  lemma EmptyYields()
    ensures TakeFrom("", [] + [CLOSING]).frames == TakeFrom("", ["", CLOSING]).frames
  {
    TwoTaken("", "");
    NothingTaken();
    assert [] + [CLOSING] == [CLOSING] && [CLOSING][1..] == [];
    assert "" + "" == "" && "" + CLOSING == CLOSING;
    var last := Take("" + CLOSING).frames;
    assert last + [] == last && [] + last == last;
  }

  lemma NothingTaken()
    ensures Stable(FindBlank) && Normalize("") == "" && Drain(FindBlank, "") == Frames([], "")
  {
    BlanksAreStable();
  }
}
