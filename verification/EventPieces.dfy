/** When a text yields the same frames however it is cut into chunks, with empty chunks and without. */
module EventPieces {
  import opened EventCuts
  import opened EventFrames
  import opened EventStream

  // ---- All that was read ----

  lemma {:induction false} SpellAppend(a: seq<string>, b: seq<string>)
    ensures Spell(a + b) == Spell(a) + Spell(b)
  {
    if a == [] {
      assert a + b == b;
    } else {
      SpellAppend(a[1..], b);
      assert (a + b)[1..] == a[1..] + b && (a + b)[0] == a[0];
      assert a[0] + "\n\n" + (Spell(a[1..]) + Spell(b)) == a[0] + "\n\n" + Spell(a[1..]) + Spell(b);
    }
  }

  /** One more chunk: the rest is folded together with it, and nothing else changes. */
  lemma TakenSpells(frames: seq<string>, buffer: string)
    ensures Spell(frames + Take(buffer).frames) + Take(buffer).rest == Spell(frames) + Normalize(buffer)
  {
    BlanksAreStable();
    hide Stable, FindBlank, Drain, Normalize;
    DrainSpells(Normalize(buffer));
    SpellAppend(frames, Take(buffer).frames);
    assert Spell(frames) + (Spell(Take(buffer).frames) + Take(buffer).rest)
        == Spell(frames) + Spell(Take(buffer).frames) + Take(buffer).rest;
  }

  /** The frames with their blank lines, and the rest folded with the closing blank line behind it. */
  ghost function AllRead(texts: seq<string>): string {
    Spell(TakeAll(texts).frames) + Normalize(TakeAll(texts).rest + CLOSING)
  }

  /** What was read is the yielded frames and at most one LF more. */
  lemma AllReadIsYielded(texts: seq<string>)
    ensures AllRead(texts) == Spell(Yielded(texts)) || AllRead(texts) == Spell(Yielded(texts)) + "\n"
  {
    hide Take, TakeAll, Normalize;
    var f := TakeAll(texts);
    TakeSnoc(texts, CLOSING);
    TakenSpells(f.frames, f.rest + CLOSING);
    NothingUnsent(f.rest);
    assert Spell(Yielded(texts)) + "" == Spell(Yielded(texts));
  }

  // ---- Folding keeps the line feeds ----

  function LineFeeds(s: string): nat {
    multiset(s)['\n']
  }

  lemma LineFeedsJoin(a: string, b: string)
    ensures LineFeeds(a + b) == LineFeeds(a) + LineFeeds(b)
  {
    assert multiset(a + b) == multiset(a) + multiset(b);
  }

  lemma {:induction false} FoldingKeepsLineFeeds(s: string)
    ensures LineFeeds(Normalize(s)) == LineFeeds(s)
  {
    if s == "" {
    } else if |s| >= 2 && s[0] == '\r' && s[1] == '\n' {
      assert s == "\r\n" + s[2..] && Normalize(s) == "\n" + Normalize(s[2..]);
      hide Normalize, LineFeeds;
      FoldingKeepsLineFeeds(s[2..]);
      LineFeedsJoin("\r\n", s[2..]);
      LineFeedsJoin("\n", Normalize(s[2..]));
      OneLineFeed();
    } else {
      assert s == [s[0]] + s[1..] && Normalize(s) == [s[0]] + Normalize(s[1..]);
      hide Normalize, LineFeeds;
      FoldingKeepsLineFeeds(s[1..]);
      LineFeedsJoin([s[0]], s[1..]);
      LineFeedsJoin([s[0]], Normalize(s[1..]));
    }
  }

  lemma OneLineFeed()
    ensures LineFeeds("\r\n") == LineFeeds("\n") == 1
  {
    assert multiset("\r\n") == multiset{'\r', '\n'} && multiset("\n") == multiset{'\n'};
  }

  lemma {:induction false} TakenLineFeeds(texts: seq<string>)
    ensures LineFeeds(Spell(TakeAll(texts).frames) + TakeAll(texts).rest) == LineFeeds(Concat(texts))
  {
    if texts != [] {
      var init, text := texts[..|texts| - 1], texts[|texts| - 1];
      TakenLineFeeds(init);
      hide Take, LineFeeds, Normalize;
      var f := TakeAll(init);
      TakenSpells(f.frames, f.rest + text);
      FoldingKeepsLineFeeds(f.rest + text);
      LineFeedsJoin(Spell(f.frames), Normalize(f.rest + text));
      LineFeedsJoin(f.rest, text);
      LineFeedsJoin(Spell(f.frames), f.rest);
      LineFeedsJoin(Concat(init), text);
    }
  }

  /** However a text is cut, all that was read has as many line feeds as the text and its closing. */
  lemma ReadLineFeeds(texts: seq<string>)
    ensures LineFeeds(AllRead(texts)) == LineFeeds(Concat(texts)) + LineFeeds(CLOSING)
  {
    hide TakeAll, LineFeeds, Normalize;
    var f := TakeAll(texts);
    TakenLineFeeds(texts);
    FoldingKeepsLineFeeds(f.rest + CLOSING);
    LineFeedsJoin(f.rest, CLOSING);
    LineFeedsJoin(Spell(f.frames), f.rest);
    LineFeedsJoin(Spell(f.frames), Normalize(f.rest + CLOSING));
  }

  /** So two cuttings of one text that yield the same frames read the same. */
  lemma YieldedTellsRead(a: seq<string>, b: seq<string>)
    requires Concat(a) == Concat(b) && Yielded(a) == Yielded(b)
    ensures AllRead(a) == AllRead(b)
  {
    hide Yielded, AllRead, Concat;
    AllReadIsYielded(a);
    AllReadIsYielded(b);
    ReadLineFeeds(a);
    ReadLineFeeds(b);
    var spelled := Spell(Yielded(a));
    LineFeedsJoin(spelled, "\n");
    assert multiset("\n") == multiset{'\n'};
  }

  // ---- One cut ----

  /** Every cut of the folded text comes from a cut of the text, and not inside a CRLF. */
  lemma CutAt(text: string, n: nat) returns (x: string, y: string)
    requires n <= |Normalize(text)|
    ensures x + y == text && (n > 0 ==> x != "") && (n < |Normalize(text)| ==> y != "")
    ensures Normalize(x) == Normalize(text)[..n] && Normalize(y) == Normalize(text)[n..]
  {
    assert Normalize("") == "";
    hide Normalize;
    x, y := CutBehind(text, n);
  }

  lemma {:induction false} CutBehind(text: string, n: nat) returns (x: string, y: string)
    requires n <= |Normalize(text)|
    ensures x + y == text
    ensures Normalize(x) == Normalize(text)[..n] && Normalize(y) == Normalize(text)[n..]
  {
    if n == 0 {
      x, y := "", text;
    } else if |text| >= 2 && text[0] == '\r' && text[1] == '\n' {
      x, y := CutBehind(text[2..], n - 1);
      NormalizePair(x);
      FrontPart("\n", Normalize(text[2..]), n);
      x := FrontJoined("\r\n", x, y, text);
    } else {
      x, y := CutBehind(text[1..], n - 1);
      assert !Straddles([text[0]], x) by {
        assert x != "" ==> x[0] == (x + y)[0] == text[1];
      }
      NormalizeOther(text[0], x);
      FrontPart([text[0]], Normalize(text[1..]), n);
      x := FrontJoined([text[0]], x, y, text);
    }
  }

  lemma FrontPart(front: string, s: string, n: nat)
    requires |front| == 1 && 1 <= n <= |s| + 1
    ensures (front + s)[..n] == front + s[..n - 1] && (front + s)[n..] == s[n - 1..]
  {
  }

  lemma FrontJoined(front: string, x: string, y: string, text: string) returns (joined: string)
    requires front <= text && x + y == text[|front|..]
    ensures joined == front + x && joined + y == text
  {
    joined := front + x;
    assert text == front + text[|front|..];
  }

  lemma SpelledIsConsumed(text: string)
    ensures Spell(Take(text).frames) == Consumed(Normalize(text))
    ensures Consumed(Normalize(text)) + Take(text).rest == Normalize(text)
    ensures TakeAll([text]) == Take(text)
  {
    BlanksAreStable();
    hide Stable, FindBlank, Drain, Normalize;
    var s := Normalize(text);
    DrainSpells(s);
    ConsumedAndRest(s);
    SameHead(Spell(Take(text).frames), Consumed(s), Take(text).rest);
    assert [text][..0] == [] && "" + text == text && [] + Take(text).frames == Take(text).frames;
  }

  lemma SameHead(a: string, b: string, c: string)
    requires a + c == b + c
    ensures a == b
  {
    assert |a| == |b|;
    assert a == (a + c)[..|a|] && b == (b + c)[..|a|];
  }

  /** What is read of a text in one chunk. */
  lemma ReadWhole(text: string)
    ensures AllRead([text]) == Consumed(Normalize(text)) + Normalize(Take(text).rest + CLOSING)
  {
    hide Take, TakeAll, Normalize;
    SpelledIsConsumed(text);
  }

  /** What is read of a text in two chunks, of which the first ends with an LF. */
  lemma ReadTwo(x: string, y: string)
    requires Take(x).rest != "" && Take(x).rest[|Take(x).rest| - 1] == '\n'
    ensures Concat([x, y]) == x + y
    ensures var rest := Take(x).rest;
      var s := Normalize(rest) + Normalize(y);
      && Normalize(rest + y) == s && Consumed(s) + Take(rest + y).rest == s
      && AllRead([x, y]) == Consumed(Normalize(x)) + Consumed(s) + Normalize(Take(rest + y).rest + CLOSING)
  {
    hide Take, Normalize;
    var rest := Take(x).rest;
    NormalizeAppend(rest, y);
    SpelledIsConsumed(x);
    SpelledIsConsumed(rest + y);
    SpellAppend(Take(x).frames, Take(rest + y).frames);
    assert [x, y][..1] == [x];
    assert Concat([x]) == x by {
      assert "" + x == x && [x][..0] == [];
    }
  }

  predicate EndsBlank(s: string) {
    s != "" ==> |s| >= 2 && s[|s| - 2] == '\n' && s[|s| - 1] == '\n'
  }

  predicate EndsCrLf(s: string) {
    |s| >= 2 && s[|s| - 2] == '\r' && s[|s| - 1] == '\n'
  }

  lemma ConsumedBlank(s: string)
    ensures EndsBlank(Consumed(s))
  {
    ConsumedEndsBlank(s);
  }

  /** A text that ends in a CRLF is not consumed up to it. */
  lemma RestEndsCrLf(consumed: string, rest: string)
    requires EndsBlank(consumed) && EndsCrLf(consumed + rest)
    ensures EndsCrLf(rest) && !NoCrLf(rest)
  {
    var s, n := consumed + rest, |consumed|;
    assert n >= 2 ==> s[n - 1] == consumed[n - 1] && s[n - 2] == consumed[n - 2];
    assert n < |s| - 1;
    assert rest[|rest| - 1] == s[|s| - 1] && rest[|rest| - 2] == s[|s| - 2];
  }

  lemma FoldedJoinShorter(a: string, b: string)
    ensures |Normalize(a + b)| <= |a| + |Normalize(b)|
  {
    assert Normalize("\n") == "\n";
    hide Normalize;
    if Straddles(a, b) {
      var init, tail := a[..|a| - 1], b[1..];
      SplitCrLf(a, b);
      NormalizeAround(init, tail);
      NormalizeExact(init);
      NormalizeAppend("\n", tail);
      assert b == "\n" + tail;
    } else {
      NormalizeAppend(a, b);
      NormalizeExact(a);
    }
  }

  /** Consuming another part of a text, no carried blank line: closing it makes up for one LF at most. */
  lemma ClosedNoLonger(head: string, rest: string, a: string, rest': string)
    requires a + rest' == head + rest && EndsBlank(a) && NoBlank(rest)
    requires head != "" && head[|head| - 1] == '\n'
    ensures |a| + |Normalize(rest' + CLOSING)| <= |head| + |Normalize(rest + CLOSING)|
  {
    assert Normalize("\n") == "\n";
    hide Normalize, EndsBlank, NoBlank;
    if |rest'| >= |rest| {
      var d := Between(head, rest, a, rest');
      assert rest' + CLOSING == d + (rest + CLOSING);
      FoldedJoinShorter(d, rest + CLOSING);
    } else {
      BreakAtJoin(head, rest, a, rest');
      assert rest + CLOSING == "\n" + (rest' + CLOSING);
      NormalizeAppend("\n", rest' + CLOSING);
    }
  }

  lemma Between(head: string, rest: string, a: string, rest': string) returns (d: string)
    requires a + rest' == head + rest && |rest'| >= |rest|
    ensures rest' == d + rest && |a| + |d| == |head|
  {
    var all := head + rest;
    d := rest'[..|rest'| - |rest|];
    assert all[|a|..] == rest' && all[|head|..] == rest;
    assert rest'[|rest'| - |rest|..] == all[|all| - |rest|..];
  }

  /** A blank line that ends in a text without blank lines takes one LF of it. */
  lemma BreakAtJoin(head: string, rest: string, a: string, rest': string)
    requires head != "" && NoBlank(rest) && a + rest' == head + rest && |rest'| < |rest| && EndsBlank(a)
    ensures rest == "\n" + rest' && |a| == |head| + 1
  {
    var all, k := head + rest, |a| - |head|;
    assert all[|a| - 1] == a[|a| - 1] && all[|a| - 2] == a[|a| - 2];
    assert forall i :: 0 <= i < |rest| ==> rest[i] == all[|head| + i];
    AtMostOne(rest, k);
    assert rest' == all[|a|..] && rest[1..] == all[|head| + 1..];
  }

  lemma AtMostOne(rest: string, k: nat)
    requires NoBlank(rest) && k <= |rest|
    requires k >= 2 ==> rest[k - 1] == '\n' && rest[k - 2] == '\n'
    ensures k < 2
  {
    assert forall i :: 1 <= i < |rest| ==> !(rest[i - 1] == '\n' && rest[i] == '\n');
  }

  /** A CR CR LF in the carried rest, with a cut behind it: its CRLF is folded once more than without. */
  lemma ShorterInRest(r: string, tail: string, a: string, rest': string)
    requires EndsCrCrLf(r) && NoBlank(r + tail)
    requires a + rest' == Normalize(r) + tail && a == Consumed(Normalize(r) + tail)
    ensures |a| + |Normalize(rest' + CLOSING)| < |Normalize(r + tail + CLOSING)|
  {
    var w := Normalize(r);
    FoldedPair(r);
    NormalizeLast(r);
    JoinBlank(r, w, tail);
    hide Normalize, NoCrLf, Consumed, EndsBlank, EndsCrLf, NoBlank;
    ConsumedWithin(w, tail);
    ConsumedBlank(w + tail);
    var b := w[|a|..];
    assert a + b == w;
    SplitBehind(a, b, tail, rest');
    FoldedMore(r, a, b, tail);
  }

  lemma SplitBehind(a: string, b: string, tail: string, rest': string)
    requires a + rest' == (a + b) + tail
    ensures rest' == b + tail
  {
    assert rest' == (a + rest')[|a|..] && b + tail == ((a + b) + tail)[|a|..];
  }

  lemma FoldedMore(r: string, a: string, b: string, tail: string)
    requires Normalize(r) == a + b && EndsCrCrLf(r) && EndsBlank(a) && EndsCrLf(a + b)
    ensures |a| + |Normalize(b + tail + CLOSING)| < |Normalize(r + tail + CLOSING)|
  {
    hide Normalize, NoCrLf, EndsBlank;
    RestEndsCrLf(a, b);
    NormalizeExact(b);
    var closed := tail + CLOSING;
    assert r + tail + CLOSING == r + closed && b + tail + CLOSING == b + closed;
    NormalizeAppend(r, closed);
    NormalizeAppend(b, closed);
  }

  predicate EndsCrCrLf(s: string) {
    |s| >= 3 && s[|s| - 3] == '\r' && s[|s| - 2] == '\r' && s[|s| - 1] == '\n'
  }

  lemma FoldedPair(r: string)
    requires EndsCrCrLf(r)
    ensures EndsCrLf(Normalize(r))
  {
    assert Normalize("") == "";
    hide Normalize;
    var init := r[..|r| - 2];
    assert r == init + "\r\n" + "";
    NormalizeAround(init, "");
    NormalizeLast(init);
  }

  // ---- A cut that shows ----

  /** A CRLF inside the frames of a text in one chunk: a cut behind it makes less of the text. */
  lemma FrameCut(text: string, j: nat) returns (x: string, y: string)
    requires var consumed := Consumed(Normalize(text));
      1 <= j < |consumed| && consumed[j - 1] == '\r' && consumed[j] == '\n'
    ensures x + y == text && x != "" && y != "" && |AllRead([x, y])| < |AllRead([text])|
  {
    hide Take, Normalize, NoCrLf, Consumed, AllRead, EndsBlank, EndsCrLf;
    var s, consumed, rest := Normalize(text), Consumed(Normalize(text)), Take(text).rest;
    SpelledIsConsumed(text);
    ConsumedBlank(s);
    CutInHead(s, consumed, rest, j);
    x, y := CutAt(text, j + 1);
    CutShortens(text, x, y, consumed[j + 1..], rest);
  }

  lemma CutInHead(s: string, consumed: string, rest: string, j: nat)
    requires s == consumed + rest && 1 <= j < |consumed| && consumed[j - 1] == '\r' && consumed[j] == '\n'
    requires EndsBlank(consumed)
    ensures s[j + 1..] == consumed[j + 1..] + rest
    ensures s[..j + 1] + consumed[j + 1..] == consumed
    ensures var c := consumed[j + 1..]; c != "" && c[|c| - 1] == '\n'
    ensures EndsCrLf(s[..j + 1])
  {
    assert j != |consumed| - 1;
  }

  lemma CutShortens(text: string, x: string, y: string, c: string, rest: string)
    requires EndsCrLf(Normalize(x)) && Normalize(y) == c + rest && c != "" && c[|c| - 1] == '\n'
    requires Consumed(Normalize(text)) == Normalize(x) + c && Take(text).rest == rest
    ensures |AllRead([x, y])| < |AllRead([text])|
  {
    hide Take, Normalize, NoCrLf, Consumed, AllRead;
    var k, r := Consumed(Normalize(x)), Take(x).rest;
    var w := Normalize(r);
    SpelledIsConsumed(x);
    ConsumedBlank(Normalize(x));
    RestEndsCrLf(k, r);
    NormalizeExact(r);
    ReadTwo(x, y);
    ReadWhole(text);
    CarriedNoBlank(text);
    ConsumedBlank(w + (c + rest));
    hide EndsBlank, NoBlank;
    assert w + (c + rest) == (w + c) + rest;
    ClosedNoLonger(w + c, rest, Consumed(w + (c + rest)), Take(r + y).rest);
  }

  lemma CarriedNoBlank(text: string)
    ensures NoBlank(Take(text).rest)
  {
    BlanksAreStable();
    NoBlankRest(Normalize(text));
  }

  /** A text up to a place in its carried rest consumes the same. */
  lemma CutInRest(s: string, consumed: string, rest: string, n: nat)
    requires s == consumed + rest && consumed == Consumed(s) && NoBlank(rest) && n <= |rest|
    ensures s[..|consumed| + n] == consumed + rest[..n] && s[|consumed| + n..] == rest[n..]
    ensures Consumed(consumed + rest[..n]) == consumed
  {
    hide FindBlank;
    PrefixNoBlank(rest[..n], rest);
    NoBlankExact(rest[..n]);
    ConsumedOfThen(s, rest[..n]);
    assert consumed + "" == consumed;
  }

  /** A CR CR LF in the carried rest of a text in one chunk: the same. */
  lemma RestCut(text: string, i: nat) returns (x: string, y: string)
    requires var rest := Take(text).rest;
      2 <= i < |rest| && rest[i - 2] == '\r' && rest[i - 1] == '\r' && rest[i] == '\n'
    ensures x + y == text && x != "" && (i + 1 < |Take(text).rest| ==> y != "")
    ensures |AllRead([x, y])| < |AllRead([text])|
  {
    CarriedNoBlank(text);
    hide Take, Normalize, NoBlank, Consumed, AllRead;
    var s, consumed, rest := Normalize(text), Consumed(Normalize(text)), Take(text).rest;
    SpelledIsConsumed(text);
    CutInRest(s, consumed, rest, i + 1);
    CutBehindPair(rest, i);
    hide EndsCrCrLf;
    x, y := CutAt(text, |consumed| + (i + 1));
    CarriedAgain(text, x, y, rest[..i + 1], rest[i + 1..]);
  }

  lemma CutBehindPair(rest: string, i: nat)
    requires 2 <= i < |rest| && rest[i - 2] == '\r' && rest[i - 1] == '\r' && rest[i] == '\n'
    ensures rest == rest[..i + 1] + rest[i + 1..] && EndsCrCrLf(rest[..i + 1])
  {
  }

  lemma CarriedAgain(text: string, x: string, y: string, r: string, tail: string)
    requires Take(text).rest == r + tail && EndsCrCrLf(r) && Normalize(y) == tail
    requires Normalize(x) == Consumed(Normalize(text)) + r && Consumed(Normalize(x)) == Consumed(Normalize(text))
    ensures |AllRead([x, y])| < |AllRead([text])|
  {
    CarriedNoBlank(text);
    hide Take, Normalize, NoBlank, Consumed, AllRead;
    SpelledIsConsumed(x);
    var consumed := Consumed(Normalize(text));
    SameTail(consumed, r, Take(x).rest);
    ReadTwo(x, y);
    ReadWhole(text);
    ShorterInRest(r, tail, Consumed(Normalize(r) + tail), Take(r + y).rest);
  }

  lemma SameTail(head: string, a: string, b: string)
    requires head + a == head + b
    ensures a == b
  {
    assert a == (head + a)[|head|..] && b == (head + b)[|head|..];
  }

  /** A text that is not clean yields other frames when it is cut once, in the right place. */
  lemma DirtyCut(text: string, empties: bool) returns (x: string, y: string)
    requires !OnePassClean(text, empties)
    ensures Pieces([x, y], text, empties) && Yielded([x, y]) != Yielded([text])
  {
    hide Take, Normalize, Consumed, AllRead, Yielded;
    var consumed, rest := Consumed(Normalize(text)), Take(text).rest;
    if !NoCrLf(consumed) {
      var j :| 1 <= j < |consumed| && consumed[j - 1] == '\r' && consumed[j] == '\n';
      x, y := FrameCut(text, j);
    } else {
      var i :| 2 <= i < |rest| && (empties || i + 1 < |rest|)
        && rest[i - 2] == '\r' && rest[i - 1] == '\r' && rest[i] == '\n';
      x, y := RestCut(text, i);
    }
    JoinTwo(x, y);
    if Yielded([x, y]) == Yielded([text]) {
      YieldedTellsRead([x, y], [text]);
    }
  }

  lemma JoinTwo(x: string, y: string)
    ensures Concat([x, y]) == x + y && Concat([x + y]) == x + y
  {
    assert Concat([x]) == x by {
      assert "" + x == x && [x][..0] == [];
    }
    assert [x, y][..1] == [x] && [x + y][..0] == [] && "" + (x + y) == x + y;
  }

  // ---- When the cuts matter ----

  /**
   * The frames that a response yields are the same for every way of cutting its text into chunks
   * exactly when the text is clean in one pass; and if they are not, one cut is enough to show it.
   * Both hold with empty chunks and without, each with its own condition.
   */
  lemma YieldExact(text: string, empties: bool)
    ensures (forall texts :: Pieces(texts, text, empties) ==> Yielded(texts) == Yielded([text]))
       <==> OnePassClean(text, empties)
    ensures (forall x, y :: Pieces([x, y], text, empties) ==> Yielded([x, y]) == Yielded([text]))
       <==> OnePassClean(text, empties)
  {
    hide Yielded, OnePassClean, Pieces;
    if OnePassClean(text, empties) {
      forall texts | Pieces(texts, text, empties) ensures Yielded(texts) == Yielded([text]) {
        CleanYields(texts, text, empties);
      }
    } else {
      var x, y := DirtyCut(text, empties);
    }
  }

  /** A text without CR CR LF is clean, for chunks of any kind; so is one whose every CR is followed by an LF. */
  lemma CleanWithoutCrCrLf(text: string, empties: bool)
    requires NoCrCrLf(text)
    ensures OnePassClean(text, empties)
  {
    BlanksAreStable();
    FoldingIsClean(text);
    hide Stable, FindBlank, Drain, Normalize;
    var s := Normalize(text);
    ConsumedAndRest(s);
    PrefixNoCrLf(Consumed(s), s);
    SplitClean(Consumed(s), Take(text).rest);
  }

  /** CR CR CR LF: no cut into non-empty chunks shows, an empty chunk at the end does. */
  lemma EmptyChunkShows()
    ensures forall texts :: Pieces(texts, "\r\r\r\n", false) ==> Yielded(texts) == Yielded(["\r\r\r\n"])
    ensures exists texts :: Pieces(texts, "\r\r\r\n", true) && Yielded(texts) != Yielded(["\r\r\r\n"])
  {
    var text := "\r\r\r\n";
    ThreeCrs();
    hide Yielded, Pieces, Take, Normalize, Consumed;
    var rest := Take(text).rest;
    assert rest[2 - 2] == '\r' && rest[2 - 1] == '\r' && rest[2] == '\n';
    assert !Settled(rest, true);
    YieldExact(text, false);
    var x, y := DirtyCut(text, true);
    assert Pieces([x, y], text, true);
  }

  lemma ThreeCrs()
    ensures Consumed(Normalize("\r\r\r\n")) == "" && Take("\r\r\r\n").rest == "\r\r\n"
  {
    FoldedThree();
    hide Normalize;
    BlanksAreStable();
    NoBlankExact("\r\r\n");
    hide FindBlank, Stable;
    DrainStep(FindBlank, "\r\r\n");
  }

  lemma FoldedThree()
    ensures Normalize("\r\r\r\n") == "\r\r\n"
  {
    NormalizeExact("\r\r");
    assert Normalize("") == "";
    hide Normalize;
    NormalizeAround("\r\r", "");
    assert "\r\r" + "\r\n" + "" == "\r\r\r\n" && "\r\r" + "\n" + "" == "\r\r\n";
  }
}
