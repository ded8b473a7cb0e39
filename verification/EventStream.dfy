/** The agent-to-agent event stream: CRLF is folded to LF chunk by chunk, and a blank line ends a frame. */
module EventStream {
  import opened Wrappers
  import opened EventFrames

  const INVALID := "Invalid A2A event stream."
  const FAILED := "A2A request failed."
  const LIMIT := "A2A response exceeded byte limit."

  /** `replace(/\r\n/g, "\n")`. */
  function Normalize(s: string): string {
    if s == "" then ""
    else if |s| >= 2 && s[0] == '\r' && s[1] == '\n' then "\n" + Normalize(s[2..])
    else [s[0]] + Normalize(s[1..])
  }

  /** The first blank line. */
  function FindBlank(s: string): Option<Cut> {
    if |s| < 2 then None
    else if s[0] == '\n' && s[1] == '\n' then Some(Cut(0, 2))
    else match FindBlank(s[1..])
      case None => None
      case Some(cut) => Some(Cut(cut.index + 1, 2))
  }

  /** What the finder promises: a blank line, and none that starts earlier. */
  lemma {:induction false} FindBlankExact(s: string)
    ensures FindBlank(s).Some? ==>
      var cut := FindBlank(s).value; cut.length == 2 && cut.index + 2 <= |s| && s[cut.index] == s[cut.index + 1] == '\n'
    ensures forall i :: 1 <= i < |s| && s[i - 1] == '\n' && s[i] == '\n' ==>
        FindBlank(s).Some? && FindBlank(s).value.index < i
  {
    if |s| >= 2 && !(s[0] == '\n' && s[1] == '\n') {
      FindBlankExact(s[1..]);
      forall i | 1 <= i < |s| && s[i - 1] == '\n' && s[i] == '\n'
        ensures FindBlank(s).Some? && FindBlank(s).value.index < i
      {
        assert s[1..][i - 1] == '\n' && s[1..][i - 2] == '\n';
      }
    }
  }

  /** The text behind the break plays no part in finding it. */
  lemma {:induction false} FindBlankLocal(s: string, t: string)
    requires FindBlank(s).Some?
    ensures FindBlank(s).value.index + 2 <= |s|
    ensures FindBlank(s[..FindBlank(s).value.index + 2] + t) == FindBlank(s)
  {
    if !(s[0] == '\n' && s[1] == '\n') {
      FindBlankLocal(s[1..], t);
      var n := FindBlank(s).value.index + 2;
      assert (s[..n] + t)[1..] == s[1..][..n - 1] + t;
    }
  }

  lemma FindBlankGrows(s: string, t: string)
    requires FindBlank(s).Some?
    ensures FindBlank(s + t) == FindBlank(s)
  {
    hide FindBlank;
    FindBlankLocal(s, "");
    var n := FindBlank(s).value.index + 2;
    FindBlankLocal(s, s[n..] + t);
    assert s[..n] + (s[n..] + t) == s + t;
  }

  lemma BlanksAreStable()
    ensures Stable(FindBlank)
  {
    hide FindBlank;
    forall s ensures FindBlank(s).Some? ==>
      0 < FindBlank(s).value.length && FindBlank(s).value.index + FindBlank(s).value.length <= |s|
    {
      FindBlankExact(s);
    }
    forall s, t | FindBlank(s).Some? ensures FindBlank(s + t) == FindBlank(s) {
      FindBlankGrows(s, t);
    }
  }

  // ---- Folding CRLF ----

  ghost predicate NoCrLf(s: string) {
    forall i :: 1 <= i < |s| ==> !(s[i - 1] == '\r' && s[i] == '\n')
  }

  /** No CR CR LF. */
  ghost predicate NoCrCrLf(s: string) {
    forall i :: 2 <= i < |s| ==> !(s[i - 2] == '\r' && s[i - 1] == '\r' && s[i] == '\n')
  }

  /** A CR that ends the first text and an LF that starts the second. */
  predicate Straddles(x: string, y: string) {
    x != "" && y != "" && x[|x| - 1] == '\r' && y[0] == '\n'
  }

  lemma NormalizePair(s: string)
    ensures Normalize("\r\n" + s) == "\n" + Normalize(s)
  {
    assert ("\r\n" + s)[2..] == s;
  }

  lemma NormalizeOther(c: char, s: string)
    requires !Straddles([c], s)
    ensures Normalize([c] + s) == [c] + Normalize(s)
  {
    assert ([c] + s)[1..] == s;
  }

  /** A cut that is not inside a CRLF commutes with folding. */
  lemma {:induction false} NormalizeAppend(x: string, y: string)
    requires !Straddles(x, y)
    ensures Normalize(x + y) == Normalize(x) + Normalize(y)
    decreases |x|
  {
    assert Normalize("") == "";
    hide Normalize;
    if x == "" {
      assert x + y == y;
    } else if |x| >= 2 && x[0] == '\r' && x[1] == '\n' {
      var rest := x[2..];
      assert x == "\r\n" + rest && x + y == "\r\n" + (rest + y);
      NormalizePair(rest);
      NormalizePair(rest + y);
      NormalizeAppend(rest, y);
    } else {
      var rest := x[1..];
      assert x == [x[0]] + rest && x + y == [x[0]] + (rest + y);
      NormalizeOther(x[0], rest);
      NormalizeOther(x[0], rest + y);
      NormalizeAppend(rest, y);
    }
  }

  lemma NormalizeAround(x: string, y: string)
    ensures Normalize(x + "\r\n" + y) == Normalize(x) + "\n" + Normalize(y)
  {
    hide Normalize;
    var tail := "\r\n" + y;
    NormalizeAppend(x, tail);
    NormalizePair(y);
    assert x + "\r\n" + y == x + tail;
  }

  /** Folding changes exactly the texts that hold a CRLF, and makes those shorter. */
  lemma {:induction false} NormalizeExact(s: string)
    ensures |Normalize(s)| <= |s|
    ensures NoCrLf(s) ==> Normalize(s) == s
    ensures !NoCrLf(s) ==> |Normalize(s)| < |s|
  {
    if s == "" {
    } else if |s| >= 2 && s[0] == '\r' && s[1] == '\n' {
      NormalizeExact(s[2..]);
    } else {
      NormalizeExact(s[1..]);
      NoCrLfTail(s);
      assert s == [s[0]] + s[1..];
    }
  }

  lemma NoCrLfTail(s: string)
    requires s != "" && !(|s| >= 2 && s[0] == '\r' && s[1] == '\n')
    ensures NoCrLf(s) <==> NoCrLf(s[1..])
  {
    var tail := s[1..];
    assert forall i :: 1 <= i < |tail| ==> tail[i] == s[i + 1] && tail[i - 1] == s[i];
    if !NoCrLf(s) {
      var i :| 1 <= i < |s| && s[i - 1] == '\r' && s[i] == '\n';
      assert tail[i - 2] == s[i - 1] && tail[i - 1] == s[i];
    }
  }

  lemma NormalizeLast(s: string)
    requires s != ""
    ensures Normalize(s) != "" && Normalize(s)[|Normalize(s)| - 1] == s[|s| - 1]
  {
    assert Normalize("") == "" && Normalize([s[|s| - 1]]) == [s[|s| - 1]];
    hide Normalize;
    var x, y := s[..|s| - 1], [s[|s| - 1]];
    assert s == x + y;
    if Straddles(x, y) {
      NormalizeAround(x[..|x| - 1], "");
      assert s == x[..|x| - 1] + "\r\n" + "";
    } else {
      NormalizeAppend(x, y);
    }
  }

  // ---- What is consumed, and what is carried ----

  /** The complete frames of a buffer after folding, and the carried rest. */
  ghost function Take(buffer: string): Frames {
    BlanksAreStable();
    Drain(FindBlank, Normalize(buffer))
  }

  /** The part of the text that its complete frames took. */
  ghost function Consumed(s: string): string
    decreases |s|
  {
    match FindBlank(s)
    case None => ""
    case Some(cut) =>
      FindBlankLocal(s, "");
      s[..cut.index + 2] + Consumed(s[cut.index + 2..])
  }

  /** The text is what was consumed and then the rest; what was consumed ends with an LF. */
  lemma {:induction false} ConsumedAndRest(s: string)
    requires Stable(FindBlank)
    ensures s == Consumed(s) + Drain(FindBlank, s).rest
    ensures Consumed(s) != "" ==> Consumed(s)[|Consumed(s)| - 1] == '\n'
    decreases |s|
  {
    hide Stable, FindBlank, Drain;
    DrainStep(FindBlank, s);
    if FindBlank(s).Some? {
      FindBlankLocal(s, "");
      var n := FindBlank(s).value.index + 2;
      FindBlankEnds(s);
      ConsumedAndRest(s[n..]);
    }
  }

  lemma FindBlankEnds(s: string)
    requires FindBlank(s).Some?
    ensures var cut := FindBlank(s).value; cut.length == 2 && cut.index + 2 <= |s| && s[cut.index + 1] == '\n'
  {
    hide FindBlank;
    FindBlankExact(s);
  }

  /** What was consumed gives the same frames whatever text comes behind it. */
  lemma {:induction false} ConsumedThen(s: string, t: string)
    requires Stable(FindBlank)
    ensures Drain(FindBlank, Consumed(s) + t)
         == Frames(Drain(FindBlank, s).frames + Drain(FindBlank, t).frames, Drain(FindBlank, t).rest)
    decreases |s|
  {
    hide Stable, FindBlank, Drain;
    DrainStep(FindBlank, s);
    if FindBlank(s).None? {
      assert "" + t == t;
      assert [] + Drain(FindBlank, t).frames == Drain(FindBlank, t).frames;
    } else {
      FindBlankLocal(s, "");
      FindBlankEnds(s);
      var i := FindBlank(s).value.index;
      var n := i + 2;
      var head, later := s[..n], Consumed(s[n..]) + t;
      FindBlankLocal(s, later);
      assert head + Consumed(s[n..]) + t == head + later;
      DrainStep(FindBlank, head + later);
      Sliced(s, i, n, later);
      ConsumedThen(s[n..], t);
      ConsAppend(s[..i], Drain(FindBlank, s[n..]).frames, Drain(FindBlank, t).frames);
    }
  }

  lemma Sliced(s: string, i: nat, n: nat, later: string)
    requires i <= n <= |s|
    ensures (s[..n] + later)[..i] == s[..i] && (s[..n] + later)[n..] == later
  {
  }

  /** Frames, each with its blank line behind it. */
  function Spell(frames: seq<string>): string {
    if frames == [] then "" else frames[0] + "\n\n" + Spell(frames[1..])
  }

  /** The frames and the rest spell the text, so two texts with equal frames and rest are equal. */
  lemma {:induction false} DrainSpells(s: string)
    requires Stable(FindBlank)
    ensures s == Spell(Drain(FindBlank, s).frames) + Drain(FindBlank, s).rest
    decreases |s|
  {
    hide Stable, FindBlank, Drain;
    DrainStep(FindBlank, s);
    if FindBlank(s).Some? {
      FindBlankExact(s);
      var i := FindBlank(s).value.index;
      DrainSpells(s[i + 2..]);
      var frames := Drain(FindBlank, s).frames;
      assert frames[1..] == Drain(FindBlank, s[i + 2..]).frames;
      assert s[i..i + 2] == "\n\n";
      Spelled(s, i, i + 2, Spell(frames[1..]), Drain(FindBlank, s).rest);
    }
  }

  // ---- A cut between two chunks ----

  /** The frames of a text that arrives as two chunks. */
  ghost function TakeTwice(x: string, y: string): Frames {
    var first := Take(x);
    var second := Take(first.rest + y);
    Frames(first.frames + second.frames, second.rest)
  }

  /** Folding across a cut: behind what was consumed stands the folded rest, or a longer text. */
  lemma FoldAcross(x: string, y: string, consumed: string, rest: string) returns (tail: string)
    requires Normalize(x) == consumed + rest
    requires consumed != "" ==> consumed[|consumed| - 1] == '\n'
    ensures Normalize(x + y) == consumed + tail
    ensures NoCrLf(rest) ==> tail == Normalize(rest + y)
    ensures !NoCrLf(rest) ==> |Normalize(rest + y)| < |tail|
  {
    hide Normalize, NoCrLf;
    RestEnds(x, y, consumed, rest);
    if Straddles(x, y) {
      tail := FoldAcrossCrLf(x, y, consumed, rest);
    } else {
      hide Straddles;
      NormalizeAppend(x, y);
      NormalizeAppend(rest, y);
      NormalizeExact(rest);
      tail := rest + Normalize(y);
      assert consumed + rest + Normalize(y) == consumed + tail;
    }
  }

  /** The rest ends the way the text does. */
  lemma RestEnds(x: string, y: string, consumed: string, rest: string)
    requires Normalize(x) == consumed + rest
    requires consumed != "" ==> consumed[|consumed| - 1] == '\n'
    ensures Straddles(x, y) <==> Straddles(rest, y)
  {
    assert Normalize("") == "";
    hide Normalize;
    if x != "" {
      NormalizeLast(x);
      assert rest != "" ==> (consumed + rest)[|consumed + rest| - 1] == rest[|rest| - 1];
      assert rest == "" ==> consumed + rest == consumed;
    }
  }

  lemma FoldAcrossCrLf(x: string, y: string, consumed: string, rest: string) returns (tail: string)
    requires Normalize(x) == consumed + rest && Straddles(x, y)
    requires consumed != "" ==> consumed[|consumed| - 1] == '\n'
    ensures Normalize(x + y) == consumed + tail
    ensures NoCrLf(rest) ==> tail == Normalize(rest + y)
    ensures !NoCrLf(rest) ==> |Normalize(rest + y)| < |tail|
  {
    assert Normalize("\r") == "\r";
    hide Normalize, NoCrLf;
    NormalizeLast(x);
    var x', y', rest' := x[..|x| - 1], y[1..], rest[..|rest| - 1];
    NormalizeAppend(x', "\r");
    SplitCrLf(x, y);
    SplitCrLf(rest, y);
    assert Normalize(x') == consumed + rest' by {
      DropLast(consumed, rest);
      assert (Normalize(x') + "\r")[..|Normalize(x')|] == Normalize(x');
    }
    NormalizeAround(x', y');
    NormalizeAround(rest', y');
    NormalizeExact(rest');
    NoCrLfInit(rest);
    tail := rest' + "\n" + Normalize(y');
    Regroup(consumed, rest', "\n", Normalize(y'));
  }

  lemma SplitCrLf(x: string, y: string)
    requires Straddles(x, y)
    ensures x == x[..|x| - 1] + "\r"
    ensures x + y == x[..|x| - 1] + "\r\n" + y[1..]
  {
  }

  lemma DropLast(a: string, b: string)
    requires b != ""
    ensures (a + b)[..|a + b| - 1] == a + b[..|b| - 1]
  {
  }

  lemma Regroup(a: string, b: string, c: string, d: string)
    ensures a + b + c + d == a + (b + c + d)
  {
  }

  lemma NoCrLfInit(s: string)
    requires s != "" && s[|s| - 1] == '\r'
    ensures NoCrLf(s) <==> NoCrLf(s[..|s| - 1])
  {
    var init := s[..|s| - 1];
    assert forall i :: 0 <= i < |init| ==> init[i] == s[i];
  }

  /**
   * A cut is harmless exactly when the carried rest holds no CRLF: the text in one chunk and the
   * text in two have the same frames and the same rest.
   */
  lemma CutExact(x: string, y: string)
    ensures Take(x + y) == TakeTwice(x, y) <==> NoCrLf(Take(x).rest)
  {
    BlanksAreStable();
    hide Stable, FindBlank, Drain, Normalize, NoCrLf;
    var first := Take(x);
    ConsumedAndRest(Normalize(x));
    var tail := FoldAcross(x, y, Consumed(Normalize(x)), first.rest);
    ConsumedThen(Normalize(x), tail);
    var again := Normalize(first.rest + y);
    if !NoCrLf(first.rest) && Take(x + y) == TakeTwice(x, y) {
      SameSuffix(first.frames, Drain(FindBlank, tail).frames, Drain(FindBlank, again).frames);
      DrainSpells(tail);
      DrainSpells(again);
    }
  }

  lemma SameSuffix(a: seq<string>, b: seq<string>, c: seq<string>)
    requires a + b == a + c
    ensures b == c
  {
    assert b == (a + b)[|a|..] && c == (a + c)[|a|..];
  }

  /** The carried rest never holds a blank line. */
  lemma RestUnbroken(x: string)
    ensures forall i :: 1 <= i < |Take(x).rest| ==> !(Take(x).rest[i - 1] == '\n' && Take(x).rest[i] == '\n')
  {
    BlanksAreStable();
    hide Stable, FindBlank, Drain, Normalize;
    FramesHoldNoCut(FindBlank, Normalize(x));
    FindBlankExact(Take(x).rest);
  }

  // ---- Any number of chunks ----

  /** The frames and the carried rest after a list of chunks, taken one at a time. */
  ghost function TakeAll(texts: seq<string>): Frames {
    if texts == [] then Frames([], "")
    else
      var before := TakeAll(texts[..|texts| - 1]);
      var last := Take(before.rest + texts[|texts| - 1]);
      Frames(before.frames + last.frames, last.rest)
  }

  lemma TakeSnoc(texts: seq<string>, text: string)
    ensures var last := Take(TakeAll(texts).rest + text);
      TakeAll(texts + [text]) == Frames(TakeAll(texts).frames + last.frames, last.rest)
  {
    assert (texts + [text])[..|texts|] == texts;
  }

  lemma ConcatSnoc(texts: seq<string>, text: string)
    ensures Concat(texts + [text]) == Concat(texts) + text
  {
    assert (texts + [text])[..|texts|] == texts;
  }

  /** Without CR CR LF, folding leaves no CRLF behind. */
  lemma {:induction false} FoldingIsClean(s: string)
    requires NoCrCrLf(s)
    ensures NoCrLf(Normalize(s))
    ensures s != "" && s[0] != '\n' && !(|s| >= 2 && s[0] == '\r' && s[1] == '\n') ==> Normalize(s)[0] == s[0]
    ensures Normalize(s) != "" && Normalize(s)[0] == '\n' ==> s[0] == '\n' || (|s| >= 2 && s[0] == '\r' && s[1] == '\n')
  {
    if s == "" {
    } else if |s| >= 2 && s[0] == '\r' && s[1] == '\n' {
      NoCrCrLfTail(s, 2);
      FoldingIsClean(s[2..]);
      NoCrLfCons('\n', Normalize(s[2..]));
    } else {
      NoCrCrLfTail(s, 1);
      FoldingIsClean(s[1..]);
      NoCrLfCons(s[0], Normalize(s[1..]));
    }
  }

  lemma NoCrCrLfTail(s: string, n: nat)
    requires NoCrCrLf(s) && n <= |s|
    ensures NoCrCrLf(s[n..])
    ensures n == 1 && |s| >= 3 && s[0] == '\r' && s[1] == '\r' ==> s[2] != '\n'
  {
  }

  lemma NoCrLfCons(c: char, s: string)
    requires NoCrLf(s) && !Straddles([c], s)
    ensures NoCrLf([c] + s)
  {
    var t := [c] + s;
    assert forall i :: 0 <= i < |s| ==> t[i + 1] == s[i];
  }

  /** So the carried rest holds none either. */
  lemma CleanRest(x: string)
    requires NoCrCrLf(x)
    ensures NoCrLf(Take(x).rest)
  {
    BlanksAreStable();
    hide Stable, FindBlank, Drain, Normalize;
    FoldingIsClean(x);
    ConsumedAndRest(Normalize(x));
    var consumed, rest := Consumed(Normalize(x)), Take(x).rest;
    assert forall i :: 0 <= i < |rest| ==> rest[i] == (consumed + rest)[|consumed| + i];
  }

  /** Whatever the chunks, the frames are those of the whole text. */
  lemma {:induction false} ChunksTakeWhole(texts: seq<string>)
    requires NoCrCrLf(Concat(texts))
    ensures TakeAll(texts) == Take(Concat(texts))
    decreases |texts|
  {
    if texts == [] {
    } else {
      var init, text := texts[..|texts| - 1], texts[|texts| - 1];
      assert texts == init + [text];
      hide Take, TakeAll, Concat, NoCrCrLf, NoCrLf;
      ConcatSnoc(init, text);
      TakeSnoc(init, text);
      CleanPrefix(Concat(init), text);
      ChunksTakeWhole(init);
      CleanRest(Concat(init));
      CutExact(Concat(init), text);
    }
  }

  lemma CleanPrefix(x: string, y: string)
    requires NoCrCrLf(x + y)
    ensures NoCrCrLf(x)
  {
    assert forall i :: 0 <= i < |x| ==> x[i] == (x + y)[i];
  }

  lemma {:induction false} ConsumedEndsBlank(s: string)
    ensures Consumed(s) != "" ==>
      |Consumed(s)| >= 2 && Consumed(s)[|Consumed(s)| - 1] == '\n' && Consumed(s)[|Consumed(s)| - 2] == '\n'
    decreases |s|
  {
    hide FindBlank;
    if FindBlank(s).Some? {
      FindBlankExact(s);
      ConsumedEndsBlank(s[FindBlank(s).value.index + 2..]);
    }
  }

  // ---- The reader ----

  function Data(raw: string): string {
    JoinLines(DataOf(Lines(raw), TrimStart))
  }

  /** `split("\n")`. */
  function Lines(s: string): (lines: seq<string>)
    ensures |lines| >= 1
  {
    if s == "" then [""]
    else if s[0] == '\n' then [""] + Lines(s[1..])
    else
      var lines := Lines(s[1..]);
      [[s[0]] + lines[0]] + lines[1..]
  }

  /** A chunk of the response: its decoded text, unless its bytes are not UTF-8, and its size. */
  datatype Chunk = Chunk(text: Option<string>, bytes: nat)

  function Bytes(chunks: seq<Chunk>): nat {
    if chunks == [] then 0 else Bytes(chunks[..|chunks| - 1]) + chunks[|chunks| - 1].bytes
  }

  /** How many chunks are taken: all those before the first that is not UTF-8 or passes the limit. */
  function AcceptedCount(chunks: seq<Chunk>, maxBytes: nat): (k: nat)
    ensures k <= |chunks|
    ensures forall i :: 0 <= i < k ==> chunks[i].text.Some?
    ensures Bytes(chunks[..k]) <= maxBytes
    ensures k < |chunks| ==> chunks[k].text.None? || Bytes(chunks[..k + 1]) > maxBytes
  {
    if chunks == [] then 0
    else
      var n := |chunks| - 1;
      assert chunks[..n + 1] == chunks;
      var k := AcceptedCount(chunks[..n], maxBytes);
      assert chunks[..n][..k] == chunks[..k];
      assert k < n ==> chunks[..n][..k + 1] == chunks[..k + 1];
      if k == n && chunks[n].text.Some? && Bytes(chunks) <= maxBytes then |chunks| else k
  }

  function Texts(chunks: seq<Chunk>): seq<string>
    requires forall i :: 0 <= i < |chunks| ==> chunks[i].text.Some?
  {
    if chunks == [] then []
    else Texts(chunks[..|chunks| - 1]) + [chunks[|chunks| - 1].text.value]
  }

  /** What JSON parsing makes of a frame's data; `result` is its record result, if it has one. */
  datatype Message<T> = NotRecord | Record(hasError: bool, result: Option<T>)

  function ParseReply<T>(json: string -> Option<Message<T>>, data: string): Parsed<T> {
    match json(data)
    case None => Failed(INVALID)
    case Some(NotRecord) => Failed(FAILED)
    case Some(Record(hasError, result)) =>
      if hasError || result.None? then Failed(FAILED) else Event(result.value)
  }

  function Replies<T>(json: string -> Option<Message<T>>): string -> Parsed<T> {
    data => ParseReply(json, data)
  }

  /** An error ends a stream that is still going. */
  function Stop<T>(d: Delivered<T>, message: string): Delivered<T> {
    if d.Going() then d.(failure := Some(message)) else d
  }

  /** What a reader that takes the chunks one at a time hands on. */
  ghost function Outcome<T>(chunks: seq<Chunk>, tail: Option<string>, maxBytes: nat,
      json: string -> Option<Message<T>>): Delivered<T> {
    var k := AcceptedCount(chunks, maxBytes);
    var texts := Texts(chunks[..k]);
    if k < |chunks| then
      Stop(Deliver(TakeAll(texts).frames, Data, Replies(json)), if chunks[k].text.None? then INVALID else LIMIT)
    else if tail.None? then Stop(Deliver(TakeAll(texts).frames, Data, Replies(json)), INVALID)
    else Deliver(TakeAll(texts + [tail.value + "\n\n"]).frames, Data, Replies(json))
  }

  lemma DeliverNothing<T>(data: string -> string, parse: string -> Parsed<T>)
    ensures Deliver([], data, parse) == Delivered([], None)
  {
  }

  lemma {:induction false} BytesGrow(chunks: seq<Chunk>, i: nat, j: nat)
    requires i <= j <= |chunks|
    ensures Bytes(chunks[..i]) <= Bytes(chunks[..j])
    decreases j
  {
    if i < j {
      assert chunks[..j][..j - 1] == chunks[..j - 1];
      BytesGrow(chunks, i, j - 1);
    }
  }

  /** The next chunk is taken unless it is not UTF-8 or passes the limit. */
  lemma CountStep(chunks: seq<Chunk>, i: nat, maxBytes: nat)
    requires i < |chunks| && i <= AcceptedCount(chunks, maxBytes)
    ensures chunks[..i + 1][..i] == chunks[..i] && chunks[..i + 1][i] == chunks[i]
    ensures Bytes(chunks[..i + 1]) == Bytes(chunks[..i]) + chunks[i].bytes
    ensures AcceptedCount(chunks, maxBytes) == i <==> chunks[i].text.None? || Bytes(chunks[..i + 1]) > maxBytes
  {
    assert chunks[..i + 1][..i] == chunks[..i] && chunks[..i + 1][i] == chunks[i];
    var k := AcceptedCount(chunks, maxBytes);
    if i < k {
      BytesGrow(chunks, i + 1, k);
    }
  }

  lemma {:induction false} TakeAllGrows(chunks: seq<Chunk>, i: nat, j: nat)
    requires i <= j <= |chunks| && forall k :: 0 <= k < j ==> chunks[k].text.Some?
    ensures TakeAll(Texts(chunks[..i])).frames <= TakeAll(Texts(chunks[..j])).frames
    decreases j
  {
    if i < j {
      hide Take, TakeAll;
      assert chunks[..j][..j - 1] == chunks[..j - 1];
      TakeAllGrows(chunks, i, j - 1);
      TakeSnoc(Texts(chunks[..j - 1]), chunks[j - 1].text.value);
    }
  }

  /** A failure among the frames of the first chunks is the outcome. */
  lemma EndsEarly<T>(chunks: seq<Chunk>, i: nat, tail: Option<string>, maxBytes: nat,
      json: string -> Option<Message<T>>)
    requires i <= AcceptedCount(chunks, maxBytes)
    requires !Deliver(TakeAll(Texts(chunks[..i])).frames, Data, Replies(json)).Going()
    ensures Outcome(chunks, tail, maxBytes, json) == Deliver(TakeAll(Texts(chunks[..i])).frames, Data, Replies(json))
  {
    hide Take, TakeAll, Deliver, Data, Replies, Texts, AcceptedCount;
    var k := AcceptedCount(chunks, maxBytes);
    var frames := TakeAll(Texts(chunks[..i])).frames;
    TakeAllGrows(chunks, i, k);
    FailureStays(frames, TakeAll(Texts(chunks[..k])).frames, Data, Replies(json));
    if tail.Some? {
      TakeSnoc(Texts(chunks[..k]), tail.value + "\n\n");
      FailureStays(frames, TakeAll(Texts(chunks[..k]) + [tail.value + "\n\n"]).frames, Data, Replies(json));
    }
  }

  /** One round of the source's `take`: fold the buffer, hand its frames on, keep the rest. */
  method FlushTaken<T>(buffer: string, json: string -> Option<Message<T>>, start: Delivered<T>,
      ghost before: seq<string>)
    returns (r: Delivered<T>, rest: string)
    requires start == Deliver(before, Data, Replies(json)) && start.Going()
    ensures r == Deliver(before + Take(buffer).frames, Data, Replies(json))
    ensures r.Going() ==> rest == Take(buffer).rest
  {
    BlanksAreStable();
    hide Stable, FindBlank, Deliver, Data, Drain, Normalize, Replies;
    r, rest := FlushFrames(FindBlank, Data, Replies(json), Normalize(buffer), start, before);
  }

  /**
   * Reads the chunks of a response; `tail` is the text the decoder still held at the end, unless
   * the response stopped inside a character. No chunk beyond the limit is parsed.
   */
  method ReadEventStream<T>(chunks: seq<Chunk>, tail: Option<string>, maxBytes: nat,
      json: string -> Option<Message<T>>) returns (r: Delivered<T>)
    ensures r == Outcome(chunks, tail, maxBytes, json)
  {
    var buffer := "";
    r := Delivered([], None);
    DeliverNothing(Data, Replies(json));
    var bytes := 0;
    var i := 0;
    assert Texts(chunks[..0]) == [] && Bytes(chunks[..0]) == 0 && TakeAll([]) == Frames([], "");
    hide Take, TakeAll, Deliver, Data, Replies, AcceptedCount, Bytes;
    while i < |chunks|
      invariant 0 <= i <= |chunks| && i <= AcceptedCount(chunks, maxBytes)
      invariant bytes == Bytes(chunks[..i]) <= maxBytes
      invariant TakeAll(Texts(chunks[..i])).rest == buffer
      invariant r == Deliver(TakeAll(Texts(chunks[..i])).frames, Data, Replies(json)) && r.Going()
    {
      ghost var texts := Texts(chunks[..i]);
      CountStep(chunks, i, maxBytes);
      if chunks[i].text.None? {
        r := Delivered(r.events, Some(INVALID));
        return;
      }
      bytes := bytes + chunks[i].bytes;
      if bytes > maxBytes {
        r := Delivered(r.events, Some(LIMIT));
        return;
      }
      TakeSnoc(texts, chunks[i].text.value);
      r, buffer := FlushTaken(buffer + chunks[i].text.value, json, r, TakeAll(texts).frames);
      i := i + 1;
      if !r.Going() {
        EndsEarly(chunks, i, tail, maxBytes, json);
        return;
      }
    }
    assert chunks[..i] == chunks;
    if tail.None? {
      r := Delivered(r.events, Some(INVALID));
      return;
    }
    TakeSnoc(Texts(chunks), tail.value + "\n\n");
    r, buffer := FlushTaken(buffer + (tail.value + "\n\n"), json, r, TakeAll(Texts(chunks)).frames);
  }

  /**
   * Without CR CR LF, a response inside the limit yields the events of its whole text: the places
   * where it was cut make no difference.
   */
  lemma WholeTextDecides<T>(chunks: seq<Chunk>, tail: string, maxBytes: nat, json: string -> Option<Message<T>>)
    requires AcceptedCount(chunks, maxBytes) == |chunks|
    requires NoCrCrLf(Concat(Texts(chunks)) + tail + "\n\n")
    ensures Outcome(chunks, Some(tail), maxBytes, json)
         == Deliver(Take(Concat(Texts(chunks)) + tail + "\n\n").frames, Data, Replies(json))
  {
    hide Take, TakeAll, Deliver, Data, Replies, AcceptedCount, NoCrCrLf;
    assert chunks[..|chunks|] == chunks;
    var texts := Texts(chunks);
    ConcatSnoc(texts, tail + "\n\n");
    assert Concat(texts) + (tail + "\n\n") == Concat(texts) + tail + "\n\n";
    ChunksTakeWhole(texts + [tail + "\n\n"]);
  }

  /** The closing blank line flushes the text: at most one LF is left over, and no frame is lost. */
  lemma NothingUnsent(text: string)
    ensures Take(text + "\n\n").rest == "" || Take(text + "\n\n").rest == "\n"
  {
    BlanksAreStable();
    FoldedEnd(text);
    hide Stable, FindBlank, Drain, Normalize;
    var s := Normalize(text + "\n\n");
    ConsumedAndRest(s);
    RestUnbroken(text + "\n\n");
    var rest := Take(text + "\n\n").rest;
    assert forall i :: 0 <= i < |rest| ==> rest[i] == s[|s| - |rest| + i];
    assert |rest| == 1 ==> rest[0] == s[|s| - 1];
  }

  lemma FoldedEnd(text: string)
    ensures var s := Normalize(text + "\n\n"); |s| >= 2 && s[|s| - 1] == '\n' && s[|s| - 2] == '\n'
  {
    assert Normalize("\n") == "\n" by {
      NormalizeOther('\n', "");
    }
    assert text + "\n\n" == (text + "\n") + "\n";
    NormalizeAppend(text + "\n", "\n");
    NormalizeLast(text + "\n");
  }
}
