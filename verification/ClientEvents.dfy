/** The browser client's event reader: frames end at a blank line, with LF or CRLF line ends. */
module ClientEvents {
  import opened Wrappers
  import opened EventFrames

  /** The length of a match of CR? LF CR? LF at the start of the text. */
  function BreakLength(s: string): Option<nat> {
    var i := if |s| > 0 && s[0] == '\r' then 1 else 0;
    if |s| <= i || s[i] != '\n' then None
    else
      var j := if |s| > i + 1 && s[i + 1] == '\r' then i + 2 else i + 1;
      if |s| <= j || s[j] != '\n' then None else Some(j + 1)
  }

  /** The leftmost match. */
  function FindBreak(s: string): Option<Cut> {
    match BreakLength(s)
    case Some(length) => Some(Cut(0, length))
    case None =>
      if s == "" then None
      else match FindBreak(s[1..])
        case None => None
        case Some(cut) => Some(Cut(cut.index + 1, cut.length))
  }

  lemma {:induction false} FindBreakInside(s: string)
    ensures FindBreak(s).Some? ==>
        0 < FindBreak(s).value.length && FindBreak(s).value.index + FindBreak(s).value.length <= |s|
    ensures |s| < 2 ==> FindBreak(s).None?
  {
    if BreakLength(s).None? && s != "" {
      FindBreakInside(s[1..]);
    }
  }

  /** A text that only begins a match holds no match further on. */
  lemma BegunMatch(s: string, t: string)
    requires BreakLength(s).None? && BreakLength(s + t).Some? && s != ""
    ensures FindBreak(s[1..]).None?
  {
    var u := s[1..];
    assert |s| <= 3;
    FindBreakInside(u);
    if |u| == 2 {
      assert s[0] == '\r' && s[1] == '\n' && s[2] == '\r';
      FindBreakInside(u[1..]);
    }
  }

  lemma {:induction false} FindBreakStable(s: string, t: string)
    requires FindBreak(s).Some?
    ensures FindBreak(s + t) == FindBreak(s)
  {
    if BreakLength(s).None? {
      assert (s + t)[1..] == s[1..] + t;
      FindBreakStable(s[1..], t);
      if BreakLength(s + t).Some? {
        BegunMatch(s, t);
        assert false;
      }
    }
  }

  lemma BreaksAreStable()
    ensures Stable(FindBreak)
  {
    forall s ensures FindBreak(s).Some? ==>
      0 < FindBreak(s).value.length && FindBreak(s).value.index + FindBreak(s).value.length <= |s|
    {
      FindBreakInside(s);
    }
    forall s, t | FindBreak(s).Some? ensures FindBreak(s + t) == FindBreak(s) {
      FindBreakStable(s, t);
    }
  }

  /** The four blank-line separators. */
  predicate IsBreak(s: string) {
    s == "\n\n" || s == "\r\n\n" || s == "\n\r\n" || s == "\r\n\r\n"
  }

  lemma MatchIsBreak(s: string)
    requires BreakLength(s).Some?
    ensures BreakLength(s).value <= |s| && IsBreak(s[..BreakLength(s).value])
  {
  }

  lemma {:induction false} FoundIsBreak(s: string)
    requires FindBreak(s).Some?
    ensures var cut := FindBreak(s).value;
      cut.index + cut.length <= |s| && IsBreak(s[cut.index..cut.index + cut.length])
  {
    hide BreakLength, IsBreak;
    FindBreakInside(s);
    var cut := FindBreak(s).value;
    if BreakLength(s).Some? {
      MatchIsBreak(s);
    } else {
      FoundIsBreak(s[1..]);
      assert FindBreak(s[1..]) == Some(Cut(cut.index - 1, cut.length));
      hide FindBreak;
      SliceOfTail(s, cut.index, cut.index + cut.length);
    }
  }

  lemma SliceOfTail(s: string, i: nat, j: nat)
    requires 1 <= i <= j <= |s|
    ensures s[i..j] == s[1..][i - 1..j - 1]
  {
    assert forall k :: i <= k < j ==> s[1..][k - 1] == s[k];
  }

  lemma BreakAtStart(s: string, n: nat)
    requires n <= |s| && IsBreak(s[..n])
    ensures BreakLength(s).Some?
  {
    var start := s[..n];
    assert forall k :: 0 <= k < |start| ==> start[k] == s[k];
  }

  lemma {:induction false} BreakIsFound(s: string, i: nat, j: nat)
    requires i <= j <= |s| && IsBreak(s[i..j])
    ensures FindBreak(s).Some?
    decreases i
  {
    hide IsBreak, BreakLength;
    if i == 0 {
      BreakAtStart(s, j);
    } else {
      assert s[1..][i - 1..j - 1] == s[i..j];
      BreakIsFound(s[1..], i - 1, j - 1);
    }
  }

  /** No part of the text is a blank line. */
  ghost predicate Unbroken(s: string) {
    forall i, j :: 0 <= i <= j <= |s| ==> !IsBreak(s[i..j])
  }

  /** The finder misses no blank line. */
  lemma UnbrokenExact(s: string)
    ensures FindBreak(s).None? <==> Unbroken(s)
  {
    hide FindBreak, IsBreak;
    if FindBreak(s).Some? {
      FoundIsBreak(s);
    } else {
      forall i, j | 0 <= i <= j <= |s| ensures !IsBreak(s[i..j]) {
        if IsBreak(s[i..j]) {
          BreakIsFound(s, i, j);
        }
      }
    }
  }

  lemma SeparatorIsBreak(separator: string)
    requires IsCutOf(FindBreak, separator)
    ensures IsBreak(separator)
  {
    hide FindBreak, IsBreak;
    var s :| FindBreak(s).Some? && FindBreak(s).value.index + FindBreak(s).value.length <= |s|
      && separator == s[FindBreak(s).value.index..FindBreak(s).value.index + FindBreak(s).value.length];
    FoundIsBreak(s);
  }

  /** The text is its frames with blank lines between them, and no frame holds a blank line. */
  lemma FramesSpellText(text: string) returns (separators: seq<string>)
    ensures Stable(FindBreak)
    ensures var drained := Drain(FindBreak, text);
      && |separators| == |drained.frames|
      && text == Weave(drained.frames, separators) + drained.rest
      && (forall i :: 0 <= i < |separators| ==> IsBreak(separators[i]) && Unbroken(drained.frames[i]))
      && Unbroken(drained.rest)
  {
    BreaksAreStable();
    hide FindBreak, Stable, Drain, Unbroken, IsBreak, IsCutOf, Weave;
    separators := NothingLost(FindBreak, text);
    FramesHoldNoCut(FindBreak, text);
    var drained := Drain(FindBreak, text);
    UnbrokenExact(drained.rest);
    forall i | 0 <= i < |separators| ensures IsBreak(separators[i]) && Unbroken(drained.frames[i]) {
      UnbrokenExact(drained.frames[i]);
      SeparatorIsBreak(separators[i]);
    }
  }

  /** `split(/\r?\n/)`. */
  function Lines(s: string): (lines: seq<string>)
    ensures |lines| >= 1
  {
    if s == "" then [""]
    else if s[0] == '\n' then [""] + Lines(s[1..])
    else if |s| >= 2 && s[0] == '\r' && s[1] == '\n' then [""] + Lines(s[2..])
    else
      var lines := Lines(s[1..]);
      [[s[0]] + lines[0]] + lines[1..]
  }

  function Data(raw: string): string {
    JoinLines(DataOf(Lines(raw), Trim))
  }

  /** The frames of a whole text: the complete ones, and the rest when it is not blank. */
  ghost function WholeFrames(text: string): seq<string> {
    BreaksAreStable();
    var drained := Drain(FindBreak, text);
    drained.frames + if Trim(drained.rest) != "" then [drained.rest] else []
  }

  /**
   * Reads the chunks of a response. The delivered events are those of the whole text, so the
   * places where the text was cut into chunks make no difference, whatever line ends it has.
   */
  method ReadEvents<T>(chunks: seq<string>, parse: string -> Parsed<T>) returns (r: Delivered<T>)
    ensures r == Deliver(WholeFrames(Concat(chunks)), Data, parse)
  {
    BreaksAreStable();
    var buffer := "";
    r := Delivered([], None);
    assert Deliver([], Data, parse) == r;
    hide FindBreak, Stable, Data, Drain, Trim, Deliver, DeliverOne;
    assert Concat(chunks[..0]) == "";
    ghost var frames: seq<string> := [];
    assert Drain(FindBreak, "") == Frames([], "") by {
      NothingToDrain();
    }
    var i := 0;
    while i < |chunks|
      invariant 0 <= i <= |chunks|
      invariant Drain(FindBreak, Concat(chunks[..i])) == Frames(frames, buffer)
      invariant r == Deliver(frames, Data, parse) && r.Going()
    {
      assert chunks[..i + 1][..i] == chunks[..i];
      ghost var text := Concat(chunks[..i]);
      DrainConcat(FindBreak, text, chunks[i]);
      ghost var more := Drain(FindBreak, buffer + chunks[i]);
      r, buffer := FlushFrames(FindBreak, Data, parse, buffer + chunks[i], r, frames);
      frames := frames + more.frames;
      i := i + 1;
      if !r.Going() {
        EndsEarly(chunks, i, parse);
        return;
      }
    }
    assert chunks[..i] == chunks;
    if Trim(buffer) != "" {
      DeliverSnoc(frames, buffer, Data, parse);
      r := DeliverOne(r.events, buffer, Data, parse);
    } else {
      assert frames + [] == frames;
    }
  }

  lemma NothingToDrain()
    requires Stable(FindBreak)
    ensures Drain(FindBreak, "") == Frames([], "")
  {
  }

  /** The frames of a prefix are the first frames of the whole text. */
  lemma PrefixFrames(head: string, tail: string)
    requires Stable(FindBreak)
    ensures Drain(FindBreak, head).frames <= WholeFrames(head + tail)
  {
    hide FindBreak, Stable, Trim;
    DrainConcat(FindBreak, head, tail);
  }

  /** A failure among the frames of a prefix is the outcome for the whole text. */
  lemma EndsEarly<T>(chunks: seq<string>, i: nat, parse: string -> Parsed<T>)
    requires Stable(FindBreak)
    requires i <= |chunks| && !Deliver(Drain(FindBreak, Concat(chunks[..i])).frames, Data, parse).Going()
    ensures Deliver(WholeFrames(Concat(chunks)), Data, parse)
         == Deliver(Drain(FindBreak, Concat(chunks[..i])).frames, Data, parse)
  {
    hide FindBreak, Stable, Data, Deliver, Drain, WholeFrames, Concat;
    ConcatSplit(chunks, i);
    PrefixFrames(Concat(chunks[..i]), Concat(chunks[i..]));
    var frames, whole := Drain(FindBreak, Concat(chunks[..i])).frames, WholeFrames(Concat(chunks));
    FailureStays(frames, whole, Data, parse);
  }

  lemma {:induction false} ConcatSplit(chunks: seq<string>, i: nat)
    requires i <= |chunks|
    ensures Concat(chunks) == Concat(chunks[..i]) + Concat(chunks[i..])
    decreases |chunks|
  {
    if i == |chunks| {
      assert chunks[..i] == chunks && chunks[i..] == [];
    } else {
      var init := chunks[..|chunks| - 1];
      ConcatSplit(init, i);
      assert init[..i] == chunks[..i];
      assert chunks[i..][..|chunks[i..]| - 1] == init[i..];
    }
  }
}
