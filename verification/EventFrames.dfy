/** Cutting a growing text into frames, and why the cuts of the chunks do not matter. */
module EventFrames {
  import opened Wrappers

  /** A separator found at `index`, `length` characters long. */
  datatype Cut = Cut(index: nat, length: nat)

  type Finder = string -> Option<Cut>

  /** A finder that stays inside its text and whose answer does not change when the text grows. */
  ghost predicate Stable(find: Finder) {
    && (forall s :: find(s).Some? ==> 0 < find(s).value.length && find(s).value.index + find(s).value.length <= |s|)
    && (forall s, t :: find(s).Some? ==> find(s + t) == find(s))
  }

  /** What stability says of one text and one continuation. */
  lemma StableAt(find: Finder, s: string, t: string)
    requires Stable(find)
    requires find(s).Some?
    ensures 0 < find(s).value.length && find(s).value.index + find(s).value.length <= |s|
    ensures find(s + t) == find(s)
  {
  }

  /** The complete frames of a text, and what is left over. */
  datatype Frames = Frames(frames: seq<string>, rest: string)

  ghost function Drain(find: Finder, s: string): Frames
    requires Stable(find)
    decreases |s|
  {
    match find(s)
    case None => Frames([], s)
    case Some(cut) =>
      var later := Drain(find, s[cut.index + cut.length..]);
      Frames([s[..cut.index]] + later.frames, later.rest)
  }

  /** Draining, one frame at a time. */
  lemma DrainStep(find: Finder, s: string)
    requires Stable(find)
    ensures find(s).None? ==> Drain(find, s) == Frames([], s)
    ensures find(s).Some? ==>
      var n := find(s).value.index + find(s).value.length;
      && 0 < n <= |s| && find(s).value.index < n
      && Drain(find, s).frames == [s[..find(s).value.index]] + Drain(find, s[n..]).frames
      && Drain(find, s).rest == Drain(find, s[n..]).rest
  {
    hide Stable;
    if find(s).Some? {
      StableAt(find, s, "");
    }
  }

  /** Draining a text in two steps gives the same frames and the same rest as draining it at once. */
  lemma {:induction false} DrainConcat(find: Finder, s: string, t: string)
    requires Stable(find)
    ensures var first := Drain(find, s);
      var second := Drain(find, first.rest + t);
      Drain(find, s + t) == Frames(first.frames + second.frames, second.rest)
    decreases |s|
  {
    hide Stable, Drain;
    DrainStep(find, s);
    match find(s)
    case None =>
      var second := Drain(find, s + t);
      assert [] + second.frames == second.frames;
    case Some(cut) =>
      var n := cut.index + cut.length;
      StableAt(find, s, t);
      DrainStep(find, s + t);
      assert (s + t)[n..] == s[n..] + t;
      assert (s + t)[..cut.index] == s[..cut.index];
      DrainConcat(find, s[n..], t);
      ConsAppend(s[..cut.index], Drain(find, s[n..]).frames, Drain(find, Drain(find, s[n..]).rest + t).frames);
  }

  lemma ConsAppend(x: string, a: seq<string>, b: seq<string>)
    ensures [x] + a + b == [x] + (a + b)
  {
  }

  /** The first frame of a text, put behind the frames already handled. */
  lemma FirstFrame(find: Finder, s: string, handled: seq<string>)
    requires Stable(find) && find(s).Some?
    ensures var cut := find(s).value;
      && 0 < cut.length && cut.index + cut.length <= |s|
      && handled + Drain(find, s).frames
         == handled + [s[..cut.index]] + Drain(find, s[cut.index + cut.length..]).frames
      && Drain(find, s).rest == Drain(find, s[cut.index + cut.length..]).rest
  {
    hide Stable, Drain;
    DrainStep(find, s);
    StableAt(find, s, "");
    var cut := find(s).value;
    var later := Drain(find, s[cut.index + cut.length..]).frames;
    assert handled + ([s[..cut.index]] + later) == handled + [s[..cut.index]] + later;
  }

  lemma NoEarlierCut(find: Finder, s: string)
    requires Stable(find) && find(s).Some? && find(s).value.index <= |s|
    ensures find(s[..find(s).value.index]).None?
  {
    hide Stable;
    var head, tail := s[..find(s).value.index], s[find(s).value.index..];
    assert head + tail == s;
    if find(head).Some? {
      StableAt(find, head, tail);
    }
  }

  /** No frame holds a separator, and neither does what is left over. */
  lemma {:induction false} FramesHoldNoCut(find: Finder, s: string)
    requires Stable(find)
    ensures forall i :: 0 <= i < |Drain(find, s).frames| ==> find(Drain(find, s).frames[i]).None?
    ensures find(Drain(find, s).rest).None?
    decreases |s|
  {
    hide Stable, Drain;
    DrainStep(find, s);
    match find(s)
    case None =>
    case Some(cut) =>
      var n := cut.index + cut.length;
      StableAt(find, s, "");
      FramesHoldNoCut(find, s[n..]);
      NoEarlierCut(find, s);
  }

  /** Frames with their separators between them. */
  function Weave(frames: seq<string>, separators: seq<string>): string
    requires |frames| == |separators|
  {
    if frames == [] then "" else frames[0] + separators[0] + Weave(frames[1..], separators[1..])
  }

  /** Nothing is lost: frames, separators and the rest spell the text. */
  lemma {:induction false} NothingLost(find: Finder, s: string) returns (separators: seq<string>)
    requires Stable(find)
    ensures |separators| == |Drain(find, s).frames|
    ensures s == Weave(Drain(find, s).frames, separators) + Drain(find, s).rest
    ensures forall i :: 0 <= i < |separators| ==> IsCutOf(find, separators[i])
    decreases |s|
  {
    hide Stable, Drain, IsCutOf;
    DrainStep(find, s);
    match find(s)
    case None => separators := [];
    case Some(cut) =>
      var n := cut.index + cut.length;
      StableAt(find, s, "");
      var later := NothingLost(find, s[n..]);
      var separator := s[cut.index..n];
      assert IsCutOf(find, separator) by {
        CutIsOne(find, s);
      }
      separators := [separator] + later;
      var frames := Drain(find, s).frames;
      assert frames[1..] == Drain(find, s[n..]).frames && separators[1..] == later;
      var tail, rest := Weave(frames[1..], later), Drain(find, s).rest;
      Spelled(s, cut.index, n, tail, rest);
  }

  lemma Spelled(s: string, i: nat, n: nat, tail: string, rest: string)
    requires i <= n <= |s| && s[n..] == tail + rest
    ensures s == s[..i] + s[i..n] + tail + rest
  {
  }

  /** A text found as a separator somewhere. */
  ghost predicate IsCutOf(find: Finder, separator: string) {
    exists s :: find(s).Some? && find(s).value.index + find(s).value.length <= |s|
      && separator == s[find(s).value.index..find(s).value.index + find(s).value.length]
  }

  lemma CutIsOne(find: Finder, s: string)
    requires find(s).Some? && find(s).value.index + find(s).value.length <= |s|
    ensures IsCutOf(find, s[find(s).value.index..find(s).value.index + find(s).value.length])
  {
  }

  function Concat(chunks: seq<string>): string {
    if chunks == [] then "" else Concat(chunks[..|chunks| - 1]) + chunks[|chunks| - 1]
  }

  // ---- The lines of a frame ----

  /** The white space and line terminators `trim` removes. */
  predicate IsSpace(c: char) {
    c in "\t\n\r \U{0B}\U{0C}\U{A0}\U{1680}\U{2028}\U{2029}\U{202F}\U{205F}\U{3000}\U{FEFF}"
    || '\U{2000}' <= c <= '\U{200A}'
  }

  function TrimStart(s: string): string {
    if s != "" && IsSpace(s[0]) then TrimStart(s[1..]) else s
  }

  function TrimEnd(s: string): string {
    if s != "" && IsSpace(s[|s| - 1]) then TrimEnd(s[..|s| - 1]) else s
  }

  function Trim(s: string): string {
    TrimEnd(TrimStart(s))
  }

  function DataOf(lines: seq<string>, trim: string -> string): seq<string> {
    if lines == [] then []
    else (if "data:" <= lines[0] then [trim(lines[0][5..])] else []) + DataOf(lines[1..], trim)
  }

  function JoinLines(lines: seq<string>): string {
    if lines == [] then ""
    else if |lines| == 1 then lines[0]
    else lines[0] + "\n" + JoinLines(lines[1..])
  }

  // ---- Delivering frames in order ----

  /** What a frame's data parses to; a failure is thrown to the consumer. */
  datatype Parsed<T> = Failed(message: string) | Event(event: T)

  /** The events delivered, and the error that ended the stream, if one did. */
  datatype Delivered<T> = Delivered(events: seq<T>, failure: Option<string>) {
    predicate Going() {
      failure.None?
    }
  }

  function Deliver<T>(frames: seq<string>, data: string -> string, parse: string -> Parsed<T>): Delivered<T> {
    if frames == [] then Delivered([], None)
    else
      var before := Deliver(frames[..|frames| - 1], data, parse);
      if !before.Going() then before
      else DeliverOne(before.events, frames[|frames| - 1], data, parse)
  }

  function DeliverOne<T>(events: seq<T>, frame: string, data: string -> string,
      parse: string -> Parsed<T>): Delivered<T> {
    var text := data(frame);
    if text == "" then Delivered(events, None)
    else match parse(text)
      case Failed(message) => Delivered(events, Some(message))
      case Event(event) => Delivered(events + [event], None)
  }

  lemma DeliverSnoc<T>(frames: seq<string>, frame: string, data: string -> string, parse: string -> Parsed<T>)
    ensures Deliver(frames, data, parse).Going() ==>
      Deliver(frames + [frame], data, parse) == DeliverOne(Deliver(frames, data, parse).events, frame, data, parse)
  {
    assert (frames + [frame])[..|frames|] == frames;
  }

  /** A failure ends the delivery for good. */
  lemma {:induction false} FailureEnds<T>(a: seq<string>, b: seq<string>, data: string -> string,
      parse: string -> Parsed<T>)
    requires !Deliver(a, data, parse).Going()
    ensures Deliver(a + b, data, parse) == Deliver(a, data, parse)
    decreases |b|
  {
    if b == [] {
      assert a + b == a;
    } else {
      assert (a + b)[..|a + b| - 1] == a + b[..|b| - 1];
      FailureEnds(a, b[..|b| - 1], data, parse);
    }
  }

  /** The same, for any longer list of frames. */
  lemma FailureStays<T>(frames: seq<string>, longer: seq<string>, data: string -> string, parse: string -> Parsed<T>)
    requires frames <= longer && !Deliver(frames, data, parse).Going()
    ensures Deliver(longer, data, parse) == Deliver(frames, data, parse)
  {
    hide Deliver;
    FailureEnds(frames, longer[|frames|..], data, parse);
    assert frames + longer[|frames|..] == longer;
  }

  /**
   * The loop both readers share: every complete frame of the buffer is handed on in order, and
   * the text behind the last separator is kept.
   */
  method FlushFrames<T>(find: Finder, data: string -> string, parse: string -> Parsed<T>, buffer: string,
      start: Delivered<T>, ghost before: seq<string>)
    returns (r: Delivered<T>, rest: string)
    requires Stable(find)
    requires start == Deliver(before, data, parse) && start.Going()
    ensures r == Deliver(before + Drain(find, buffer).frames, data, parse)
    ensures r.Going() ==> rest == Drain(find, buffer).rest
  {
    hide Stable, Deliver, DeliverOne;
    r, rest := start, buffer;
    ghost var frames := before;
    var found := find(rest);
    while found.Some?
      invariant found == find(rest)
      invariant r == Deliver(frames, data, parse) && r.Going()
      invariant before + Drain(find, buffer).frames == frames + Drain(find, rest).frames
      invariant Drain(find, buffer).rest == Drain(find, rest).rest
      decreases |rest|
    {
      StableAt(find, rest, "");
      var frame := rest[..found.value.index];
      FirstFrame(find, rest, frames);
      DeliverSnoc(frames, frame, data, parse);
      rest := rest[found.value.index + found.value.length..];
      r := DeliverOne(r.events, frame, data, parse);
      frames := frames + [frame];
      if !r.Going() {
        FailureEnds(frames, Drain(find, rest).frames, data, parse);
        return;
      }
      found := find(rest);
    }
    assert frames + [] == frames;
  }
}
