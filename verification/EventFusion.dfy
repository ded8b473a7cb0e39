/** Two events that one chunking yields apart and another fuses into one. */
module EventFusion {
  import opened EventCuts
  import opened EventEncode
  import opened EventFrames
  import opened EventStream
  import opened Wrappers

  /** Two written events with LF CR CR LF between them, cut behind it. */
  function Front(first: seq<string>): string
    requires first != []
  {
    Raw(first) + "\n\r\r\n"
  }

  function Back(second: seq<string>): string
    requires second != []
  {
    Raw(second) + "\n\n"
  }

  /** The one frame that reading both at once makes of them. */
  function Fused(first: seq<string>, second: seq<string>): string
    requires first != [] && second != []
  {
    Raw(first) + "\n\r\n" + Raw(second)
  }

  lemma NoCrFolds(s: string)
    requires NoCr(s)
    ensures Normalize(s) == s
  {
    NormalizeExact(s);
  }

  lemma Between()
    ensures Normalize("\n\r\r\n") == "\n\r\n" && Normalize("\n\r\n") == "\n\n" && Normalize("\n\n") == "\n\n"
  {
    NormalizeOther('\n', "\r\r\n");
    NormalizeOther('\r', "\r\n");
    NormalizeOther('\n', "\r\n");
    NormalizePair("");
    NormalizeOther('\n', "\n");
    NormalizeOther('\n', "");
    assert "\n\r\r\n" == ['\n'] + (['\r'] + ("\r\n" + ""));
    assert "\n\r\n" == ['\n'] + ("\r\n" + "") && "\n\n" == ['\n'] + (['\n'] + "");
    assert Normalize("") == "";
    assert ['\n'] + (['\r'] + ("\n" + "")) == "\n\r\n" && ['\n'] + ("\n" + "") == "\n\n";
  }

  lemma FusedClosed(first: seq<string>, second: seq<string>)
    requires Payload(first) && Payload(second)
    ensures Closed(Fused(first, second))
  {
    RawShape(first);
    RawShape(second);
    hide Raw;
    var a, b := Raw(first), Raw(second);
    ClosedJoin("\r", b);
    ClosedJoin(a, "\r" + "\n" + b);
    assert a + "\n" + ("\r" + "\n" + b) == a + "\n\r\n" + b;
  }

  lemma FoldJoined(a: string, middle: string, folded: string, b: string)
    requires NoCr(a) && NoCr(b) && Normalize(middle) == folded
    requires middle != "" && middle[|middle| - 1] == '\n'
    ensures Normalize(a + (middle + (b + "\n\n"))) == a + (folded + (b + "\n\n"))
  {
    Between();
    NoCrFolds(a);
    NoCrFolds(b);
    hide Normalize;
    NormalizeAppend(b, "\n\n");
    NormalizeAppend(middle, b + "\n\n");
    NormalizeAppend(a, middle + (b + "\n\n"));
  }

  /** Folding both halves at once leaves the CRLF between them. */
  lemma FoldWhole(first: seq<string>, second: seq<string>)
    requires Payload(first) && Payload(second)
    ensures Normalize(Front(first) + Back(second)) == Fused(first, second) + "\n\n" + ""
  {
    RawShape(first);
    RawShape(second);
    Between();
    hide Raw, Normalize, Closed, NoCr, PlainLine;
    var a, b := Raw(first), Raw(second);
    FoldJoined(a, "\n\r\r\n", "\n\r\n", b);
    FourParts(a, "\n\r\r\n", b, "\n\n");
    FourParts(a, "\n\r\n", b, "\n\n");
  }

  lemma FourParts(a: string, b: string, c: string, d: string)
    ensures a + b + (c + d) == a + (b + (c + d))
    ensures a + (b + (c + d)) == a + b + c + d + ""
  {
  }

  lemma FoldFront(first: seq<string>)
    requires Payload(first)
    ensures Normalize(Front(first)) == Raw(first) + "\n\r\n"
    ensures FindBlank(Raw(first) + "\n\r\n").None?
  {
    RawShape(first);
    Between();
    hide Raw, Normalize;
    var a := Raw(first);
    NoCrFolds(a);
    NormalizeAppend(a, "\n\r\r\n");
    FrontUnbroken(a);
  }

  lemma FrontUnbroken(a: string)
    requires Closed(a)
    ensures FindBlank(a + "\n\r\n").None?
  {
    var s := a + "\n\r\n";
    hide FindBlank;
    assert forall i :: 0 <= i < |a| ==> s[i] == a[i];
    NoBlankExact(s);
  }

  lemma FoldBack(first: seq<string>, second: seq<string>)
    requires Payload(first) && Payload(second)
    ensures Normalize(Raw(first) + "\n\r\n" + Back(second)) == Raw(first) + "\n\n" + (Raw(second) + "\n\n" + "")
  {
    RawShape(first);
    RawShape(second);
    Between();
    hide Raw, Normalize, Closed, NoCr, PlainLine;
    var a, b := Raw(first), Raw(second);
    FoldJoined(a, "\n\r\n", "\n\n", b);
    FourParts(a, "\n\r\n", b, "\n\n");
    FourParts(a, "\n\n", b, "\n\n");
    assert b + "\n\n" + "" == b + "\n\n";
  }

  lemma TakeWhole(first: seq<string>, second: seq<string>)
    requires Payload(first) && Payload(second)
    ensures Take(Front(first) + Back(second)) == Frames([Fused(first, second)], "")
  {
    FoldWhole(first, second);
    FusedClosed(first, second);
    NothingTaken();
    hide Stable, FindBlank, Drain, Normalize, Closed;
    OneFrame(Fused(first, second), "");
    assert [Fused(first, second)] + [] == [Fused(first, second)];
  }

  lemma TakeFront(first: seq<string>)
    requires Payload(first)
    ensures Take(Front(first)) == Frames([], Raw(first) + "\n\r\n")
  {
    FoldFront(first);
    BlanksAreStable();
    hide Stable, FindBlank, Drain, Normalize, Raw, Payload;
    DrainStep(FindBlank, Raw(first) + "\n\r\n");
  }

  lemma TakeBack(first: seq<string>, second: seq<string>)
    requires Payload(first) && Payload(second)
    ensures Take(Raw(first) + "\n\r\n" + Back(second)) == Frames([Raw(first), Raw(second)], "")
  {
    hide Stable, FindBlank, Drain, Normalize, Closed, Raw, Back, NoCr, PlainLine;
    FoldBack(first, second);
    RawShape(first);
    RawShape(second);
    TwoFrames(Raw(first), Raw(second));
  }

  lemma TwoFrames(a: string, b: string)
    requires Closed(a) && Closed(b)
    ensures Stable(FindBlank)
    ensures Drain(FindBlank, a + "\n\n" + (b + "\n\n" + "")) == Frames([a, b], "")
  {
    NothingTaken();
    hide Stable, FindBlank, Drain, Normalize, Closed;
    OneFrame(b, "");
    OneFrame(a, b + "\n\n" + "");
    assert [b] + [] == [b] && [a] + [b] == [a, b];
  }

  lemma TakeClosing()
    ensures Take(CLOSING) == Frames([""], "")
  {
    BlanksAreStable();
    Between();
    ClosingFrame();
  }

  lemma FramesWhole(first: seq<string>, second: seq<string>)
    requires Payload(first) && Payload(second)
    ensures Yielded([Front(first) + Back(second)]) == [Fused(first, second), ""]
  {
    assert first != [] && second != [];
    hide Take, Payload, Raw, TakeAll, TakeFrom, Front, Back, Fused, Yielded;
    TakeWhole(first, second);
    TakeClosing();
    var x, y, fused := Front(first), Back(second), Fused(first, second);
    YieldedFrom([x + y]);
    Unrolled(x, y);
    assert "" + (x + y) == x + y && "" + CLOSING == CLOSING;
    assert [fused] + [""] == [fused, ""];
  }

  lemma FramesCut(first: seq<string>, second: seq<string>)
    requires Payload(first) && Payload(second)
    ensures Yielded([Front(first), Back(second)]) == [Raw(first), Raw(second), ""]
  {
    assert first != [] && second != [];
    hide Take, Payload, Raw, TakeAll, TakeFrom, Front, Back, Fused, Yielded;
    TakeFront(first);
    TakeBack(first, second);
    TakeClosing();
    var x, y, a, b := Front(first), Back(second), Raw(first), Raw(second);
    YieldedFrom([x, y]);
    Unrolled(x, y);
    assert "" + x == x && "" + CLOSING == CLOSING;
    assert [] + ([a, b] + [""]) == [a, b, ""];
  }

  /** In one chunk the two events are one frame, in two chunks they are two. */
  lemma FramesByCut(first: seq<string>, second: seq<string>)
    requires Payload(first) && Payload(second)
    ensures Yielded([Front(first) + Back(second)]) == [Fused(first, second), ""]
    ensures Yielded([Front(first), Back(second)]) == [Raw(first), Raw(second), ""]
    ensures Yielded([Front(first) + Back(second)]) != Yielded([Front(first), Back(second)])
  {
    hide Yielded, Raw, Front, Back, Fused;
    FramesWhole(first, second);
    FramesCut(first, second);
    assert |[Fused(first, second), ""]| != |[Raw(first), Raw(second), ""]|;
  }

  lemma Unrolled(x: string, y: string)
    ensures var whole := Take("" + (x + y));
      TakeFrom("", [x + y] + [CLOSING]).frames == whole.frames + Take(whole.rest + CLOSING).frames
    ensures var front := Take("" + x);
      var back := Take(front.rest + y);
      TakeFrom("", [x, y] + [CLOSING]).frames == front.frames + (back.frames + Take(back.rest + CLOSING).frames)
  {
    hide Take;
    assert [x + y] + [CLOSING] == [x + y, CLOSING] && [x, y] + [CLOSING] == [x, y, CLOSING];
    assert [x + y, CLOSING][1..] == [CLOSING] && [x, y, CLOSING][1..] == [y, CLOSING] && [y, CLOSING][1..] == [CLOSING];
    ClosingOnly(Take("" + (x + y)).rest);
    ClosingOnly(Take(Take("" + x).rest + y).rest);
  }

  lemma ClosingOnly(rest: string)
    ensures TakeFrom(rest, [CLOSING]).frames == Take(rest + CLOSING).frames
  {
    assert [CLOSING][1..] == [];
    var last := Take(rest + CLOSING);
    assert last.frames + [] == last.frames;
  }

  /** The data of the fused frame: the lines of both events. */
  lemma FusedData(first: seq<string>, second: seq<string>)
    requires Payload(first) && Payload(second)
    ensures Data(Fused(first, second)) == JoinLines(first + second)
  {
    hide Raw, Lines, DataOf, JoinLines, PlainLine, TrimStart;
    TailFields(second);
    FieldsBefore(first, "\r\n" + Raw(second));
    Glued(Raw(first), Raw(second));
  }

  lemma Glued(a: string, b: string)
    ensures a + "\n" + ("\r\n" + b) == a + "\n\r\n" + b
  {
  }

  lemma TailFields(second: seq<string>)
    requires Payload(second)
    ensures DataOf(Lines("\r\n" + Raw(second)), TrimStart) == second
  {
    RawFields(second);
    LinesOfMore("\r", Raw(second));
    assert "\r" + "\n" + Raw(second) == "\r\n" + Raw(second);
    hide Raw, Lines, TrimStart;
    var rest := Lines(Raw(second));
    assert (["\r"] + rest)[1..] == rest && !("data:" <= "\r");
    assert [] + second == second;
  }

  lemma RawCons(lines: seq<string>, tail: string)
    requires |lines| > 1
    ensures Raw(lines) + "\n" + tail == "data: " + lines[0] + "\n" + (Raw(lines[1..]) + "\n" + tail)
  {
  }

  lemma FieldBefore(line: string, tail: string)
    requires PlainLine(line)
    ensures DataOf(Lines("data: " + line + "\n" + tail), TrimStart) == [line] + DataOf(Lines(tail), TrimStart)
  {
    FieldValue(line);
    hide PlainLine, TrimStart, Lines, DataOf;
    LinesOfMore("data: " + line, tail);
    FieldFirst("data: " + line, line, Lines(tail));
  }

  lemma {:induction false} FieldsBefore(lines: seq<string>, tail: string)
    requires lines != [] && forall i :: 0 <= i < |lines| ==> PlainLine(lines[i])
    ensures DataOf(Lines(Raw(lines) + "\n" + tail), TrimStart) == lines + DataOf(Lines(tail), TrimStart)
  {
    FieldBefore(lines[0], tail);
    assert |lines| == 1 ==> Raw(lines) == "data: " + lines[0] && [lines[0]] == lines;
    if |lines| > 1 {
      hide PlainLine, TrimStart, Raw, Lines, DataOf;
      FieldsBefore(lines[1..], tail);
      FieldBefore(lines[0], Raw(lines[1..]) + "\n" + tail);
      RawCons(lines, tail);
      Prepend(lines, DataOf(Lines(tail), TrimStart));
    }
  }

  lemma Prepend(lines: seq<string>, rest: seq<string>)
    requires lines != []
    ensures [lines[0]] + (lines[1..] + rest) == lines + rest
  {
  }

  lemma FieldFirst(field: string, line: string, lines: seq<string>)
    requires "data:" <= field && TrimStart(field[5..]) == line
    ensures DataOf([field] + lines, TrimStart) == [line] + DataOf(lines, TrimStart)
  {
    assert ([field] + lines)[1..] == lines;
  }

  /**
   * Chunk cuts are visible: for any two events, written with LF CR CR LF between them, a reader
   * that gets the text cut behind it yields both values, and one that gets the text whole yields
   * what the lines of both parse to, as one event or as its error.
   */
  lemma CutsAreVisible<T>(first: seq<string>, second: seq<string>, values: seq<T>, whole: seq<Chunk>, cut: seq<Chunk>,
      maxBytes: nat, json: string -> Option<Message<T>>)
    requires Payload(first) && Payload(second) && ParsesTo([first, second], values, Replies(json))
    requires AcceptedCount(whole, maxBytes) == |whole| && Texts(whole) == [Front(first) + Back(second)]
    requires AcceptedCount(cut, maxBytes) == |cut| && Texts(cut) == [Front(first), Back(second)]
    ensures Outcome(cut, Some(""), maxBytes, json) == Delivered(values, None)
    ensures Outcome(whole, Some(""), maxBytes, json)
         == match Replies(json)(JoinLines(first + second))
            case Event(value) => Delivered([value], None)
            case Failed(message) => Delivered([], Some(message))
    ensures Outcome(whole, Some(""), maxBytes, json) != Outcome(cut, Some(""), maxBytes, json)
  {
    FramesByCut(first, second);
    assert whole[..|whole|] == whole && cut[..|cut|] == cut && "" + "\n\n" == CLOSING;
    FusedData(first, second);
    DataOfRaw(first);
    DataOfRaw(second);
    EmptyFrame();
    JoinedNotEmpty(first, second);
    hide Take, TakeAll, AcceptedCount, Raw, Data, Texts, Replies, Deliver;
    var parse := Replies(json);
    DeliverNothing(Data, parse);
    DeliverSnoc([], Fused(first, second), Data, parse);
    assert [] + [Fused(first, second)] == [Fused(first, second)];
    DeliverTwo(first, second, values, parse);
    FusedDelivered(Fused(first, second), parse);
  }

  lemma {:induction false} JoinedNotEmpty(first: seq<string>, second: seq<string>)
    requires Payload(first) && Payload(second)
    ensures JoinLines(first + second) != ""
  {
    if |first| == 1 {
      assert (first + second)[1..] == second;
    } else {
      assert (first + second)[1..] == first[1..] + second;
    }
  }

  lemma DeliverTwo<T>(first: seq<string>, second: seq<string>, values: seq<T>, parse: string -> Parsed<T>)
    requires Payload(first) && Payload(second) && ParsesTo([first, second], values, parse)
    ensures Deliver([Raw(first), Raw(second), ""], Data, parse) == Delivered(values, None)
  {
    assert Payloads([first, second]);
    assert Raws([first, second]) == [Raw(first), Raw(second)];
    EmptyFrame();
    hide Raw, Payload, Data, Deliver, ParsesTo, Payloads, Raws;
    RawsDeliver([first, second], values, parse);
    DeliverSnoc([Raw(first), Raw(second)], "", Data, parse);
    assert [Raw(first), Raw(second)] + [""] == [Raw(first), Raw(second), ""];
  }

  lemma FusedDelivered<T>(frame: string, parse: string -> Parsed<T>)
    requires Data(frame) != ""
    ensures Deliver([frame, ""], Data, parse)
         == match parse(Data(frame))
            case Event(value) => Delivered([value], None)
            case Failed(message) => Delivered([], Some(message))
  {
    EmptyFrame();
    hide Data;
    assert [frame, ""][..1] == [frame] && [frame][..0] == [];
    assert Deliver([frame], Data, parse) == DeliverOne([], frame, Data, parse);
  }
}
