/** What the agent-to-agent reader hands on of a written event stream. */
module StreamWritten {
  import opened EventEncode
  import opened EventFrames
  import opened EventStream
  import opened Wrappers
  import opened W = EventWritten

  // ---- Folding the line ends ----

  /** The same lines, each ended by LF. */
  function Lf(lines: seq<Line>): (folded: seq<Line>)
    ensures |folded| == |lines| && forall i :: 0 <= i < |lines| ==> folded[i] == Line(lines[i].field, false)
  {
    seq(|lines|, i requires 0 <= i < |lines| => Line(lines[i].field, false))
  }

  function LfAll(events: seq<Written>): (folded: seq<Written>)
    ensures |folded| == |events|
    ensures forall i :: 0 <= i < |events| ==> folded[i] == Written(Lf(events[i].lines), false)
  {
    seq(|events|, i requires 0 <= i < |events| => Written(Lf(events[i].lines), false))
  }

  lemma NormalizeEol(crlf: bool, rest: string)
    ensures Normalize(Eol(crlf) + rest) == "\n" + Normalize(rest)
  {
    if crlf {
      NormalizePair(rest);
    } else {
      NormalizeOther('\n', rest);
    }
  }

  lemma NormalizeLine(line: string, rest: string)
    requires OneLine(line)
    ensures Normalize(line + rest) == line + Normalize(rest)
  {
    NormalizeExact(line);
    hide Normalize;
    NormalizeAppend(line, rest);
  }

  lemma {:induction false} NormalizeBody(lines: seq<Line>, rest: string)
    requires WritableLines(lines)
    ensures WritableLines(Lf(lines))
    ensures Normalize(Body(lines) + rest) == Body(Lf(lines)) + Normalize(rest)
    decreases |lines|
  {
    var first := Show(lines[0].field);
    ShowsOneLine(lines[0].field);
    hide Normalize, Writable, Show, OneLine;
    if |lines| == 1 {
      NormalizeLine(first, rest);
    } else {
      var eol, body := Eol(lines[0].crlf), Body(lines[1..]);
      assert Lf(lines)[1..] == Lf(lines[1..]);
      NormalizeBody(lines[1..], rest);
      Associates(first, eol + body, rest);
      Associates(eol, body, rest);
      NormalizeEol(lines[0].crlf, body + rest);
      NormalizeLine(first, eol + (body + rest));
      var folded := Body(Lf(lines[1..]));
      Associates("\n", folded, Normalize(rest));
      Associates(first, "\n" + folded, Normalize(rest));
    }
  }

  lemma NormalizeEvent(event: Written, rest: string)
    requires WritableLines(event.lines)
    ensures WritableLines(Lf(event.lines))
    ensures Normalize(Body(event.lines) + (LastEol(event.lines) + Eol(event.blank) + rest))
         == Body(Lf(event.lines)) + "\n\n" + Normalize(rest)
  {
    var ends := LastEol(event.lines) + Eol(event.blank);
    NormalizeBlank(event.lines[|event.lines| - 1].crlf, event.blank, rest);
    BodyShape(event.lines);
    var folded := Body(Lf(event.lines));
    hide *;
    NormalizeBody(event.lines, ends + rest);
    Associates(folded, "\n\n", Normalize(rest));
  }

  lemma NormalizeBlank(a: bool, b: bool, rest: string)
    ensures Normalize(Eol(a) + Eol(b) + rest) == "\n\n" + Normalize(rest)
  {
    hide *;
    Associates(Eol(a), Eol(b), rest);
    NormalizeEol(b, rest);
    NormalizeEol(a, Eol(b) + rest);
    assert "\n" + ("\n" + Normalize(rest)) == "\n\n" + Normalize(rest);
  }

  // ---- Frames ----

  lemma FieldShape(field: Field)
    requires Writable(field)
    ensures Closed(Show(field))
  {
    ShowsOneLine(field);
  }

  lemma {:induction false} BodyShape(lines: seq<Line>)
    requires WritableLines(lines)
    ensures WritableLines(Lf(lines)) && Closed(Body(Lf(lines)))
  {
    hide Writable, Closed, Show;
    FieldShape(lines[0].field);
    if |lines| > 1 {
      assert Lf(lines)[1..] == Lf(lines[1..]);
      BodyShape(lines[1..]);
      var first, body := Show(lines[0].field), Body(Lf(lines[1..]));
      ClosedJoin(first, body);
      Associates(first, "\n", body);
    }
  }

  lemma LfWritable(events: seq<Written>)
    requires WritableAll(events)
    ensures WritableAll(LfAll(events))
  {
    forall i | 0 <= i < |events| ensures WritableLines(Lf(events[i].lines)) {
      assert WritableLines(events[i].lines);
    }
  }

  lemma WrittenDrainsOne(event: Written, more: string)
    requires WritableLines(event.lines) && Stable(FindBlank)
    ensures WritableLines(Lf(event.lines))
    ensures var later := Drain(FindBlank, Normalize(more));
      Drain(FindBlank, Normalize(Body(event.lines) + (LastEol(event.lines) + Eol(event.blank) + more)))
      == Frames([Body(Lf(event.lines))] + later.frames, later.rest)
  {
    BodyShape(event.lines);
    var body := Body(Lf(event.lines));
    hide *;
    NormalizeEvent(event, more);
    OneFrame(body, Normalize(more));
  }

  lemma LfBodies(events: seq<Written>)
    requires WritableAll(events) && events != []
    ensures WritableAll(LfAll(events)) && WritableAll(LfAll(events[1..]))
    ensures WritableLines(events[0].lines) && WritableLines(Lf(events[0].lines))
    ensures Bodies(LfAll(events)) == [Body(Lf(events[0].lines))] + Bodies(LfAll(events[1..]))
  {
    LfWritable(events);
    LfWritable(events[1..]);
    assert WritableLines(LfAll(events)[0].lines);
    hide Body, Writable;
    assert LfAll(events)[1..] == LfAll(events[1..]);
  }

  /** A written text, folded and taken apart. */
  lemma {:induction false} WrittenDrains(events: seq<Written>, rest: string)
    requires WritableAll(events) && Stable(FindBlank)
    ensures WritableAll(LfAll(events))
    ensures var later := Drain(FindBlank, Normalize(rest));
      Drain(FindBlank, Normalize(Encode(events) + rest)) == Frames(Bodies(LfAll(events)) + later.frames, later.rest)
  {
    LfWritable(events);
    if events == [] {
      hide Stable, FindBlank, Drain, Normalize;
      assert "" + rest == rest;
      assert [] + Drain(FindBlank, Normalize(rest)).frames == Drain(FindBlank, Normalize(rest)).frames;
    } else {
      hide *;
      var body := Body(Lf(events[0].lines));
      LfBodies(events);
      EncodeJoin(events, rest);
      WrittenDrainsOne(events[0], Encode(events[1..]) + rest);
      WrittenDrains(events[1..], rest);
      ConsAppend(body, Bodies(LfAll(events[1..])), Drain(FindBlank, Normalize(rest)).frames);
    }
  }

  lemma EncodeJoin(events: seq<Written>, rest: string)
    requires WritableAll(events) && events != []
    ensures WritableAll(events[1..])
    ensures Encode(events) + rest
         == Body(events[0].lines) + (LastEol(events[0].lines) + Eol(events[0].blank) + (Encode(events[1..]) + rest))
  {
    hide Body, LastEol;
    var body, ends, more := Body(events[0].lines), LastEol(events[0].lines) + Eol(events[0].blank), Encode(events[1..]);
    Associates(body, ends + more, rest);
    Associates(ends, more, rest);
  }

  // ---- Data ----

  lemma {:induction false} LinesOfBody(lines: seq<Line>)
    requires WritableLines(lines)
    ensures WritableLines(Lf(lines)) && Lines(Body(Lf(lines))) == W.Texts(lines)
  {
    var first := Show(lines[0].field);
    ShowsOneLine(lines[0].field);
    hide Writable, Show, Lines;
    if |lines| == 1 {
      assert lines[1..] == [] && W.Texts([]) == [];
      LinesOfOne(first);
    } else {
      assert Lf(lines)[1..] == Lf(lines[1..]);
      LinesOfBody(lines[1..]);
      LinesOfMore(first, Body(Lf(lines[1..])));
      Associates(first, "\n", Body(Lf(lines[1..])));
    }
  }

  /** The data of a folded body is the event's data: other lines say nothing. */
  lemma BodyData(lines: seq<Line>)
    requires WritableLines(lines)
    ensures WritableLines(Lf(lines)) && Data(Body(Lf(lines))) == Paragraph(Values(lines))
  {
    LinesOfBody(lines);
    DataOfTexts(lines);
    JoinIsParagraph(Values(lines));
    hide Lines, Body, W.Texts, Values, Paragraph, Writable;
  }

  lemma LfBodiesEnd(events: seq<Written>)
    requires WritableAll(events) && events != []
    ensures var n := |events| - 1;
      && WritableAll(events[..n]) && WritableAll(LfAll(events)) && WritableAll(LfAll(events[..n]))
      && WritableLines(events[n].lines) && WritableLines(Lf(events[n].lines))
      && Bodies(LfAll(events)) == Bodies(LfAll(events[..n])) + [Body(Lf(events[n].lines))]
  {
    var n := |events| - 1;
    LfWritable(events);
    LfWritable(events[..n]);
    assert WritableLines(LfAll(events)[n].lines);
    hide Body, Writable;
    assert LfAll(events)[..n] == LfAll(events[..n]);
  }

  lemma {:induction false} ToldFolded(events: seq<Written>)
    requires WritableAll(events)
    ensures WritableAll(LfAll(events)) && FramesTold(Bodies(LfAll(events)), Data) == Told(events)
  {
    LfWritable(events);
    if events != [] {
      var n := |events| - 1;
      hide *;
      LfBodiesEnd(events);
      ToldFolded(events[..n]);
      BodyData(events[n].lines);
      FramesToldSnoc(Bodies(LfAll(events[..n])), Body(Lf(events[n].lines)), Data);
      ToldEnd(events);
    }
  }

  // ---- No CR CR LF ----

  /** Every CR begins a CRLF. */
  predicate CrsFold(s: string) {
    forall i :: 0 <= i < |s| && s[i] == '\r' ==> i + 1 < |s| && s[i + 1] == '\n'
  }

  lemma CrsFoldJoin(a: string, b: string)
    requires CrsFold(a) && CrsFold(b)
    ensures CrsFold(a + b)
  {
    var s := a + b;
    forall i | 0 <= i < |s| && s[i] == '\r' ensures i + 1 < |s| && s[i + 1] == '\n' {
      if i < |a| {
        assert a[i] == '\r';
      } else {
        assert b[i - |a|] == '\r';
      }
    }
  }

  lemma EolFolds(crlf: bool)
    ensures CrsFold(Eol(crlf))
  {
  }

  lemma {:induction false} BodyFolds(lines: seq<Line>)
    requires WritableLines(lines)
    ensures CrsFold(Body(lines))
  {
    ShowsOneLine(lines[0].field);
    assert CrsFold(Show(lines[0].field));
    hide CrsFold, Writable, Show;
    if |lines| > 1 {
      BodyFolds(lines[1..]);
      EolFolds(lines[0].crlf);
      CrsFoldJoin(Eol(lines[0].crlf), Body(lines[1..]));
      CrsFoldJoin(Show(lines[0].field), Eol(lines[0].crlf) + Body(lines[1..]));
    }
  }

  lemma {:induction false} EncodeFolds(events: seq<Written>)
    requires WritableAll(events)
    ensures CrsFold(Encode(events))
  {
    if events != [] {
      hide CrsFold, Writable, Body;
      EncodeFolds(events[1..]);
      BodyFolds(events[0].lines);
      EolFolds(events[0].lines[|events[0].lines| - 1].crlf);
      EolFolds(events[0].blank);
      var a, b := LastEol(events[0].lines), Eol(events[0].blank);
      CrsFoldJoin(a, b);
      CrsFoldJoin(a + b, Encode(events[1..]));
      CrsFoldJoin(Body(events[0].lines), a + b + Encode(events[1..]));
    }
  }

  // ---- The last event ----

  lemma TailFolds(tail: string, last: seq<Line>)
    requires Tail(tail, last)
    ensures CrsFold(tail + "\n\n")
  {
    if last != [] {
      BodyFolds(last);
      var rest := tail[|Body(last)|..];
      assert CrsFold(rest) && tail == Body(last) + rest;
      CrsFoldJoin(Body(last), rest);
    }
    hide Body, Writable;
    CrsFoldJoin(tail, "\n\n");
  }

  /** The closing blank line makes a frame of the last event; with none, an empty one that says nothing. */
  lemma TailTaken(tail: string, last: seq<Line>)
    requires Tail(tail, last) && Stable(FindBlank)
    ensures var frames := Drain(FindBlank, Normalize(tail + "\n\n")).frames;
      |frames| == 1 && Data(frames[0]) == Paragraph(Values(last))
  {
    if last == [] {
      assert Values(last) == [] && Paragraph([]) == "";
      hide *;
      NoTail();
    } else {
      var rest := TailParts(tail, last);
      hide *;
      LastTaken(last, rest);
    }
  }

  lemma NoTail()
    requires Stable(FindBlank)
    ensures Drain(FindBlank, Normalize("" + "\n\n")).frames == [""] && Data("") == ""
  {
    hide *;
    RestFolded("");
    assert "\n\n" + "" == "\n\n";
    ClosingFrame();
    EmptyFrame();
  }

  lemma LastTaken(last: seq<Line>, rest: string)
    requires WritableLines(last) && Stable(FindBlank) && (rest == "" || rest == "\n" || rest == "\r\n")
    ensures var frames := Drain(FindBlank, Normalize(Body(last) + (rest + "\n\n"))).frames;
      |frames| == 1 && Data(frames[0]) == Paragraph(Values(last))
  {
    BodyShape(last);
    var body, more := Body(Lf(last)), if rest == "" then "" else "\n";
    hide *;
    NormalizeBody(last, rest + "\n\n");
    RestFolded(rest);
    BodyData(last);
    Associates(body, "\n\n", more);
    NothingMore(more);
    OneFrame(body, more);
  }

  lemma TailParts(tail: string, last: seq<Line>) returns (rest: string)
    requires Tail(tail, last) && last != []
    ensures WritableLines(last) && (rest == "" || rest == "\n" || rest == "\r\n")
    ensures tail + "\n\n" == Body(last) + (rest + "\n\n")
  {
    hide Body, Writable;
    rest := tail[|Body(last)|..];
    Associates(Body(last), rest, "\n\n");
  }

  lemma RestFolded(rest: string)
    requires rest == "" || rest == "\n" || rest == "\r\n"
    ensures Normalize(rest + "\n\n") == "\n\n" + if rest == "" then "" else "\n"
  {
    assert Normalize("") == "" && Eol(false) == "\n" && Eol(true) == "\r\n";
    assert "\n" + "" == "\n" && "\n" + "\n" == "\n\n" && "" + "\n\n" == "\n\n" && "\n\n" + "" == "\n\n";
    hide *;
    NormalizeEol(false, "");
    NormalizeEol(false, "\n");
    if rest != "" {
      NormalizeEol(rest == "\r\n", "\n\n");
      assert "\n" + "\n\n" == "\n\n" + "\n";
    }
  }

  lemma NothingMore(more: string)
    requires Stable(FindBlank) && |more| <= 1
    ensures Drain(FindBlank, more) == Frames([], more)
  {
    assert FindBlank(more).None?;
    hide Stable, FindBlank;
    DrainStep(FindBlank, more);
  }

  lemma WrittenTaken(events: seq<Written>, tail: string, last: seq<Line>)
    requires WritableAll(events) && Tail(tail, last)
    ensures NoCrCrLf(Encode(events) + tail + "\n\n")
    ensures FramesTold(Take(Encode(events) + tail + "\n\n").frames, Data) == Told(events) + ToldLast(last)
  {
    BlanksAreStable();
    EncodeFolds(events);
    TailFolds(tail, last);
    CrsFoldJoin(Encode(events), tail + "\n\n");
    Associates(Encode(events), tail, "\n\n");
    FoldsClean(Encode(events) + (tail + "\n\n"));
    assert Take(Encode(events) + (tail + "\n\n")) == Drain(FindBlank, Normalize(Encode(events) + (tail + "\n\n")));
    hide Take, Drain, Normalize, Tail, CrsFold, NoCrCrLf, Stable, FindBlank, Data, Writable;
    WrittenDrains(events, tail + "\n\n");
    TailTaken(tail, last);
    ToldFolded(events);
    var frames := Drain(FindBlank, Normalize(tail + "\n\n")).frames;
    assert frames == [frames[0]];
    FramesToldSnoc(Bodies(LfAll(events)), frames[0], Data);
  }

  lemma FoldsClean(s: string)
    requires CrsFold(s)
    ensures NoCrCrLf(s)
  {
  }

  // ---- The chunks within the limit ----

  /** The size of the chunks together. */
  function Size(chunks: seq<Chunk>): nat {
    if chunks == [] then 0 else chunks[0].bytes + Size(chunks[1..])
  }

  lemma {:induction false} SizeSnoc(chunks: seq<Chunk>, chunk: Chunk)
    ensures Size(chunks + [chunk]) == Size(chunks) + chunk.bytes
  {
    if chunks == [] {
      assert [] + [chunk] == [chunk] && [chunk][1..] == [];
    } else {
      assert (chunks + [chunk])[0] == chunks[0] && (chunks + [chunk])[1..] == chunks[1..] + [chunk];
      SizeSnoc(chunks[1..], chunk);
    }
  }

  lemma {:induction false} SizeIsBytes(chunks: seq<Chunk>)
    ensures Bytes(chunks) == Size(chunks)
  {
    if chunks != [] {
      var n := |chunks| - 1;
      SizeIsBytes(chunks[..n]);
      SizeSnoc(chunks[..n], chunks[n]);
      assert chunks[..n] + [chunks[n]] == chunks;
    }
  }

  /** The first k chunks are UTF-8 and within the limit, and the next one, if there is one, is not. */
  predicate TakenUpTo(chunks: seq<Chunk>, k: nat, maxBytes: nat) {
    && k <= |chunks|
    && (forall i :: 0 <= i < k ==> chunks[i].text.Some?)
    && Size(chunks[..k]) <= maxBytes
    && (k < |chunks| ==> chunks[k].text.None? || Size(chunks[..k + 1]) > maxBytes)
  }

  lemma TakenExact(chunks: seq<Chunk>, k: nat, maxBytes: nat)
    ensures AcceptedCount(chunks, maxBytes) == k <==> TakenUpTo(chunks, k, maxBytes)
  {
    var j := AcceptedCount(chunks, maxBytes);
    forall i | 0 <= i <= |chunks| ensures Bytes(chunks[..i]) == Size(chunks[..i]) {
      SizeIsBytes(chunks[..i]);
    }
    hide Size, Bytes, AcceptedCount;
    if TakenUpTo(chunks, k, maxBytes) {
      if j < k {
        BytesGrow(chunks, j + 1, k);
      } else if k < j {
        BytesGrow(chunks, k + 1, j);
      }
    }
  }

  // ---- Sent is received ----

  /**
   * The data in turn is JSON for a record with a record result and no error; it stops at the first that is
   * no JSON, or is anything else.
   */
  ghost predicate AnswersUntil<T>(datas: seq<string>, values: seq<T>, failure: Option<string>,
      json: string -> Option<Message<T>>) {
    && |values| <= |datas|
    && (forall i :: 0 <= i < |values| ==> json(datas[i]) == Some(Message.Record(false, Some(values[i]))))
    && if failure.None? then |values| == |datas|
       else
         && |values| < |datas|
         && var answer := json(datas[|values|]);
         && !(answer.Some? && answer.value.Record? && !answer.value.hasError && answer.value.result.Some?)
         && failure == Some(if answer.None? then "Invalid A2A event stream." else "A2A request failed.")
  }

  lemma AnswersParse<T>(datas: seq<string>, values: seq<T>, failure: Option<string>,
      json: string -> Option<Message<T>>)
    requires AnswersUntil(datas, values, failure, json)
    ensures ParsesUntil(datas, values, failure, Replies(json))
  {
  }

  /**
   * Round trip: whatever a server writes, with either line end, with other fields between the data lines,
   * and with or without the last blank line, and however its text is cut into chunks within the limit, the
   * reader hands on exactly the events' results, in order; it stops with the first bad answer, or at the end.
   */
  lemma WrittenIsReceived<T>(events: seq<Written>, last: seq<Line>, tail: string, values: seq<T>,
      failure: Option<string>, chunks: seq<Chunk>, held: string, maxBytes: nat, json: string -> Option<Message<T>>)
    requires WritableAll(events) && Tail(tail, last)
    requires TakenUpTo(chunks, |chunks|, maxBytes)
    requires Concat(EventStream.Texts(chunks)) + held == Encode(events) + tail
    requires AnswersUntil(Told(events) + ToldLast(last), values, failure, json)
    ensures Outcome(chunks, Some(held), maxBytes, json) == Delivered(values, failure)
  {
    TakenExact(chunks, |chunks|, maxBytes);
    hide *;
    WrittenTaken(events, tail, last);
    WholeTextDecides(chunks, held, maxBytes, json);
    AnswersParse(Told(events) + ToldLast(last), values, failure, json);
    DeliverTold(Take(Encode(events) + tail + "\n\n").frames, Data, values, failure, Replies(json));
  }

  // ---- A stream that breaks off ----

  lemma OpenTailUnbroken(body: string, more: string)
    requires Closed(body) && (more == "" || more == "\n")
    ensures FindBlank(body + more).None?
  {
    var s := body + more;
    hide FindBlank;
    FindBlankExact(s);
    assert forall i :: 0 <= i < |body| ==> s[i] == body[i];
    assert forall i :: 1 <= i < |s| ==> !(s[i - 1] == '\n' && s[i] == '\n');
  }

  /** An event without its blank line gives no frame. */
  lemma OpenTailTaken(tail: string, last: seq<Line>)
    requires Tail(tail, last) && Stable(FindBlank)
    ensures Drain(FindBlank, Normalize(tail)).frames == []
  {
    if last == [] {
      assert Normalize("") == "" && FindBlank("").None?;
      hide Normalize, Stable, FindBlank, Drain;
      DrainStep(FindBlank, "");
    } else {
      var rest := TailRest(tail, last);
      BodyShape(last);
      var body, more := Body(Lf(last)), if rest == "" then "" else "\n";
      hide *;
      NormalizeBody(last, rest);
      RestAlone(rest);
      OpenTailUnbroken(body, more);
      DrainStep(FindBlank, body + more);
    }
  }

  lemma TailRest(tail: string, last: seq<Line>) returns (rest: string)
    requires Tail(tail, last) && last != []
    ensures WritableLines(last) && (rest == "" || rest == "\n" || rest == "\r\n") && tail == Body(last) + rest
  {
    hide Body, Writable;
    rest := tail[|Body(last)|..];
  }

  lemma RestAlone(rest: string)
    requires rest == "" || rest == "\n" || rest == "\r\n"
    ensures Normalize(rest) == if rest == "" then "" else "\n"
  {
    assert Normalize("") == "" && Eol(false) == "\n" && Eol(true) == "\r\n";
    assert "\n" + "" == "\n" && "\r\n" + "" == "\r\n";
    hide Normalize;
    NormalizeEol(false, "");
    NormalizeEol(true, "");
  }

  lemma OpenTaken(events: seq<Written>, tail: string, last: seq<Line>)
    requires WritableAll(events) && Tail(tail, last)
    ensures NoCrCrLf(Encode(events) + tail)
    ensures FramesTold(Take(Encode(events) + tail).frames, Data) == Told(events)
  {
    BlanksAreStable();
    OpenTailFolds(tail, last);
    assert Take(Encode(events) + tail) == Drain(FindBlank, Normalize(Encode(events) + tail));
    hide *;
    EncodeFolds(events);
    CrsFoldJoin(Encode(events), tail);
    FoldsClean(Encode(events) + tail);
    WrittenDrains(events, tail);
    OpenTailTaken(tail, last);
    ToldFolded(events);
    assert Bodies(LfAll(events)) + [] == Bodies(LfAll(events));
  }

  lemma OpenTailFolds(tail: string, last: seq<Line>)
    requires Tail(tail, last)
    ensures CrsFold(tail)
  {
    if last != [] {
      BodyFolds(last);
      var rest := tail[|Body(last)|..];
      assert CrsFold(rest) && tail == Body(last) + rest;
      CrsFoldJoin(Body(last), rest);
    }
  }

  /**
   * A stream that breaks off, at a chunk that is not UTF-8 or passes the limit, or inside a character at the
   * end: exactly the events whose blank line had arrived are handed on, then comes the error.
   */
  lemma BreaksOff<T>(events: seq<Written>, last: seq<Line>, tail: string, values: seq<T>, failure: Option<string>,
      chunks: seq<Chunk>, k: nat, held: Option<string>, maxBytes: nat, json: string -> Option<Message<T>>)
    requires WritableAll(events) && Tail(tail, last)
    requires TakenUpTo(chunks, k, maxBytes) && (k < |chunks| || held.None?)
    requires Concat(EventStream.Texts(chunks[..k])) == Encode(events) + tail
    requires AnswersUntil(Told(events), values, failure, json)
    ensures var error := if k < |chunks| && chunks[k].text.Some? then "A2A response exceeded byte limit."
                         else "Invalid A2A event stream.";
      Outcome(chunks, held, maxBytes, json) == Delivered(values, if failure.Some? then failure else Some(error))
  {
    var texts := EventStream.Texts(chunks[..k]);
    TakenExact(chunks, k, maxBytes);
    BrokenOutcome(chunks, held, maxBytes, json);
    hide *;
    OpenTaken(events, tail, last);
    ChunksTakeWhole(texts);
    AnswersParse(Told(events), values, failure, json);
    DeliverTold(TakeAll(texts).frames, Data, values, failure, Replies(json));
  }

  lemma BrokenOutcome<T>(chunks: seq<Chunk>, held: Option<string>, maxBytes: nat, json: string -> Option<Message<T>>)
    requires AcceptedCount(chunks, maxBytes) < |chunks| || held.None?
    ensures var k := AcceptedCount(chunks, maxBytes);
      var d := Deliver(TakeAll(EventStream.Texts(chunks[..k])).frames, Data, Replies(json));
      var error := if k < |chunks| && chunks[k].text.Some? then "A2A response exceeded byte limit."
                   else "Invalid A2A event stream.";
      Outcome(chunks, held, maxBytes, json) == if d.failure.Some? then d else Delivered(d.events, Some(error))
  {
    hide TakeAll, Deliver, Data, Replies, AcceptedCount;
  }
}
