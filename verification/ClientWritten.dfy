/** What the browser client's reader hands on of a written event stream. */
module ClientWritten {
  import opened ClientEvents
  import opened EventFrames
  import opened EventWritten
  import opened Wrappers

  // ---- Lines ----

  lemma {:induction false} LinesOfOne(line: string)
    requires OneLine(line)
    ensures Lines(line) == [line]
  {
    if line != "" {
      LinesOfOne(line[1..]);
      assert [line[0]] + line[1..] == line;
    }
  }

  lemma LinesOfEol(crlf: bool, rest: string)
    ensures Lines(Eol(crlf) + rest) == [""] + Lines(rest)
  {
    var text := Eol(crlf) + rest;
    if crlf {
      assert text[0] == '\r' && text[1] == '\n' && text[2..] == rest;
    } else {
      assert text[0] == '\n' && text[1..] == rest;
    }
  }

  lemma {:induction false} LinesOfMore(line: string, crlf: bool, rest: string)
    requires OneLine(line)
    ensures Lines(line + (Eol(crlf) + rest)) == [line] + Lines(rest)
  {
    var text := line + (Eol(crlf) + rest);
    if line == "" {
      LinesOfEol(crlf, rest);
      assert text == Eol(crlf) + rest;
    } else {
      LinesOfMore(line[1..], crlf, rest);
      assert text[1..] == line[1..] + (Eol(crlf) + rest) && text[0] == line[0];
      assert [line[0]] + line[1..] == line;
    }
  }

  lemma {:induction false} LinesOfBody(lines: seq<Line>)
    requires WritableLines(lines)
    ensures Lines(Body(lines)) == Texts(lines)
    ensures forall crlf :: Lines(Body(lines) + Eol(crlf)) == Texts(lines) + [""]
  {
    var first := Show(lines[0].field);
    ShowsOneLine(lines[0].field);
    assert lines[..1] + lines[1..] == lines;
    hide Writable, Show, Lines;
    if |lines| == 1 {
      assert Texts(lines) == [first] by {
        assert lines[1..] == [] && Texts(lines[1..]) == [];
      }
      LinesOfOne(first);
      forall crlf ensures Lines(first + Eol(crlf)) == [first] + [""] {
        LinesOfMore(first, crlf, "");
        assert first + (Eol(crlf) + "") == first + Eol(crlf);
        LinesOfOne("");
      }
    } else {
      LinesOfBody(lines[1..]);
      LinesOfMore(first, lines[0].crlf, Body(lines[1..]));
      forall crlf ensures Lines(Body(lines) + Eol(crlf)) == Texts(lines) + [""] {
        LinesOfMore(first, lines[0].crlf, Body(lines[1..]) + Eol(crlf));
        Associates(first, Eol(lines[0].crlf) + Body(lines[1..]), Eol(crlf));
        Associates(Eol(lines[0].crlf), Body(lines[1..]), Eol(crlf));
        Associates([first], Texts(lines[1..]), [""]);
      }
    }
  }

  /** The data of a body is the event's data, with or without a line end behind it. */
  lemma BodyData(lines: seq<Line>)
    requires WritableLines(lines) && EndsTrimmed(lines)
    ensures Data(Body(lines)) == Paragraph(Values(lines))
    ensures forall crlf :: Data(Body(lines) + Eol(crlf)) == Paragraph(Values(lines))
  {
    LinesOfBody(lines);
    DataOfTexts(lines);
    JoinIsParagraph(Values(lines));
    hide Lines, Body, Texts, Values, Paragraph, Writable;
    DataOfMore(Texts(lines), Trim);
  }

  // ---- Where a body ends ----

  function Shift(cut: Option<Cut>, n: nat): Option<Cut> {
    match cut
    case None => None
    case Some(c) => Some(Cut(c.index + n, c.length))
  }

  /** Nothing is found inside a line. */
  lemma {:induction false} SkipLine(line: string, rest: string)
    requires OneLine(line)
    ensures FindBreak(line + rest) == Shift(FindBreak(rest), |line|)
  {
    hide FindBreak;
    if line == "" {
      assert line + rest == rest;
    } else {
      TailOfJoin(line, rest);
      SkipChar(line + rest);
      SkipLine(line[1..], rest);
    }
  }

  lemma TailOfJoin(line: string, rest: string)
    requires line != ""
    ensures line + rest != "" && (line + rest)[0] == line[0] && (line + rest)[1..] == line[1..] + rest
    ensures OneLine(line) ==> OneLine(line[1..])
  {
  }

  lemma SkipChar(s: string)
    requires s != "" && s[0] != '\n' && s[0] != '\r'
    ensures FindBreak(s) == Shift(FindBreak(s[1..]), 1)
  {
  }

  /** A line end is no blank line when another line follows. */
  lemma SkipEol(crlf: bool, rest: string)
    requires rest != "" ==> rest[0] != '\n' && rest[0] != '\r'
    ensures FindBreak(Eol(crlf) + rest) == Shift(FindBreak(rest), |Eol(crlf)|)
  {
    var text := Eol(crlf) + rest;
    if crlf {
      assert text[0] == '\r' && text[1] == '\n' && text[2..] == rest;
      assert rest != "" ==> text[2] == rest[0];
      assert text[1..][0] == '\n' && text[1..][1..] == rest;
      assert rest != "" ==> text[1..][1] == rest[0];
      assert BreakLength(text).None? && BreakLength(text[1..]).None?;
    } else {
      assert text[0] == '\n' && text[1..] == rest;
      assert rest != "" ==> text[1] == rest[0];
      assert BreakLength(text).None?;
    }
  }

  lemma BlankFound(a: bool, b: bool, rest: string)
    ensures FindBreak(Eol(a) + (Eol(b) + rest)) == Some(Cut(0, |Eol(a)| + |Eol(b)|))
  {
    var text := Eol(a) + (Eol(b) + rest);
    assert BreakLength(text) == Some(|Eol(a)| + |Eol(b)|) by {
      hide FindBreak;
      if a {
        assert text[0] == '\r' && text[1] == '\n';
        assert if b then text[2] == '\r' && text[3] == '\n' else text[2] == '\n';
      } else {
        assert text[0] == '\n';
        assert if b then text[1] == '\r' && text[2] == '\n' else text[1] == '\n';
      }
    }
    hide BreakLength, Eol;
  }

  lemma BodyStarts(lines: seq<Line>, rest: string)
    requires WritableLines(lines)
    ensures var text := Body(lines) + rest; text != "" && text[0] != '\n' && text[0] != '\r'
  {
    ShowsOneLine(lines[0].field);
    assert Body(lines)[0] == Show(lines[0].field)[0];
  }

  /** A body holds no blank line. */
  lemma {:induction false} SkipBody(lines: seq<Line>, rest: string)
    requires WritableLines(lines)
    ensures FindBreak(Body(lines) + rest) == Shift(FindBreak(rest), |Body(lines)|)
  {
    hide FindBreak, Writable, Shift;
    if |lines| == 1 {
      ShowsOneLine(lines[0].field);
      SkipLine(Show(lines[0].field), rest);
    } else {
      hide Body, Show;
      SkipBody(lines[1..], rest);
      SkipMore(lines, rest);
    }
  }

  lemma SkipMore(lines: seq<Line>, rest: string)
    requires WritableLines(lines) && |lines| > 1
    requires FindBreak(Body(lines[1..]) + rest) == Shift(FindBreak(rest), |Body(lines[1..])|)
    ensures FindBreak(Body(lines) + rest) == Shift(FindBreak(rest), |Body(lines)|)
  {
    hide *;
    BodyJoin(lines, rest);
    LinesStart(lines, rest);
    SkipThree(Show(lines[0].field), lines[0].crlf, Body(lines[1..]), rest);
  }

  lemma LinesStart(lines: seq<Line>, rest: string)
    requires WritableLines(lines) && |lines| > 1
    ensures WritableLines(lines[1..]) && OneLine(Show(lines[0].field))
    ensures var text := Body(lines[1..]) + rest; text != "" && text[0] != '\n' && text[0] != '\r'
  {
    ShowsOneLine(lines[0].field);
    hide Writable, Show, OneLine, Body;
    BodyStarts(lines[1..], rest);
  }

  lemma SkipThree(first: string, crlf: bool, body: string, rest: string)
    requires OneLine(first) && body + rest != "" && (body + rest)[0] != '\n' && (body + rest)[0] != '\r'
    requires FindBreak(body + rest) == Shift(FindBreak(rest), |body|)
    ensures FindBreak(first + (Eol(crlf) + (body + rest)))
         == Shift(FindBreak(rest), |body| + |Eol(crlf)| + |first|)
  {
    hide *;
    SkipEol(crlf, body + rest);
    SkipLine(first, Eol(crlf) + (body + rest));
    Shifts(FindBreak(rest), |body|, |Eol(crlf)|, |first|);
  }

  lemma BodyJoin(lines: seq<Line>, rest: string)
    requires WritableLines(lines) && |lines| > 1
    ensures WritableLines(lines[1..])
    ensures var first, eol, body := Show(lines[0].field), Eol(lines[0].crlf), Body(lines[1..]);
      && Body(lines) + rest == first + (eol + (body + rest))
      && |Body(lines)| == |body| + |eol| + |first|
  {
    hide Writable, Show;
    var first, eol, body := Show(lines[0].field), Eol(lines[0].crlf), Body(lines[1..]);
    Associates(first, eol + body, rest);
    Associates(eol, body, rest);
  }

  lemma Shifts(cut: Option<Cut>, a: nat, b: nat, c: nat)
    ensures Shift(Shift(Shift(cut, a), b), c) == Shift(cut, a + b + c)
  {
  }

  /** The blank line behind a body is the first one found. */
  lemma EventFound(event: Written, rest: string)
    requires WritableLines(event.lines)
    ensures var body, ends := Body(event.lines), LastEol(event.lines) + Eol(event.blank);
      FindBreak(body + (ends + rest)) == Some(Cut(|body|, |ends|))
  {
    var a, b := event.lines[|event.lines| - 1].crlf, event.blank;
    hide FindBreak, Writable, Body;
    BlankFound(a, b, rest);
    Associates(Eol(a), Eol(b), rest);
    SkipBody(event.lines, Eol(a) + (Eol(b) + rest));
  }

  // ---- The whole text ----

  lemma TailUnbroken(tail: string, last: seq<Line>)
    requires Tail(tail, last)
    ensures FindBreak(tail).None?
  {
    if last != [] {
      var rest := tail[|Body(last)|..];
      assert tail == Body(last) + rest && (rest == "" || rest == Eol(false) || rest == Eol(true));
      SkipBody(last, rest);
      SkipEol(true, "");
      SkipEol(false, "");
      assert Eol(true) + "" == Eol(true) && Eol(false) + "" == Eol(false);
      assert FindBreak("").None?;
    }
  }

  lemma {:induction false} EncodeDrains(events: seq<Written>, tail: string)
    requires WritableAll(events) && Stable(FindBreak) && FindBreak(tail).None?
    ensures Drain(FindBreak, Encode(events) + tail) == Frames(Bodies(events), tail)
  {
    hide Stable, FindBreak, Drain, Body, Writable, LastEol;
    if events == [] {
      assert "" + tail == tail;
      DrainStep(FindBreak, tail);
    } else {
      var body, ends := Body(events[0].lines), LastEol(events[0].lines) + Eol(events[0].blank);
      var more := Encode(events[1..]) + tail;
      EventFound(events[0], more);
      Associates(body, ends + Encode(events[1..]), tail);
      Associates(ends, Encode(events[1..]), tail);
      Associates(LastEol(events[0].lines), Eol(events[0].blank), Encode(events[1..]));
      var text := body + (ends + more);
      DrainStep(FindBreak, text);
      Cuts(body, ends, more);
      EncodeDrains(events[1..], tail);
      assert Bodies(events) == [body] + Bodies(events[1..]);
    }
  }

  lemma Cuts(body: string, ends: string, more: string)
    ensures var text := body + (ends + more);
      text[..|body|] == body && text[|body| + |ends|..] == more
  {
  }

  /**
   * Round trip: whatever a server writes, with either line end, with other fields between the data lines,
   * and with or without the last blank line, the reader hands on exactly the events' values, in order; it
   * stops with the first failure to parse, or at the end.
   */
  lemma WrittenIsReceived<T>(events: seq<Written>, last: seq<Line>, tail: string, values: seq<T>,
      failure: Option<string>, chunks: seq<string>, parse: string -> Parsed<T>)
    requires WritableAll(events) && Tail(tail, last)
    requires EndsTrimmed(last) && forall i :: 0 <= i < |events| ==> EndsTrimmed(events[i].lines)
    requires Concat(chunks) == Encode(events) + tail
    requires ParsesUntil(Told(events) + ToldLast(last), values, failure, parse)
    ensures Deliver(WholeFrames(Concat(chunks)), Data, parse) == Delivered(values, failure)
  {
    BreaksAreStable();
    TailUnbroken(tail, last);
    forall i | 0 <= i < |events| ensures Data(Body(events[i].lines)) == Paragraph(Values(events[i].lines)) {
      BodyData(events[i].lines);
    }
    assert WholeFrames(Encode(events) + tail) == Drain(FindBreak, Encode(events) + tail).frames
      + if Trim(Drain(FindBreak, Encode(events) + tail).rest) != "" then [Drain(FindBreak, Encode(events) + tail).rest]
        else [];
    hide *;
    EncodeDrains(events, tail);
    BodiesTold(events, Data);
    TailTold(Bodies(events), tail, last);
    DeliverTold(WholeFrames(Concat(chunks)), Data, values, failure, parse);
  }

  /** The rest is read when it is not blank, and a blank rest holds no data. */
  lemma TailTold(frames: seq<string>, tail: string, last: seq<Line>)
    requires Tail(tail, last) && EndsTrimmed(last)
    ensures FramesTold(frames + (if Trim(tail) != "" then [tail] else []), Data)
         == FramesTold(frames, Data) + ToldLast(last)
  {
    if last == [] {
      assert Trim("") == "" && frames + [] == frames;
      assert ToldLast([]) == [];
    } else {
      BodyData(last);
      assert Data(tail) == Paragraph(Values(last)) by {
        assert Eol(true) == "\r\n" && Eol(false) == "\n";
      }
      hide Data, Body, Writable, FramesTold;
      if Trim(tail) != "" {
        FramesToldSnoc(frames, tail, Data);
      } else {
        BlankSaysNothing(tail, last);
        assert frames + [] == frames;
      }
    }
  }

  lemma BlankSaysNothing(tail: string, last: seq<Line>)
    requires last != [] && Tail(tail, last) && Trim(tail) == ""
    ensures Paragraph(Values(last)) == ""
  {
    hide Writable, Body, IsSpace, Trim;
    TrimBlank(tail);
    assert forall i :: 0 <= i < |Body(last)| ==> Body(last)[i] == tail[i];
    if Values(last) != [] {
      BodyNotBlank(last);
    }
  }
}
