/**
 * Event streams as servers write them: LF or CRLF behind each line, comments and other fields between the
 * data lines, and the last event with or without its blank line. Both readers hand on exactly the data.
 */
module EventWritten {
  import opened EventFrames
  import opened Wrappers

  // ---- Written events ----

  datatype Field = DataField(value: string, spaced: bool) | OtherField(text: string)

  datatype Line = Line(field: Field, crlf: bool)

  /** The lines of an event, and the line end of the blank line that closes it. */
  datatype Written = Written(lines: seq<Line>, blank: bool)

  predicate OneLine(s: string) {
    forall i :: 0 <= i < |s| ==> s[i] != '\n' && s[i] != '\r'
  }

  /** No white space at its start, which both readers trim. */
  predicate StartTrimmed(s: string) {
    s == "" || !IsSpace(s[0])
  }

  /** No white space at its end, which the browser client trims as well. */
  predicate EndTrimmed(s: string) {
    s == "" || !IsSpace(s[|s| - 1])
  }

  /** Data in one line, or any other line, such as a comment, an event type or an id. */
  predicate Writable(field: Field) {
    match field
    case DataField(value, _) => OneLine(value) && StartTrimmed(value)
    case OtherField(text) => text != "" && OneLine(text) && !("data:" <= text)
  }

  predicate WritableLines(lines: seq<Line>) {
    lines != [] && forall i :: 0 <= i < |lines| ==> Writable(lines[i].field)
  }

  predicate WritableAll(events: seq<Written>) {
    forall i :: 0 <= i < |events| ==> WritableLines(events[i].lines)
  }

  /** Data without white space at its ends. */
  predicate EndsTrimmed(lines: seq<Line>) {
    forall i :: 0 <= i < |lines| && lines[i].field.DataField? ==> EndTrimmed(lines[i].field.value)
  }

  function Show(field: Field): string {
    match field
    case DataField(value, spaced) => (if spaced then "data: " else "data:") + value
    case OtherField(text) => text
  }

  function Eol(crlf: bool): string {
    if crlf then "\r\n" else "\n"
  }

  /** The lines with their line ends between them. */
  function Body(lines: seq<Line>): string
    requires lines != []
  {
    if |lines| == 1 then Show(lines[0].field) else Show(lines[0].field) + (Eol(lines[0].crlf) + Body(lines[1..]))
  }

  function LastEol(lines: seq<Line>): string
    requires lines != []
  {
    Eol(lines[|lines| - 1].crlf)
  }

  function Encode(events: seq<Written>): string
    requires WritableAll(events)
  {
    if events == [] then ""
    else Body(events[0].lines) + (LastEol(events[0].lines) + Eol(events[0].blank) + Encode(events[1..]))
  }

  function Bodies(events: seq<Written>): (bodies: seq<string>)
    requires WritableAll(events)
    ensures |bodies| == |events| && forall i :: 0 <= i < |events| ==> bodies[i] == Body(events[i].lines)
  {
    seq(|events|, i requires 0 <= i < |events| => Body(events[i].lines))
  }

  // ---- What an event says ----

  function Values(lines: seq<Line>): seq<string> {
    if lines == [] then []
    else (if lines[0].field.DataField? then [lines[0].field.value] else []) + Values(lines[1..])
  }

  function Texts(lines: seq<Line>): seq<string> {
    if lines == [] then [] else [Show(lines[0].field)] + Texts(lines[1..])
  }

  /** The values of the data lines, with an LF between each two. */
  function Paragraph(values: seq<string>): string {
    if values == [] then "" else values[0] + MoreLines(values[1..])
  }

  function MoreLines(values: seq<string>): string {
    if values == [] then "" else "\n" + values[0] + MoreLines(values[1..])
  }

  lemma {:induction false} JoinIsParagraph(values: seq<string>)
    ensures JoinLines(values) == Paragraph(values)
  {
    if |values| == 1 {
      assert values[1..] == [] && values[0] + "" == values[0];
    } else if |values| > 1 {
      JoinIsParagraph(values[1..]);
      Associates(values[0], "\n", JoinLines(values[1..]));
      Associates("\n", values[1], MoreLines(values[1..][1..]));
    }
  }

  /** The data of each event that has any. */
  function Told(events: seq<Written>): seq<string> {
    if events == [] then []
    else
      var data := Paragraph(Values(events[|events| - 1].lines));
      Told(events[..|events| - 1]) + if data == "" then [] else [data]
  }

  /** What may stand behind the last blank line: nothing, or one more event without its blank line. */
  predicate Tail(tail: string, last: seq<Line>) {
    if last == [] then tail == ""
    else WritableLines(last) && (tail == Body(last) || tail == Body(last) + "\n" || tail == Body(last) + "\r\n")
  }

  function ToldLast(last: seq<Line>): seq<string> {
    if Paragraph(Values(last)) == "" then [] else [Paragraph(Values(last))]
  }

  /**
   * The data in turn parses to the values; it stops with a failure at the first that does not parse,
   * or with none at the end.
   */
  ghost predicate ParsesUntil<T>(datas: seq<string>, values: seq<T>, failure: Option<string>,
      parse: string -> Parsed<T>) {
    && |values| <= |datas|
    && (forall i :: 0 <= i < |values| ==> parse(datas[i]) == Event(values[i]))
    && if failure.None? then |values| == |datas|
       else |values| < |datas| && parse(datas[|values|]) == Failed(failure.value)
  }

  // ---- From frames to events ----

  /** The data of each frame that has any. */
  function FramesTold(frames: seq<string>, data: string -> string): seq<string> {
    if frames == [] then []
    else
      var last := data(frames[|frames| - 1]);
      FramesTold(frames[..|frames| - 1], data) + if last == "" then [] else [last]
  }

  lemma FramesToldSnoc(frames: seq<string>, frame: string, data: string -> string)
    ensures FramesTold(frames + [frame], data)
         == FramesTold(frames, data) + if data(frame) == "" then [] else [data(frame)]
  {
    assert (frames + [frame])[..|frames|] == frames;
  }

  lemma ParsesPrefix<T>(datas: seq<string>, last: string, values: seq<T>, failure: Option<string>,
      parse: string -> Parsed<T>)
    requires ParsesUntil(datas + [last], values, failure, parse)
    ensures |values| < |datas| ==> ParsesUntil(datas, values, failure, parse)
    ensures |values| == |datas| ==>
      ParsesUntil(datas, values, None, parse) && failure.Some? && parse(last) == Failed(failure.value)
    ensures |values| > |datas| ==>
      |values| == |datas| + 1 && failure.None? && parse(last) == Event(values[|datas|])
      && ParsesUntil(datas, values[..|datas|], None, parse)
  {
    var all := datas + [last];
    assert forall i :: 0 <= i < |datas| ==> all[i] == datas[i];
    assert all[|datas|] == last;
    if |values| > |datas| {
      assert failure.None?;
    }
  }

  /** Frames are delivered as the values their data parses to, up to the first failure. */
  lemma {:induction false} DeliverTold<T>(frames: seq<string>, data: string -> string, values: seq<T>,
      failure: Option<string>, parse: string -> Parsed<T>)
    requires ParsesUntil(FramesTold(frames, data), values, failure, parse)
    ensures Deliver(frames, data, parse) == Delivered(values, failure)
    decreases |frames|, 2
  {
    if frames == [] {
      DeliverNone(values, failure, data, parse);
    } else {
      var n := |frames| - 1;
      var init, last := frames[..n], data(frames[n]);
      var before := FramesTold(init, data);
      assert frames == init + [frames[n]];
      FramesToldSnoc(init, frames[n], data);
      hide FramesTold, Deliver;
      if last == "" {
        assert before + [] == before;
        DeliverTold(init, data, values, failure, parse);
        if failure.None? {
          DeliverSnoc(init, frames[n], data, parse);
        } else {
          FailureStays(init, frames, data, parse);
        }
      } else {
        ParsesPrefix(before, last, values, failure, parse);
        hide ParsesUntil;
        DeliverLast(init, frames[n], data, values, failure, parse);
      }
    }
  }

  lemma DeliverNone<T>(values: seq<T>, failure: Option<string>, data: string -> string, parse: string -> Parsed<T>)
    requires ParsesUntil(FramesTold([], data), values, failure, parse)
    ensures Deliver([], data, parse) == Delivered(values, failure)
  {
  }

  lemma {:induction false} DeliverLast<T>(init: seq<string>, frame: string, data: string -> string, values: seq<T>,
      failure: Option<string>, parse: string -> Parsed<T>)
    requires data(frame) != ""
    requires var before := FramesTold(init, data);
      if |values| < |before| then ParsesUntil(before, values, failure, parse) && failure.Some?
      else if |values| == |before| then
        ParsesUntil(before, values, None, parse) && failure.Some? && parse(data(frame)) == Failed(failure.value)
      else
        && |values| == |before| + 1 && failure.None? && parse(data(frame)) == Event(values[|before|])
        && ParsesUntil(before, values[..|before|], None, parse)
    ensures Deliver(init + [frame], data, parse) == Delivered(values, failure)
    decreases |init| + 1, 1
  {
    var before := FramesTold(init, data);
    hide FramesTold, Deliver, ParsesUntil;
    if |values| < |before| {
      DeliverTold(init, data, values, failure, parse);
      FailureStays(init, init + [frame], data, parse);
    } else {
      assert |values| > |before| ==> values[..|before|] + [values[|before|]] == values;
      assert |values| == |before| ==> values[..|before|] == values;
      DeliverTold(init, data, values[..|before|], None, parse);
      DeliverSnoc(init, frame, data, parse);
    }
  }

  /** A reader whose data of each body is the event's data. */
  lemma {:induction false} BodiesTold(events: seq<Written>, data: string -> string)
    requires WritableAll(events)
    requires forall i :: 0 <= i < |events| ==> data(Body(events[i].lines)) == Paragraph(Values(events[i].lines))
    ensures FramesTold(Bodies(events), data) == Told(events)
  {
    if events != [] {
      var n := |events| - 1;
      BodiesEnd(events);
      assert data(Body(events[n].lines)) == Paragraph(Values(events[n].lines));
      hide *;
      BodiesTold(events[..n], data);
      FramesToldSnoc(Bodies(events[..n]), Body(events[n].lines), data);
      ToldEnd(events);
    }
  }

  lemma BodiesEnd(events: seq<Written>)
    requires WritableAll(events) && events != []
    ensures var n := |events| - 1;
      && WritableAll(events[..n]) && WritableLines(events[n].lines)
      && Bodies(events) == Bodies(events[..n]) + [Body(events[n].lines)]
  {
    hide Body, Writable;
  }

  lemma ToldEnd(events: seq<Written>)
    requires events != []
    ensures var n := |events| - 1;
      var data := Paragraph(Values(events[n].lines));
      Told(events) == Told(events[..n]) + if data == "" then [] else [data]
  {
  }

  // ---- Reading lines ----

  lemma ShowsOneLine(field: Field)
    requires Writable(field)
    ensures OneLine(Show(field)) && Show(field) != ""
  {
  }

  lemma {:induction false} TrimStartKeeps(s: string)
    requires StartTrimmed(s)
    ensures TrimStart(s) == s && TrimStart(" " + s) == s
    ensures EndTrimmed(s) ==> TrimEnd(s) == s
  {
    assert IsSpace(' ');
    assert (" " + s)[1..] == s;
  }

  /** The value of a data line is its value, whichever side is trimmed. */
  lemma ValueRead(value: string, spaced: bool)
    requires StartTrimmed(value)
    ensures var text := Show(DataField(value, spaced));
      && "data:" <= text && TrimStart(text[5..]) == value
      && (EndTrimmed(value) ==> Trim(text[5..]) == value)
  {
    var text := Show(DataField(value, spaced));
    TrimStartKeeps(value);
    hide TrimStart, TrimEnd, IsSpace;
    assert text[5..] == if spaced then " " + value else value;
  }

  /** Only the data lines are read, each as its value. */
  lemma {:induction false} DataOfTexts(lines: seq<Line>)
    requires forall i :: 0 <= i < |lines| ==> Writable(lines[i].field)
    ensures DataOf(Texts(lines), TrimStart) == Values(lines)
    ensures EndsTrimmed(lines) ==> DataOf(Texts(lines), Trim) == Values(lines)
  {
    if lines != [] {
      DataOfTexts(lines[1..]);
      var texts := Texts(lines);
      assert texts[0] == Show(lines[0].field) && texts[1..] == Texts(lines[1..]);
      if lines[0].field.DataField? {
        ValueRead(lines[0].field.value, lines[0].field.spaced);
      }
    }
  }

  /** An empty line more is no data. */
  lemma {:induction false} DataOfMore(texts: seq<string>, trim: string -> string)
    ensures DataOf(texts + [""], trim) == DataOf(texts, trim)
  {
    if texts == [] {
      assert [] + [""] == [""] && [""][1..] == [];
    } else {
      assert (texts + [""])[0] == texts[0] && (texts + [""])[1..] == texts[1..] + [""];
      DataOfMore(texts[1..], trim);
    }
  }

  // ---- Blank texts ----

  lemma {:induction false} TrimEndBlank(s: string)
    requires TrimEnd(s) == ""
    ensures forall i :: 0 <= i < |s| ==> IsSpace(s[i])
  {
    hide IsSpace;
    if s != "" {
      TrimEndBlank(s[..|s| - 1]);
      assert forall i :: 0 <= i < |s| - 1 ==> s[i] == s[..|s| - 1][i];
    }
  }

  lemma {:induction false} TrimStartSuffix(s: string)
    ensures |TrimStart(s)| <= |s| && TrimStart(s) == s[|s| - |TrimStart(s)|..]
    ensures forall i :: 0 <= i < |s| - |TrimStart(s)| ==> IsSpace(s[i])
  {
    hide IsSpace;
    if s != "" && IsSpace(s[0]) {
      TrimStartSuffix(s[1..]);
      var n := |s| - |TrimStart(s)|;
      assert s[n..] == s[1..][n - 1..];
      assert forall i :: 1 <= i < n ==> s[i] == s[1..][i - 1];
    }
  }

  /** A text that is trimmed away is white space. */
  lemma TrimBlank(s: string)
    requires Trim(s) == ""
    ensures forall i :: 0 <= i < |s| ==> IsSpace(s[i])
  {
    hide IsSpace, TrimStart, TrimEnd;
    TrimStartSuffix(s);
    var t := TrimStart(s);
    TrimEndBlank(t);
    forall i | 0 <= i < |s| ensures IsSpace(s[i]) {
      if i >= |s| - |t| {
        assert s[i] == t[i - (|s| - |t|)];
      }
    }
  }

  /** A body with data is not white space. */
  lemma {:induction false} BodyNotBlank(lines: seq<Line>)
    requires WritableLines(lines) && Values(lines) != []
    ensures exists i :: 0 <= i < |Body(lines)| && !IsSpace(Body(lines)[i])
  {
    var first := Show(lines[0].field);
    assert !IsSpace('d');
    hide IsSpace;
    if lines[0].field.DataField? {
      assert first[0] == 'd' && Body(lines)[0] == 'd';
    } else {
      assert |lines| > 1;
      BodyNotBlank(lines[1..]);
      var rest := Body(lines[1..]);
      var i :| 0 <= i < |rest| && !IsSpace(rest[i]);
      var front := first + Eol(lines[0].crlf);
      assert Body(lines) == front + rest && Body(lines)[|front| + i] == rest[i];
    }
  }
}
