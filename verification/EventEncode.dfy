/** One event as a server writes it, and how the agent-to-agent reader takes it. */
module EventEncode {
  import opened EventFrames
  import opened EventStream
  import opened Wrappers

  /** One line of an event's data: no line break in it, and no leading space for the reader to trim. */
  predicate PlainLine(line: string) {
    (forall i :: 0 <= i < |line| ==> line[i] != '\n' && line[i] != '\r') && (line != "" ==> !IsSpace(line[0]))
  }

  /** An event's data, line by line. */
  predicate Payload(lines: seq<string>) {
    lines != [] && (forall i :: 0 <= i < |lines| ==> PlainLine(lines[i])) && JoinLines(lines) != ""
  }

  /** The event as it is written: each line behind its field name. */
  function Raw(lines: seq<string>): string
    requires lines != []
  {
    if |lines| == 1 then "data: " + lines[0] else "data: " + lines[0] + "\n" + Raw(lines[1..])
  }

  predicate Payloads(events: seq<seq<string>>) {
    forall i :: 0 <= i < |events| ==> Payload(events[i])
  }

  function Raws(events: seq<seq<string>>): (raws: seq<string>)
    requires Payloads(events)
    ensures |raws| == |events| && forall i :: 0 <= i < |raws| ==> raws[i] == Raw(events[i])
  {
    seq(|events|, i requires 0 <= i < |events| => Raw(events[i]))
  }

  // ---- One event ----

  lemma {:induction false} LinesOfOne(line: string)
    requires forall i :: 0 <= i < |line| ==> line[i] != '\n'
    ensures Lines(line) == [line]
  {
    if line != "" {
      LinesOfOne(line[1..]);
      assert [line[0]] + line[1..] == line;
    }
  }

  lemma {:induction false} LinesOfMore(line: string, rest: string)
    requires forall i :: 0 <= i < |line| ==> line[i] != '\n'
    ensures Lines(line + "\n" + rest) == [line] + Lines(rest)
  {
    var text := line + "\n" + rest;
    if line == "" {
      assert text[0] == '\n' && text[1..] == rest;
    } else {
      LinesOfMore(line[1..], rest);
      assert text[1..] == line[1..] + "\n" + rest && text[0] == line[0];
      assert [line[0]] + line[1..] == line;
    }
  }

  lemma FieldValue(line: string)
    requires PlainLine(line)
    ensures var field := "data: " + line; "data:" <= field && TrimStart(field[5..]) == line
    ensures var field := "data: " + line; forall i :: 0 <= i < |field| ==> field[i] != '\n' && field[i] != '\r'
  {
    var field := "data: " + line;
    assert field[5..] == " " + line;
    assert (" " + line)[1..] == line;
    assert IsSpace(' ');
  }

  /** Reading the data of a written event gives its lines back. */
  lemma {:induction false} DataOfRaw(lines: seq<string>)
    requires lines != [] && forall i :: 0 <= i < |lines| ==> PlainLine(lines[i])
    ensures Data(Raw(lines)) == JoinLines(lines)
  {
    RawFields(lines);
  }

  lemma {:induction false} RawFields(lines: seq<string>)
    requires lines != [] && forall i :: 0 <= i < |lines| ==> PlainLine(lines[i])
    ensures DataOf(Lines(Raw(lines)), TrimStart) == lines
  {
    hide IsSpace, TrimStart;
    FieldValue(lines[0]);
    var field := "data: " + lines[0];
    if |lines| == 1 {
      LinesOfOne(field);
      assert [field][1..] == [];
      assert DataOf([], TrimStart) == [];
    } else {
      RawFields(lines[1..]);
      LinesOfMore(field, Raw(lines[1..]));
      assert ([field] + Lines(Raw(lines[1..])))[1..] == Lines(Raw(lines[1..]));
    }
  }

  // ---- The first frame of a written text ----

  predicate NoCr(s: string) {
    forall i :: 0 <= i < |s| ==> s[i] != '\r'
  }

  /** A frame: no blank line in it, and no line break at its end. */
  predicate Closed(s: string) {
    && s != "" && s[0] != '\n' && s[|s| - 1] != '\n'
    && forall i :: 1 <= i < |s| ==> !(s[i - 1] == '\n' && s[i] == '\n')
  }

  lemma ClosedFound(s: string, rest: string)
    requires Closed(s)
    ensures FindBlank(s + "\n\n" + rest) == Some(Cut(|s|, 2))
  {
    var text := s + "\n\n" + rest;
    hide FindBlank;
    FindBlankExact(text);
    assert text[|s|] == '\n' && text[|s| + 1] == '\n';
    assert forall i :: 0 <= i < |s| ==> text[i] == s[i];
  }

  lemma ClosedJoin(a: string, b: string)
    requires Closed(a) && Closed(b)
    ensures Closed(a + "\n" + b)
  {
    var c := a + "\n" + b;
    assert forall i :: 0 <= i < |a| ==> c[i] == a[i];
    assert forall i :: 0 <= i < |b| ==> c[|a| + 1 + i] == b[i];
    forall i | 1 <= i < |c| ensures !(c[i - 1] == '\n' && c[i] == '\n') {
      if i > |a| + 1 {
        assert c[i - 1] == b[i - 2 - |a|] && c[i] == b[i - 1 - |a|];
      }
    }
  }

  lemma FieldClosed(line: string)
    requires PlainLine(line)
    ensures Closed("data: " + line) && NoCr("data: " + line)
  {
    FieldValue(line);
    var field := "data: " + line;
    assert field[0] == 'd';
  }

  lemma {:induction false} RawShape(lines: seq<string>)
    requires lines != [] && forall i :: 0 <= i < |lines| ==> PlainLine(lines[i])
    ensures Closed(Raw(lines)) && NoCr(Raw(lines))
  {
    hide PlainLine, Closed;
    FieldClosed(lines[0]);
    if |lines| > 1 {
      RawShape(lines[1..]);
      ClosedJoin("data: " + lines[0], Raw(lines[1..]));
    }
  }

  /** The frames of a text that is one frame, and then more. */
  lemma OneFrame(frame: string, more: string)
    requires Stable(FindBlank) && Closed(frame)
    ensures Drain(FindBlank, frame + "\n\n" + more)
         == Frames([frame] + Drain(FindBlank, more).frames, Drain(FindBlank, more).rest)
  {
    ClosedFound(frame, more);
    hide Stable, FindBlank, Drain, Closed;
    var text := frame + "\n\n" + more;
    DrainStep(FindBlank, text);
    assert text[..|frame|] == frame && text[|frame| + 2..] == more;
  }

  lemma ClosingFrame()
    requires Stable(FindBlank)
    ensures Drain(FindBlank, "\n\n") == Frames([""], "")
  {
    var s := "\n\n";
    assert FindBlank(s) == Some(Cut(0, 2));
    assert FindBlank("").None?;
    hide Stable, FindBlank;
    DrainStep(FindBlank, s);
    DrainStep(FindBlank, "");
    assert s[2..] == "" && s[..0] == "";
  }

  // ---- Delivering it ----

  /** Each event's data parses to the value that was sent. */
  ghost predicate ParsesTo<T>(events: seq<seq<string>>, values: seq<T>, parse: string -> Parsed<T>) {
    |events| == |values| && forall i :: 0 <= i < |events| ==> parse(JoinLines(events[i])) == Event(values[i])
  }

  lemma {:induction false} RawsDeliver<T>(events: seq<seq<string>>, values: seq<T>, parse: string -> Parsed<T>)
    requires Payloads(events) && ParsesTo(events, values, parse)
    ensures Deliver(Raws(events), Data, parse) == Delivered(values, None)
  {
    hide Data, Raw, Deliver, PlainLine, JoinLines;
    if events == [] {
      DeliverNothing(Data, parse);
    } else {
      var n := |events| - 1;
      var last := events[n];
      RawsDeliver(events[..n], values[..n], parse);
      assert Payload(last);
      DataOfRaw(last);
      assert Raws(events) == Raws(events[..n]) + [Raw(last)];
      DeliverSnoc(Raws(events[..n]), Raw(last), Data, parse);
      assert values == values[..n] + [values[n]];
    }
  }

  lemma EmptyFrame()
    ensures Data("") == ""
  {
    assert Lines("") == [""] && DataOf([""], TrimStart) == [] by {
      assert [""][1..] == [];
    }
  }
}
