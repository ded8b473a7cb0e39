/** The text and the provider data of an Azure OpenAI response: the parser's, and the stream's beside it. */
module AzureText {
  import opened AzureCalls
  import opened AzureLaws
  import opened AzureMessage
  import opened AzureResponses
  import opened Decimal
  import opened Json
  import opened Wrappers

  // ---- What the items hold ----

  function NonEmpty(texts: seq<string>): seq<string> {
    if texts == [] then []
    else
      var last := texts[|texts| - 1];
      NonEmpty(texts[..|texts| - 1]) + if |last| > 0 then [last] else []
  }

  /** The texts of the message items that are not empty, in order. */
  function ItemTexts(output: seq<Item>): seq<string> {
    if output == [] then []
    else
      var last := output[|output| - 1];
      ItemTexts(output[..|output| - 1]) + if last.Message? then NonEmpty(last.texts) else []
  }

  /** The data of the provider items, in order. */
  function ItemData(output: seq<Item>): seq<Json> {
    if output == [] then []
    else
      var last := output[|output| - 1];
      ItemData(output[..|output| - 1]) + if last.ProviderItem? then [last.data] else []
  }

  // ---- What a message holds ----

  function TextsIn(parts: seq<Part>): seq<string> {
    if parts == [] then []
    else
      var last := parts[|parts| - 1];
      TextsIn(parts[..|parts| - 1]) + if last.TextPart? then [last.text] else []
  }

  function DataIn(parts: seq<Part>): seq<Json> {
    if parts == [] then []
    else
      var last := parts[|parts| - 1];
      DataIn(parts[..|parts| - 1]) + if last.DataPart? then [last.data] else []
  }

  lemma {:induction false} InConcat(a: seq<Part>, b: seq<Part>)
    ensures TextsIn(a + b) == TextsIn(a) + TextsIn(b)
    ensures DataIn(a + b) == DataIn(a) + DataIn(b)
    decreases |b|
  {
    if b == [] {
      assert a + b == a;
    } else {
      var init, last := b[..|b| - 1], b[|b| - 1];
      assert (a + b)[..|a + b| - 1] == a + init && (a + b)[|a + b| - 1] == last;
      InConcat(a, init);
      Associates(TextsIn(a), TextsIn(init), if last.TextPart? then [last.text] else []);
      Associates(DataIn(a), DataIn(init), if last.DataPart? then [last.data] else []);
    }
  }

  lemma InOne(part: Part)
    ensures TextsIn([part]) == if part.TextPart? then [part.text] else []
    ensures DataIn([part]) == if part.DataPart? then [part.data] else []
  {
    assert [part][..0] == [];
  }

  lemma {:induction false} NonEmptyConcat(a: seq<string>, b: seq<string>)
    ensures NonEmpty(a + b) == NonEmpty(a) + NonEmpty(b)
    decreases |b|
  {
    if b == [] {
      assert a + b == a;
    } else {
      var init, last := b[..|b| - 1], b[|b| - 1];
      assert (a + b)[..|a + b| - 1] == a + init && (a + b)[|a + b| - 1] == last;
      NonEmptyConcat(a, init);
      Associates(NonEmpty(a), NonEmpty(init), if |last| > 0 then [last] else []);
    }
  }

  lemma FirstText(text: string)
    ensures var first := if text == "" then [] else [TextPart(text)];
      TextsIn(first) == NonEmpty([text]) && DataIn(first) == []
  {
    assert [text][..0] == [];
    assert NonEmpty([text]) == [] + if |text| > 0 then [text] else [];
    if text != "" {
      InOne(TextPart(text));
    }
  }

  lemma {:induction false} TextPartsTexts(texts: seq<string>)
    ensures TextsIn(TextParts(texts)) == NonEmpty(texts) && DataIn(TextParts(texts)) == []
  {
    if texts != [] {
      var first := if texts[0] == "" then [] else [TextPart(texts[0])];
      assert TextParts(texts) == first + TextParts(texts[1..]);
      assert texts == [texts[0]] + texts[1..];
      hide TextParts, TextsIn, DataIn, NonEmpty;
      TextPartsTexts(texts[1..]);
      FirstText(texts[0]);
      NonEmptyConcat([texts[0]], texts[1..]);
      InConcat(first, TextParts(texts[1..]));
    }
  }

  /** What an item adds. */
  lemma ItemAdds(item: Item, index: nat, json: string -> Option<Json>)
    ensures var parts := ItemParts(item, index, json);
      parts.Some? ==>
        && TextsIn(parts.value) == (if item.Message? then NonEmpty(item.texts) else [])
        && DataIn(parts.value) == if item.ProviderItem? then [item.data] else []
  {
    var parts := ItemParts(item, index, json);
    if item.Message? {
      TextPartsTexts(item.texts);
    } else if parts.Some? && parts.value != [] {
      InOne(parts.value[0]);
      assert parts.value == [parts.value[0]];
    }
  }

  /** The items' texts and data, none lost, changed or moved. */
  lemma {:induction false} PartsHold(output: seq<Item>, json: string -> Option<Json>)
    ensures var parts := PartsOf(output, Every, json);
      parts.Some? ==> TextsIn(parts.value) == ItemTexts(output) && DataIn(parts.value) == ItemData(output)
  {
    if output != [] {
      var n := |output| - 1;
      PartsHold(output[..n], json);
      ItemAdds(output[n], n, json);
      hide ItemParts, TextsIn, DataIn;
      var before, more := PartsOf(output[..n], Every, json), ItemParts(output[n], n, json);
      if before.Some? && more.Some? {
        InConcat(before.value, more.value);
      }
    }
  }

  /** The parts of the first items come first. */
  lemma {:induction false} PartsInOrder(output: seq<Item>, n: nat, json: string -> Option<Json>)
    requires n <= |output| && PartsOf(output, Every, json).Some?
    ensures PartsOf(output[..n], Every, json).Some?
    ensures PartsOf(output[..n], Every, json).value <= PartsOf(output, Every, json).value
    decreases |output|
  {
    if n == |output| {
      assert output[..n] == output;
    } else {
      hide ItemParts;
      var init := output[..|output| - 1];
      assert init[..n] == output[..n];
      PartsInOrder(init, n, json);
    }
  }

  lemma {:induction false} HasTextExact(parts: seq<Part>)
    ensures HasText(parts) <==> TextsIn(parts) != []
  {
    if parts != [] {
      var init, last := parts[..|parts| - 1], parts[|parts| - 1];
      HasTextExact(init);
      if HasText(init) {
        var i :| 0 <= i < |init| && init[i].TextPart?;
        assert parts[i].TextPart?;
      }
      if last.TextPart? {
        assert parts[|parts| - 1].TextPart?;
      }
    }
  }

  /**
   * The message of a finished response: its texts are the non-empty texts of the message items, in order,
   * or the response's own text when there are none; its data is the provider items' data and then the
   * response id; its calls are those of the items.
   */
  lemma MessageExactly(output: seq<Item>, outputText: Option<string>, responseId: Option<string>,
      json: string -> Option<Json>)
    ensures var message, parts := MessageOf(output, outputText, responseId, json), PartsOf(output, Every, json);
      && message.Some? == parts.Some?
      && (message.Some? ==>
            && TextsIn(message.value)
               == (if ItemTexts(output) == [] && outputText.Some? && outputText.value != "" then [outputText.value]
                   else ItemTexts(output))
            && DataIn(message.value)
               == ItemData(output)
                  + (if responseId.Some? then [Obj(map["responseId" := Str(responseId.value)])] else [])
            && CallParts(message.value) == CallParts(parts.value)
            && parts.value <= message.value)
  {
    PartsHold(output, json);
    var parsed := PartsOf(output, Every, json);
    if parsed.Some? {
      var parts := parsed.value;
      HasTextExact(parts);
      var text := if !HasText(parts) && outputText.Some? && outputText.value != "" then [TextPart(outputText.value)]
                  else [];
      var id := if responseId.Some? then [DataPart(Obj(map["responseId" := Str(responseId.value)]))] else [];
      assert MessageOf(output, outputText, responseId, json) == Some(parts + text + id);
      hide PartsOf, HasText, ItemTexts, ItemData, MessageOf, CallParts, TextsIn, DataIn;
      MessageAdds(text, id);
      PartsAdded(parts, text, id);
    }
  }

  lemma PartsAdded(parts: seq<Part>, text: seq<Part>, id: seq<Part>)
    requires TextsIn(id) == [] && DataIn(text) == [] && CallParts(text) == [] && CallParts(id) == []
    ensures TextsIn(parts + text + id) == TextsIn(parts) + TextsIn(text)
    ensures DataIn(parts + text + id) == DataIn(parts) + DataIn(id)
    ensures CallParts(parts + text + id) == CallParts(parts)
    ensures parts <= parts + text + id
  {
    hide CallParts, TextsIn, DataIn;
    InConcat(parts, text);
    InConcat(parts + text, id);
    CallPartsAppend(parts, text);
    CallPartsAppend(parts + text, id);
  }

  lemma MessageAdds(text: seq<Part>, id: seq<Part>)
    requires |text| <= 1 && forall i :: 0 <= i < |text| ==> text[i].TextPart?
    requires |id| <= 1 && forall i :: 0 <= i < |id| ==> id[i].DataPart?
    ensures TextsIn(text) == (if text == [] then [] else [text[0].text]) && TextsIn(id) == []
    ensures DataIn(text) == [] && DataIn(id) == if id == [] then [] else [id[0].data]
    ensures CallParts(text) == [] && CallParts(id) == []
  {
    if text != [] {
      InOne(text[0]);
      assert text == [text[0]] && text[..0] == [];
    }
    if id != [] {
      InOne(id[0]);
      assert id == [id[0]] && id[..0] == [];
    }
  }

  // ---- One call of a message ----

  /**
   * A call item's part: the call id, or the item id, or the name with the item's position; the name; and
   * the parsed arguments, missing ones as an empty object.
   */
  lemma CallTold(item: Item, index: nat, json: string -> Option<Json>)
    requires IsCall(item) && ItemParts(item, index, json).Some?
    ensures var parts := ItemParts(item, index, json).value;
      && |parts| == 1 && parts[0].CallPart?
      && (item.callId.Some? ==> parts[0].id == item.callId.value)
      && (item.callId.None? && item.id.Some? ==> parts[0].id == item.id.value)
      && (item.callId.None? && item.id.None? ==>
            parts[0].id == (if item.HostedCall? then (if item.tool == Shell then "shell" else "apply_patch")
                            else if item.name.Some? then item.name.value else "undefined") + "-" + Show(index))
      && (item.HostedCall? ==>
            parts[0].input == item.input
            && parts[0].name == Some(if item.tool == Shell then "shell" else "apply_patch"))
      && (item.FunctionCall? ==>
            parts[0].name == item.name
            && Some(parts[0].input) == json(if item.arguments.Some? then item.arguments.value else "{}"))
  {
  }

  // ---- Stream and message ----

  function Spell(texts: seq<string>): string {
    if texts == [] then "" else Spell(texts[..|texts| - 1]) + texts[|texts| - 1]
  }

  /** The text deltas of an event list. */
  function Deltas(events: seq<ServerEvent>): seq<string> {
    if events == [] then []
    else
      var last := events[|events| - 1];
      Deltas(events[..|events| - 1]) + if last.TextDelta? then [last.text] else []
  }

  /** The provider items that were reported done. */
  function DataDone(events: seq<ServerEvent>): seq<Json> {
    if events == [] then []
    else
      var last := events[|events| - 1];
      DataDone(events[..|events| - 1])
      + if last.ItemEvent? && last.done && last.item.ProviderItem? then [last.item.data] else []
  }

  function Streamed(output: seq<Output>): seq<string> {
    if output == [] then []
    else
      var last := output[|output| - 1];
      Streamed(output[..|output| - 1]) + if last.Text? then [last.text] else []
  }

  function StreamedData(output: seq<Output>): seq<Json> {
    if output == [] then []
    else
      var last := output[|output| - 1];
      StreamedData(output[..|output| - 1]) + if last.ProviderData? then [last.data] else []
  }

  lemma {:induction false} StreamedConcat(a: seq<Output>, b: seq<Output>)
    ensures Streamed(a + b) == Streamed(a) + Streamed(b)
    ensures StreamedData(a + b) == StreamedData(a) + StreamedData(b)
    decreases |b|
  {
    if b == [] {
      assert a + b == a;
    } else {
      var init, last := b[..|b| - 1], b[|b| - 1];
      assert (a + b)[..|a + b| - 1] == a + init && (a + b)[|a + b| - 1] == last;
      StreamedConcat(a, init);
      Associates(Streamed(a), Streamed(init), if last.Text? then [last.text] else []);
      Associates(StreamedData(a), StreamedData(init), if last.ProviderData? then [last.data] else []);
    }
  }

  lemma {:induction false} NothingStreamed(output: seq<Output>)
    requires forall i :: 0 <= i < |output| ==> !output[i].Text? && !output[i].ProviderData?
    ensures Streamed(output) == [] && StreamedData(output) == []
  {
    if output != [] {
      NothingStreamed(output[..|output| - 1]);
    }
  }

  lemma OneYield(event: ServerEvent)
    ensures Streamed(Yield(event)) == if event.TextDelta? then [event.text] else []
    ensures StreamedData(Yield(event))
         == if event.ItemEvent? && event.done && event.item.ProviderItem? then [event.item.data] else []
  {
    assert |Yield(event)| == 1 ==> Yield(event)[..0] == [];
  }

  lemma {:induction false} YieldsStreamed(events: seq<ServerEvent>)
    ensures Streamed(Yields(events)) == Deltas(events) && StreamedData(Yields(events)) == DataDone(events)
  {
    if events != [] {
      var init, last := events[..|events| - 1], events[|events| - 1];
      YieldsStreamed(init);
      OneYield(last);
      StreamedConcat(Yields(init), Yield(last));
    }
  }

  /** For every event list, the caller receives exactly the texts and the data sent before the end. */
  lemma RunStreams(events: seq<ServerEvent>, json: string -> Option<Json>, normalize: string -> Option<FinishReason>)
    ensures var run, head := RunOf(events, json, normalize), events[..Head(events)];
      Streamed(run.output) == Deltas(head) && StreamedData(run.output) == DataDone(head)
  {
    var tail := OutputOrder(events, json, normalize);
    var shown := Yields(events[..Head(events)]);
    hide RunOf, Yields;
    YieldsStreamed(events[..Head(events)]);
    NothingStreamed(tail.calls);
    NothingStreamed(tail.finish);
    StreamedConcat(shown, tail.calls);
    StreamedConcat(shown + tail.calls, tail.finish);
  }

  /**
   * Stream equals message, for the text and the data: the stream's text is the message's text exactly when
   * the deltas before the end spell the texts of the message items, and its data is the items' data
   * exactly when the provider items that were reported done are those of the output.
   */
  lemma StreamTextEqualsMessage(events: seq<ServerEvent>, output: seq<Item>, json: string -> Option<Json>,
      normalize: string -> Option<FinishReason>)
    requires PartsOf(output, Every, json).Some?
    ensures var run, head, parts := RunOf(events, json, normalize), events[..Head(events)],
        PartsOf(output, Every, json).value;
      && (Spell(Streamed(run.output)) == Spell(TextsIn(parts)) <==> Spell(Deltas(head)) == Spell(ItemTexts(output)))
      && (StreamedData(run.output) == DataIn(parts) <==> DataDone(head) == ItemData(output))
  {
    hide *;
    RunStreams(events, json, normalize);
    PartsHold(output, json);
  }
}
