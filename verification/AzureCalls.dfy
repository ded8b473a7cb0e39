/** Streamed function calls depend on their own events only; the parser of a finished response as a loop. */
module AzureCalls {
  import opened AzureLaws
  import opened AzureResponses
  import opened Decimal
  import opened Json
  import opened Wrappers

  // ---- One call's own events ----

  /** Every function-call event says which call it belongs to. */
  predicate Keyed(events: seq<ServerEvent>) {
    forall i :: 0 <= i < |events| && IsToolEvent(events[i]) ==> KeyOf(events[i]).Some?
  }

  predicate Running(events: seq<ServerEvent>) {
    forall i :: 0 <= i < |events| ==> !Ends(events[i])
  }

  /** The keys in the order in which they first occur. */
  function Keys(events: seq<ServerEvent>): seq<string> {
    if events == [] then []
    else
      var before := Keys(events[..|events| - 1]);
      match KeyOf(events[|events| - 1])
      case Some(key) => if key in before then before else before + [key]
      case None => before
  }

  /** The events of one call. */
  function Own(events: seq<ServerEvent>, key: string): (own: seq<ServerEvent>)
    ensures forall i :: 0 <= i < |own| ==> IsToolEvent(own[i])
  {
    if events == [] then []
    else
      var event := events[|events| - 1];
      Own(events[..|events| - 1], key) + if KeyOf(event) == Some(key) then [event] else []
  }

  /** The buffer those events build on their own. */
  function Build(key: string, own: seq<ServerEvent>): (b: Buffer)
    requires forall i :: 0 <= i < |own| ==> IsToolEvent(own[i])
    ensures b.key == key
  {
    if own == [] then NewBuffer(key) else Apply(Build(key, own[..|own| - 1]), own[|own| - 1])
  }

  predicate Distinct(keys: seq<string>) {
    forall i, j :: 0 <= i < j < |keys| ==> keys[i] != keys[j]
  }

  function KeysOf(buffers: seq<Buffer>): (keys: seq<string>)
    ensures |keys| == |buffers| && forall i :: 0 <= i < |keys| ==> keys[i] == buffers[i].key
  {
    seq(|buffers|, i requires 0 <= i < |buffers| => buffers[i].key)
  }

  /** An insertion-ordered map: a key that is present is read and written in its place. */
  lemma {:induction false} PutAt(buffers: seq<Buffer>, i: nat, b: Buffer)
    requires i < |buffers| && Distinct(KeysOf(buffers)) && buffers[i].key == b.key
    ensures Get(buffers, b.key) == buffers[i]
    ensures Put(buffers, b) == buffers[i := b]
  {
    if buffers[0].key == b.key {
      assert KeysOf(buffers)[0] == KeysOf(buffers)[i];
    } else {
      var tail := buffers[1..];
      assert forall j :: 0 <= j < |tail| ==> KeysOf(tail)[j] == KeysOf(buffers)[j + 1];
      PutAt(tail, i - 1, b);
      assert buffers[i := b] == [buffers[0]] + tail[i - 1 := b];
    }
  }

  lemma {:induction false} PutNew(buffers: seq<Buffer>, b: Buffer)
    requires b.key !in KeysOf(buffers)
    ensures Get(buffers, b.key) == NewBuffer(b.key)
    ensures Put(buffers, b) == buffers + [b]
  {
    if buffers != [] {
      assert KeysOf(buffers)[0] == buffers[0].key;
      assert forall j :: 0 <= j < |buffers| - 1 ==> KeysOf(buffers[1..])[j] == KeysOf(buffers)[j + 1];
      PutNew(buffers[1..], b);
    }
  }

  /** What the buffers are: one for each key, in order, each built from its own events. */
  ghost predicate BuiltFrom(buffers: seq<Buffer>, events: seq<ServerEvent>) {
    && KeysOf(buffers) == Keys(events)
    && Distinct(Keys(events))
    && forall i :: 0 <= i < |buffers| ==> buffers[i] == Build(buffers[i].key, Own(events, buffers[i].key))
  }

  /**
   * Each call's buffer depends only on the call's own events: however the calls are interleaved,
   * the buffers are those built one by one, in order of first occurrence.
   */
  lemma {:induction false} BuffersByKey(events: seq<ServerEvent>, json: string -> Option<Json>,
      normalize: string -> Option<FinishReason>)
    requires Keyed(events) && Running(events)
    ensures After(events, json, normalize).Open?
    ensures BuiltFrom(After(events, json, normalize).state.buffers, events)
  {
    if events == [] {
    } else {
      var init, event := events[..|events| - 1], events[|events| - 1];
      assert events == init + [event];
      BuffersByKey(init, json, normalize);
      AfterSnoc(init, event, json, normalize);
      var state := After(init, json, normalize).state;
      hide After;
      StepBuffers(state, event, json, normalize);
      if IsToolEvent(event) {
        FiledByKey(state.buffers, init, event);
      } else {
        OthersBuiltFrom(state.buffers, init, event);
      }
    }
  }

  lemma StepBuffers(state: State, event: ServerEvent, json: string -> Option<Json>,
      normalize: string -> Option<FinishReason>)
    requires !Ends(event)
    ensures var p := Step(state, event, json, normalize);
      && p.Open?
      && p.state.buffers == if IsToolEvent(event) then TakeToolEvent(state.buffers, event) else state.buffers
  {
  }

  lemma OwnSnoc(events: seq<ServerEvent>, event: ServerEvent, key: string)
    ensures Own(events + [event], key) == Own(events, key) + if KeyOf(event) == Some(key) then [event] else []
  {
    assert (events + [event])[..|events|] == events;
  }

  lemma KeysSnoc(events: seq<ServerEvent>, event: ServerEvent)
    ensures Keys(events + [event])
         == match KeyOf(event)
            case Some(key) => if key in Keys(events) then Keys(events) else Keys(events) + [key]
            case None => Keys(events)
  {
    assert (events + [event])[..|events|] == events;
  }

  lemma BuildSnoc(key: string, own: seq<ServerEvent>, event: ServerEvent)
    requires IsToolEvent(event) && forall i :: 0 <= i < |own| ==> IsToolEvent(own[i])
    ensures Build(key, own + [event]) == Apply(Build(key, own), event)
  {
    assert (own + [event])[..|own|] == own;
  }

  lemma OthersBuiltFrom(buffers: seq<Buffer>, events: seq<ServerEvent>, event: ServerEvent)
    requires BuiltFrom(buffers, events) && !IsToolEvent(event)
    ensures BuiltFrom(buffers, events + [event])
  {
    hide Own, Build, Keys;
    KeysSnoc(events, event);
    forall i | 0 <= i < |buffers|
      ensures buffers[i] == Build(buffers[i].key, Own(events + [event], buffers[i].key))
    {
      OwnSnoc(events, event, buffers[i].key);
      assert Own(events, buffers[i].key) + [] == Own(events, buffers[i].key);
    }
  }

  lemma OtherKey(events: seq<ServerEvent>, event: ServerEvent, key: string)
    requires KeyOf(event) != Some(key)
    ensures Own(events + [event], key) == Own(events, key)
  {
    OwnSnoc(events, event, key);
    assert Own(events, key) + [] == Own(events, key);
  }

  /** A key that never occurred has no events. */
  lemma {:induction false} NoEventsYet(events: seq<ServerEvent>, key: string)
    requires key !in Keys(events)
    ensures Own(events, key) == []
  {
    if events != [] {
      var init, event := events[..|events| - 1], events[|events| - 1];
      assert events == init + [event];
      KeysSnoc(init, event);
      NoEventsYet(init, key);
    }
  }

  lemma FiledByKey(buffers: seq<Buffer>, events: seq<ServerEvent>, event: ServerEvent)
    requires BuiltFrom(buffers, events) && IsToolEvent(event) && KeyOf(event).Some?
    ensures BuiltFrom(TakeToolEvent(buffers, event), events + [event])
  {
    var key := KeyOf(event).value;
    if key in Keys(events) {
      var i :| 0 <= i < |buffers| && KeysOf(buffers)[i] == key;
      FiledInPlace(buffers, i, events, event);
    } else {
      FiledLast(buffers, events, event);
    }
  }

  lemma ApplyKeepsKey(buffer: Buffer, event: ServerEvent)
    requires IsToolEvent(event)
    ensures Apply(buffer, event).key == buffer.key
  {
  }

  lemma FiledInPlace(buffers: seq<Buffer>, i: nat, events: seq<ServerEvent>, event: ServerEvent)
    requires BuiltFrom(buffers, events) && IsToolEvent(event)
    requires i < |buffers| && KeyOf(event) == Some(buffers[i].key)
    ensures BuiltFrom(TakeToolEvent(buffers, event), events + [event])
  {
    var key := buffers[i].key;
    assert key == KeysOf(buffers)[i];
    hide Own, Build, Keys, KeyOf, Apply, Put, Get;
    var b := Apply(buffers[i], event);
    ApplyKeepsKey(buffers[i], event);
    PutAt(buffers, i, b);
    var after := buffers[i := b];
    assert TakeToolEvent(buffers, event) == after;
    KeysSnoc(events, event);
    assert KeysOf(after) == KeysOf(buffers);
    OwnSnoc(events, event, key);
    BuildSnoc(key, Own(events, key), event);
    forall j | 0 <= j < |after| ensures after[j] == Build(after[j].key, Own(events + [event], after[j].key)) {
      if j != i {
        assert KeysOf(buffers)[j] != KeysOf(buffers)[i];
        OtherKey(events, event, buffers[j].key);
      }
    }
  }

  lemma OthersStay(buffers: seq<Buffer>, events: seq<ServerEvent>, event: ServerEvent, j: nat)
    requires BuiltFrom(buffers, events) && j < |buffers| && KeyOf(event) != Some(buffers[j].key)
    ensures buffers[j] == Build(buffers[j].key, Own(events + [event], buffers[j].key))
  {
    OtherKey(events, event, buffers[j].key);
  }

  lemma NewBufferBuilt(events: seq<ServerEvent>, event: ServerEvent, key: string)
    requires IsToolEvent(event) && KeyOf(event) == Some(key) && key !in Keys(events)
    ensures Build(key, Own(events + [event], key)) == Apply(NewBuffer(key), event)
  {
    NoEventsYet(events, key);
    OwnSnoc(events, event, key);
    assert [] + [event] == [event] && [event][..0] == [];
    assert Build(key, []) == NewBuffer(key);
  }

  lemma DistinctSnoc(keys: seq<string>, key: string)
    requires Distinct(keys) && key !in keys
    ensures Distinct(keys + [key])
  {
  }

  lemma FiledLast(buffers: seq<Buffer>, events: seq<ServerEvent>, event: ServerEvent)
    requires BuiltFrom(buffers, events) && IsToolEvent(event)
    requires KeyOf(event).Some? && KeyOf(event).value !in Keys(events)
    ensures BuiltFrom(TakeToolEvent(buffers, event), events + [event])
  {
    hide Own, Build, Keys, KeyOf, Apply, Put, Get, NewBuffer, Distinct;
    var key := KeyOf(event).value;
    NewBufferBuilt(events, event, key);
    var b := Build(key, Own(events + [event], key));
    PutNew(buffers, b);
    var after := buffers + [b];
    assert TakeToolEvent(buffers, event) == after;
    KeysSnoc(events, event);
    DistinctSnoc(Keys(events), key);
    assert KeysOf(after) == KeysOf(buffers) + [key];
    forall j | 0 <= j < |after| ensures after[j] == Build(after[j].key, Own(events + [event], after[j].key)) {
      if j < |buffers| {
        assert KeysOf(buffers)[j] in Keys(events);
        OthersStay(buffers, events, event, j);
      }
    }
  }

  /** Interleaving other calls changes nothing: equal own events give equal buffers. */
  lemma InterleavingIrrelevant(a: seq<ServerEvent>, b: seq<ServerEvent>, json: string -> Option<Json>,
      normalize: string -> Option<FinishReason>)
    requires Keyed(a) && Running(a) && Keyed(b) && Running(b)
    requires Keys(a) == Keys(b) && forall key :: key in Keys(a) ==> Own(a, key) == Own(b, key)
    ensures After(a, json, normalize).Open? && After(b, json, normalize).Open?
    ensures After(a, json, normalize).state.buffers == After(b, json, normalize).state.buffers
  {
    hide After, Own, Build, Keys;
    BuffersByKey(a, json, normalize);
    BuffersByKey(b, json, normalize);
    var x, y := After(a, json, normalize).state.buffers, After(b, json, normalize).state.buffers;
    forall i | 0 <= i < |x| ensures x[i] == y[i] {
      assert KeysOf(x)[i] == KeysOf(y)[i];
    }
  }

  // ---- What a call's own events say ----

  /** The whole argument text an event assigns, if it does. */
  function Whole(event: ServerEvent): Option<string>
    requires IsToolEvent(event)
  {
    match event
    case ItemEvent(_, item, _, _) => item.arguments
    case ArgumentsDelta(_, _, _) => None
    case ArgumentsDone(_, _, arguments) => arguments
  }

  function Deltas(own: seq<ServerEvent>): string {
    if own == [] then ""
    else (if own[0].ArgumentsDelta? then Or(own[0].delta, "") else "") + Deltas(own[1..])
  }

  predicate AllTool(own: seq<ServerEvent>) {
    forall i :: 0 <= i < |own| ==> IsToolEvent(own[i])
  }

  lemma {:induction false} DeltasSnoc(own: seq<ServerEvent>, event: ServerEvent)
    ensures Deltas(own + [event])
         == Deltas(own) + if event.ArgumentsDelta? then Or(event.delta, "") else ""
  {
    if own == [] {
      assert [event][1..] == [];
    } else {
      var more := own + [event];
      assert more[0] == own[0] && more[1..] == own[1..] + [event];
      DeltasSnoc(own[1..], event);
      var head := if own[0].ArgumentsDelta? then Or(own[0].delta, "") else "";
      var last := if event.ArgumentsDelta? then Or(event.delta, "") else "";
      assert head + (Deltas(own[1..]) + last) == head + Deltas(own[1..]) + last;
    }
  }

  /** The arguments are the last whole text an event assigned, and then every later delta. */
  lemma {:induction false} ArgumentsExact(key: string, own: seq<ServerEvent>, i: nat)
    requires AllTool(own) && i < |own|
    requires Whole(own[i]).Some?
    requires forall j :: i < j < |own| ==> Whole(own[j]).None?
    ensures Build(key, own).args == Whole(own[i]).value + Deltas(own[i + 1..])
    decreases |own|
  {
    var init, event := own[..|own| - 1], own[|own| - 1];
    if i == |own| - 1 {
      assert own[i + 1..] == [];
    } else {
      ArgumentsExact(key, init, i);
      assert own[i + 1..] == init[i + 1..] + [event];
      DeltasSnoc(init[i + 1..], event);
      assert Whole(event).None?;
    }
  }

  /** Without a whole text, the arguments are the deltas. */
  lemma {:induction false} ArgumentsFromDeltas(key: string, own: seq<ServerEvent>)
    requires AllTool(own)
    requires forall j :: 0 <= j < |own| ==> Whole(own[j]).None?
    ensures Build(key, own).args == Deltas(own)
  {
    if own != [] {
      var init, event := own[..|own| - 1], own[|own| - 1];
      ArgumentsFromDeltas(key, init);
      assert own == init + [event];
      DeltasSnoc(init, event);
      assert Whole(event).None?;
    }
  }

  function NameIn(event: ServerEvent): string {
    if event.ItemEvent? && event.item.FunctionCall? then Or(event.item.name, "") else ""
  }

  function CallIdIn(event: ServerEvent): Option<string> {
    if event.ItemEvent? && event.item.FunctionCall? then event.item.callId else None
  }

  /** The first name given, or none. */
  ghost predicate FirstName(own: seq<ServerEvent>, name: string) {
    if name == "" then forall i :: 0 <= i < |own| ==> NameIn(own[i]) == ""
    else exists i :: FirstNameAt(own, i, name)
  }

  predicate FirstNameAt(own: seq<ServerEvent>, i: int, name: string) {
    0 <= i < |own| && NameIn(own[i]) == name && forall j :: 0 <= j < i ==> NameIn(own[j]) == ""
  }

  /** The last call id given, or the key. */
  ghost predicate LastCallId(own: seq<ServerEvent>, key: string, callId: string) {
    || (callId == key && forall i :: 0 <= i < |own| ==> CallIdIn(own[i]).None?)
    || (exists i :: LastCallIdAt(own, i, callId))
  }

  predicate LastCallIdAt(own: seq<ServerEvent>, i: int, callId: string) {
    0 <= i < |own| && CallIdIn(own[i]) == Some(callId) && forall j :: i < j < |own| ==> CallIdIn(own[j]).None?
  }

  /** The name is the first one given, and the call id the last. */
  lemma {:induction false} NameAndCallIdExact(key: string, own: seq<ServerEvent>)
    requires AllTool(own)
    ensures FirstName(own, Build(key, own).name)
    ensures LastCallId(own, key, Build(key, own).callId)
  {
    if own != [] {
      var init, event := own[..|own| - 1], own[|own| - 1];
      NameAndCallIdExact(key, init);
      assert own == init + [event];
      ApplyNames(Build(key, init), event);
      NameStep(init, event, Build(key, init).name);
      CallIdStep(init, event, key, Build(key, init).callId);
    }
  }

  lemma ApplyNames(b: Buffer, event: ServerEvent)
    requires IsToolEvent(event)
    ensures Apply(b, event).name == if b.name == "" then NameIn(event) else b.name
    ensures Apply(b, event).callId == Or(CallIdIn(event), b.callId)
  {
  }

  lemma NameStep(own: seq<ServerEvent>, event: ServerEvent, name: string)
    requires FirstName(own, name)
    ensures FirstName(own + [event], if name == "" then NameIn(event) else name)
  {
    var all := own + [event];
    assert forall i :: 0 <= i < |own| ==> all[i] == own[i];
    if name != "" {
      var i :| FirstNameAt(own, i, name);
      assert FirstNameAt(all, i, name);
    } else if NameIn(event) != "" {
      assert FirstNameAt(all, |own|, NameIn(event));
    }
  }

  lemma CallIdStep(own: seq<ServerEvent>, event: ServerEvent, key: string, callId: string)
    requires LastCallId(own, key, callId)
    ensures LastCallId(own + [event], key, Or(CallIdIn(event), callId))
  {
    var all := own + [event];
    assert forall i :: 0 <= i < |own| ==> all[i] == own[i];
    if CallIdIn(event).Some? {
      assert LastCallIdAt(all, |own|, CallIdIn(event).value);
    } else if exists i :: LastCallIdAt(own, i, callId) {
      var i :| LastCallIdAt(own, i, callId);
      assert LastCallIdAt(all, i, callId);
    }
  }

  // ---- The finished response ----

  /** A part of the assistant message parsed from a finished response. */
  datatype Part =
    | TextPart(text: string)
    | CallPart(id: string, name: Option<string>, input: Json)
    | DataPart(data: Json)

  function TextParts(texts: seq<string>): seq<Part> {
    if texts == [] then []
    else (if texts[0] == "" then [] else [TextPart(texts[0])]) + TextParts(texts[1..])
  }

  /** The parts of one output item; nothing when its arguments are not JSON, which throws. */
  function ItemParts(item: Item, index: nat, json: string -> Option<Json>): Option<seq<Part>> {
    match item
    case Message(texts) => Some(TextParts(texts))
    case FunctionCall(id, callId, name, arguments) =>
      var callName := Or(name, "undefined");
      (match json(Or(arguments, "{}"))
       case None => None
       case Some(input) => Some([CallPart(Or(callId, Or(id, callName + "-" + Show(index))), name, input)]))
    case HostedCall(id, callId, tool, input) =>
      Some([CallPart(Or(callId, Or(id, ToolName(tool) + "-" + Show(index))), Some(ToolName(tool)), input)])
    case ProviderItem(data) => Some([DataPart(data)])
    case Untyped => Some([])
  }

  /** The parts of the kept items, in order. */
  function PartsOf(output: seq<Item>, keep: Item -> bool, json: string -> Option<Json>): Option<seq<Part>> {
    if output == [] then Some([])
    else
      var n := |output| - 1;
      match PartsOf(output[..n], keep, json)
      case None => None
      case Some(before) =>
        if !keep(output[n]) then Some(before)
        else match ItemParts(output[n], n, json)
          case None => None
          case Some(parts) => Some(before + parts)
  }

  predicate Every(item: Item) {
    true
  }

  predicate HasText(parts: seq<Part>) {
    exists i :: 0 <= i < |parts| && parts[i].TextPart?
  }

  /** The whole message: the response's own text stands in when no item has any, and its id goes last. */
  function MessageOf(output: seq<Item>, outputText: Option<string>, responseId: Option<string>,
      json: string -> Option<Json>): Option<seq<Part>>
  {
    match PartsOf(output, Every, json)
    case None => None
    case Some(parts) =>
      Some(parts
           + (if !HasText(parts) && outputText.Some? && outputText.value != "" then [TextPart(outputText.value)]
              else [])
           + (if responseId.Some? then [DataPart(Obj(map["responseId" := Str(responseId.value)]))] else []))
  }

  /** The loop that parses a finished response's output items, and what is added behind them. */
  method ParseAssistantMessage(output: seq<Item>, outputText: Option<string>, responseId: Option<string>,
      json: string -> Option<Json>) returns (parts: Option<seq<Part>>)
    ensures parts == MessageOf(output, outputText, responseId, json)
  {
    var pushed: seq<Part> := [];
    var index := 0;
    while index < |output|
      invariant 0 <= index <= |output|
      invariant PartsOf(output[..index], Every, json) == Some(pushed)
    {
      assert output[..index + 1][..index] == output[..index];
      var item := output[index];
      match ItemParts(item, index, json) {
        case None =>
          PartsFail(output, index + 1, Every, json);
          return None;
        case Some(more) =>
          pushed := pushed + more;
      }
      index := index + 1;
    }
    assert output[..index] == output;
    if !HasText(pushed) && outputText.Some? && outputText.value != "" {
      pushed := pushed + [TextPart(outputText.value)];
    } else {
      assert pushed + [] == pushed;
    }
    if responseId.Some? {
      pushed := pushed + [DataPart(Obj(map["responseId" := Str(responseId.value)]))];
    } else {
      assert pushed + [] == pushed;
    }
    parts := Some(pushed);
  }

  lemma {:induction false} PartsFail(output: seq<Item>, n: nat, keep: Item -> bool, json: string -> Option<Json>)
    requires n <= |output| && PartsOf(output[..n], keep, json).None?
    ensures PartsOf(output, keep, json).None?
    decreases |output| - n
  {
    if n < |output| {
      assert output[..n + 1][..n] == output[..n];
      PartsFail(output, n + 1, keep, json);
    } else {
      assert output[..n] == output;
    }
  }
}
