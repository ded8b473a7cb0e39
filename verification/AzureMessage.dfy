/** The stream against the message that the parser makes of the whole finished response. */
module AzureMessage {
  import opened AzureBatch
  import opened AzureCalls
  import opened AzureLaws
  import opened AzureResponses
  import opened Json
  import opened Wrappers

  predicate IsCall(item: Item) {
    item.FunctionCall? || item.HostedCall?
  }

  /** The tool calls among the parts of a message. */
  function CallParts(parts: seq<Part>): seq<Part> {
    if parts == [] then []
    else CallParts(parts[..|parts| - 1]) + if parts[|parts| - 1].CallPart? then [parts[|parts| - 1]] else []
  }

  lemma {:induction false} CallPartsAppend(a: seq<Part>, b: seq<Part>)
    ensures CallParts(a + b) == CallParts(a) + CallParts(b)
    decreases |b|
  {
    if b == [] {
      assert a + b == a;
    } else {
      assert (a + b)[..|a + b| - 1] == a + b[..|b| - 1];
      CallPartsAppend(a, b[..|b| - 1]);
    }
  }

  lemma {:induction false} NoCallsInTexts(texts: seq<string>)
    ensures CallParts(TextParts(texts)) == []
  {
    if texts != [] {
      NoCallsInTexts(texts[1..]);
      var first := if texts[0] == "" then [] else [TextPart(texts[0])];
      CallPartsAppend(first, TextParts(texts[1..]));
    }
  }

  lemma ItemCalls(item: Item, index: nat, json: string -> Option<Json>)
    ensures ItemParts(item, index, json).Some? ==>
      CallParts(ItemParts(item, index, json).value) == if IsCall(item) then ItemParts(item, index, json).value else []
    ensures ItemParts(item, index, json).None? ==> IsFunction(item)
    ensures IsFunction(item) ==> (ItemParts(item, index, json).Some? <==> json(Or(item.arguments, "{}")).Some?)
  {
    if item.Message? {
      NoCallsInTexts(item.texts);
    }
  }

  /** The calls of the whole message are those of the call items alone. */
  lemma {:induction false} MessageCalls(output: seq<Item>, json: string -> Option<Json>)
    ensures PartsOf(output, Every, json).Some? <==> PartsOf(output, IsCall, json).Some?
    ensures PartsOf(output, Every, json).Some? ==>
      PartsOf(output, IsCall, json) == Some(CallParts(PartsOf(output, Every, json).value))
  {
    if output == [] {
      assert CallParts([]) == [];
    } else {
      hide ItemParts, CallParts, IsCall;
      var n := |output| - 1;
      MessageCalls(output[..n], json);
      ItemCalls(output[n], n, json);
      MessageTurn(output, json);
    }
  }

  lemma MessageTurn(output: seq<Item>, json: string -> Option<Json>)
    requires output != []
    requires var before := output[..|output| - 1];
      && (PartsOf(before, Every, json).Some? <==> PartsOf(before, IsCall, json).Some?)
      && (PartsOf(before, Every, json).Some? ==>
            PartsOf(before, IsCall, json) == Some(CallParts(PartsOf(before, Every, json).value)))
    ensures PartsOf(output, Every, json).Some? <==> PartsOf(output, IsCall, json).Some?
    ensures PartsOf(output, Every, json).Some? ==>
      PartsOf(output, IsCall, json) == Some(CallParts(PartsOf(output, Every, json).value))
  {
    hide ItemParts, CallParts;
    var n := |output| - 1;
    var parts := ItemParts(output[n], n, json);
    ItemCalls(output[n], n, json);
    if PartsOf(output[..n], Every, json).Some? && parts.Some? {
      var before := PartsOf(output[..n], Every, json).value;
      CallPartsAppend(before, parts.value);
      assert CallParts(before) + [] == CallParts(before);
    }
  }

  /** The parser throws exactly when some call's arguments are not JSON. */
  lemma {:induction false} MessageExact(output: seq<Item>, json: string -> Option<Json>)
    ensures PartsOf(output, Every, json).Some? <==> AllJson(Kept(output, IsFunction), json)
  {
    if output != [] {
      hide ItemParts, AllJson, Kept;
      var n := |output| - 1;
      MessageExact(output[..n], json);
      ItemCalls(output[n], n, json);
      KeptSnoc(output, IsFunction);
      if IsFunction(output[n]) {
        AllJsonSnoc(Kept(output[..n], IsFunction), output[n], json);
      }
    }
  }

  lemma AllJsonSnoc(calls: seq<Item>, last: Item, json: string -> Option<Json>)
    requires (forall i :: 0 <= i < |calls| ==> IsFunction(calls[i])) && IsFunction(last)
    ensures AllJson(calls + [last], json) <==> AllJson(calls, json) && json(Or(last.arguments, "{}")).Some?
  {
    var more := calls + [last];
    assert forall i :: 0 <= i < |calls| ==> more[i] == calls[i];
    assert more[|calls|] == last;
  }

  /** All arguments are JSON; missing ones count as an empty object. */
  predicate AllJson(calls: seq<Item>, json: string -> Option<Json>)
    requires forall i :: 0 <= i < |calls| ==> IsFunction(calls[i])
  {
    forall i :: 0 <= i < |calls| ==> IsFunction(calls[i]) && json(Or(calls[i].arguments, "{}")).Some?
  }

  // ---- The call of an item ----

  /** An item whose call does not depend on its position. */
  predicate Settled(item: Item, json: string -> Option<Json>) {
    || (Complete(item) && Readable(item, json))
    || (item.HostedCall? && (item.callId.Some? || item.id.Some?))
  }

  function CallFor(item: Item, json: string -> Option<Json>): Call
    requires Settled(item, json)
  {
    match item
    case FunctionCall(_, _, _, _) => StreamedCall(item, json)
    case HostedCall(id, callId, tool, input) => Call(Or(callId, Or(id, "")), ToolName(tool), input)
  }

  predicate AllSettled(items: seq<Item>, json: string -> Option<Json>) {
    forall i :: 0 <= i < |items| ==> Settled(items[i], json)
  }

  function CallsFor(items: seq<Item>, json: string -> Option<Json>): (calls: seq<Call>)
    requires AllSettled(items, json)
    ensures |calls| == |items| && forall i :: 0 <= i < |items| ==> calls[i] == CallFor(items[i], json)
  {
    seq(|items|, i requires 0 <= i < |items| => CallFor(items[i], json))
  }

  lemma PartsForKept(output: seq<Item>, keep: Item -> bool, json: string -> Option<Json>)
    requires AllSettled(Kept(output, keep), json)
    ensures PartsOf(output, keep, json) == Some(AsParts(CallsFor(Kept(output, keep), json)))
  {
    PartsOfKept(output, keep, CallsFor(Kept(output, keep), json), json);
  }

  lemma {:induction false} KeptSettled(output: seq<Item>, json: string -> Option<Json>)
    requires AllSettled(Kept(output, IsFunction), json) && AllSettled(Kept(output, IsHosted), json)
    ensures AllSettled(Kept(output, IsCall), json)
  {
    if output != [] {
      var n := |output| - 1;
      var functions, hosted := Kept(output, IsFunction), Kept(output, IsHosted);
      var functionsBefore, hostedBefore := Kept(output[..n], IsFunction), Kept(output[..n], IsHosted);
      assert forall i :: 0 <= i < |functionsBefore| ==> functions[i] == functionsBefore[i];
      assert forall i :: 0 <= i < |hostedBefore| ==> hosted[i] == hostedBefore[i];
      KeptSettled(output[..n], json);
      if IsFunction(output[n]) {
        assert functions[|functionsBefore|] == output[n];
      } else if IsHosted(output[n]) {
        assert hosted[|hostedBefore|] == output[n];
      }
    }
  }

  // ---- The order of the calls ----

  /** No hosted call stands before a function call. */
  predicate HostedLast(output: seq<Item>) {
    forall i, j :: 0 <= i < j < |output| ==> !(IsHosted(output[i]) && IsFunction(output[j]))
  }

  /** The calls in the stream's order: function calls first. */
  function Regrouped(output: seq<Item>): seq<Item> {
    Kept(output, IsFunction) + Kept(output, IsHosted)
  }

  lemma {:induction false} NoHosted(output: seq<Item>)
    ensures Kept(output, IsHosted) == [] <==> forall i :: 0 <= i < |output| ==> !IsHosted(output[i])
  {
    if output != [] {
      NoHosted(output[..|output| - 1]);
    }
  }

  lemma {:induction false} GroupedKept(output: seq<Item>)
    requires HostedLast(output)
    ensures Regrouped(output) == Kept(output, IsCall)
  {
    if output != [] {
      var n := |output| - 1;
      GroupedKept(output[..n]);
      if IsFunction(output[n]) {
        NoHosted(output[..n]);
      }
      KeptSnoc(output, IsFunction);
      KeptSnoc(output, IsHosted);
      KeptSnoc(output, IsCall);
      hide Kept, HostedLast;
      var functions, hosted := Kept(output[..n], IsFunction), Kept(output[..n], IsHosted);
      assert IsHosted(output[n]) ==> functions + (hosted + [output[n]]) == functions + hosted + [output[n]];
      assert functions + [] == functions;
    }
  }

  lemma {:induction false} SameItems(output: seq<Item>)
    ensures multiset(Regrouped(output)) == multiset(Kept(output, IsCall))
  {
    if output != [] {
      var n := |output| - 1;
      SameItems(output[..n]);
      hide Kept, IsFunction, IsHosted;
      SameItemsTurn(output);
    }
  }

  lemma KeptSnoc(output: seq<Item>, keep: Item -> bool)
    requires output != []
    ensures var before, last := Kept(output[..|output| - 1], keep), output[|output| - 1];
      Kept(output, keep) == if keep(last) then before + [last] else before
  {
    var before := Kept(output[..|output| - 1], keep);
    assert before + [] == before;
  }

  lemma SameItemsTurn(output: seq<Item>)
    requires output != []
    requires multiset(Regrouped(output[..|output| - 1])) == multiset(Kept(output[..|output| - 1], IsCall))
    ensures multiset(Regrouped(output)) == multiset(Kept(output, IsCall))
  {
    var before, last := output[..|output| - 1], output[|output| - 1];
    KeptSnoc(output, IsFunction);
    KeptSnoc(output, IsHosted);
    KeptSnoc(output, IsCall);
    assert IsCall(last) <==> IsFunction(last) || IsHosted(last);
    assert !(IsFunction(last) && IsHosted(last));
    hide Kept, IsFunction, IsHosted, IsCall;
    var functions, hosted, calls := Kept(before, IsFunction), Kept(before, IsHosted), Kept(before, IsCall);
    InsertCounts(functions, hosted, calls, last);
  }

  lemma InsertCounts<T>(a: seq<T>, b: seq<T>, all: seq<T>, x: T)
    requires multiset(a + b) == multiset(all)
    ensures multiset((a + [x]) + b) == multiset(all + [x])
    ensures multiset(a + (b + [x])) == multiset(all + [x])
  {
  }

  predicate PairwiseDistinct(calls: seq<Call>) {
    forall i, j :: 0 <= i < j < |calls| ==> calls[i] != calls[j]
  }

  /** Two kept items keep their order. */
  lemma {:induction false} KeptInOrder(output: seq<Item>, keep: Item -> bool, i: nat, j: nat) returns (a: nat, b: nat)
    requires i < j < |output| && keep(output[i]) && keep(output[j])
    ensures a < b < |Kept(output, keep)| && Kept(output, keep)[a] == output[i] && Kept(output, keep)[b] == output[j]
  {
    var n := |output| - 1;
    KeptSnoc(output, keep);
    if j < n {
      a, b := KeptInOrder(output[..n], keep, i, j);
    } else {
      a := KeptPosition(output[..n], keep, i);
      b := |Kept(output[..n], keep)|;
    }
  }

  lemma {:induction false} KeptPosition(output: seq<Item>, keep: Item -> bool, i: nat) returns (a: nat)
    requires i < |output| && keep(output[i])
    ensures a < |Kept(output, keep)| && Kept(output, keep)[a] == output[i]
  {
    var n := |output| - 1;
    KeptSnoc(output, keep);
    if i < n {
      a := KeptPosition(output[..n], keep, i);
    } else {
      a := |Kept(output[..n], keep)|;
    }
  }

  /** Calls that all differ tell their items apart, so equal calls in order mean equal items in order. */
  lemma SameCallsSameItems(a: seq<Item>, b: seq<Item>, json: string -> Option<Json>)
    requires AllSettled(a, json) && AllSettled(b, json) && multiset(a) == multiset(b)
    requires PairwiseDistinct(CallsFor(b, json)) && CallsFor(a, json) == CallsFor(b, json)
    ensures a == b
  {
    hide Settled, CallFor;
    assert |a| == |CallsFor(a, json)| == |b|;
    forall k | 0 <= k < |a| ensures a[k] == b[k] {
      assert a[k] in multiset(b);
      var m :| 0 <= m < |b| && b[m] == a[k];
      assert CallsFor(b, json)[m] == CallFor(a[k], json) == CallsFor(a, json)[k] == CallsFor(b, json)[k];
    }
  }

  /** When all calls differ, the stream's order is the message's order only if hosted calls come last. */
  lemma OrderExact(output: seq<Item>, json: string -> Option<Json>)
    requires AllSettled(Kept(output, IsCall), json) && AllSettled(Regrouped(output), json)
    requires PairwiseDistinct(CallsFor(Kept(output, IsCall), json))
    requires CallsFor(Regrouped(output), json) == CallsFor(Kept(output, IsCall), json)
    ensures HostedLast(output)
  {
    SameItems(output);
    SameCallsSameItems(Regrouped(output), Kept(output, IsCall), json);
    forall i, j | 0 <= i < j < |output| ensures !(IsHosted(output[i]) && IsFunction(output[j])) {
      if IsHosted(output[i]) && IsFunction(output[j]) {
        var a, b := KeptInOrder(output, IsCall, i, j);
        assert IsHosted(Regrouped(output)[a]) && IsFunction(Regrouped(output)[b]);
        FunctionsFirst(output, a, b);
      }
    }
  }

  lemma FunctionsFirst(output: seq<Item>, a: nat, b: nat)
    requires a < b < |Regrouped(output)|
    ensures !(IsHosted(Regrouped(output)[a]) && IsFunction(Regrouped(output)[b]))
  {
    var functions, hosted := Kept(output, IsFunction), Kept(output, IsHosted);
    if b >= |functions| {
      assert IsHosted(hosted[b - |functions|]);
    } else {
      assert IsFunction(functions[a]);
    }
  }

  // ---- Stream equals message ----

  /** Under a description, the run succeeds exactly when every argument text is usable. */
  lemma DescribedRunExact(head: seq<ServerEvent>, terminal: ServerEvent, rest: seq<ServerEvent>, output: seq<Item>,
      json: string -> Option<Json>, normalize: string -> Option<FinishReason>)
    requires Describes(head, output)
    requires terminal.Terminal? && StatusOf(terminal) == "completed"
    ensures RunOf(head + [terminal] + rest, json, normalize).failure.None?
       <==> AllParse(Kept(output, IsFunction), json)
  {
    BuffersTellItems(head, output, json, normalize);
    CompletedExact(head, terminal, rest, json, normalize);
    hide After, RunOf, Kept;
    var buffers, calls := After(head, json, normalize).state.buffers, Kept(output, IsFunction);
    assert forall i :: 0 <= i < |calls| ==> Complete(calls[i]);
    assert forall i :: 0 <= i < |calls| ==>
      (Usable(buffers[i], json) <==> ParseArguments(calls[i].arguments.value, json).Some?);
  }

  /** Every call's argument text is empty or parses to an object. */
  predicate AllParse(calls: seq<Item>, json: string -> Option<Json>) {
    forall i :: 0 <= i < |calls| ==>
      calls[i].FunctionCall? && calls[i].arguments.Some? && ParseArguments(calls[i].arguments.value, json).Some?
  }

  lemma ReadableExact(calls: seq<Item>, json: string -> Option<Json>)
    requires json("").None? && forall i :: 0 <= i < |calls| ==> Complete(calls[i])
    ensures AllReadable(calls, json) <==> AllParse(calls, json) && AllJson(calls, json)
  {
    assert forall i :: 0 <= i < |calls| ==>
      (Readable(calls[i], json) <==>
        ParseArguments(calls[i].arguments.value, json).Some? && json(Or(calls[i].arguments, "{}")).Some?);
  }

  lemma {:induction false} SameCounts(a: seq<Item>, b: seq<Item>, json: string -> Option<Json>)
    requires AllSettled(a, json) && AllSettled(b, json) && multiset(a) == multiset(b)
    ensures multiset(CallsFor(a, json)) == multiset(CallsFor(b, json))
    decreases |a|
  {
    if a == [] {
      assert |b| == |multiset(b)| == 0;
    } else {
      var n := |a| - 1;
      assert a[n] in multiset(b);
      var k :| 0 <= k < |b| && b[k] == a[n];
      var rest := b[..k] + b[k + 1..];
      Dropped(a, b, k);
      SameCounts(a[..n], rest, json);
      CallsBeside(a, n, json);
      CallsBeside(b, k, json);
      hide AllSettled, CallsFor;
      assert CallsFor(a[n + 1..], json) == [];
      assert a[..n] + a[n + 1..] == a[..n];
      InsertCounts(CallsFor(b[..k], json), CallsFor(b[k + 1..], json), CallsFor(a[..n], json), CallFor(a[n], json));
    }
  }

  lemma CallsBeside(items: seq<Item>, k: nat, json: string -> Option<Json>)
    requires AllSettled(items, json) && k < |items|
    ensures AllSettled(items[..k], json) && AllSettled(items[k + 1..], json) && Settled(items[k], json)
    ensures AllSettled(items[..k] + items[k + 1..], json)
    ensures var before, after := CallsFor(items[..k], json), CallsFor(items[k + 1..], json);
      && CallsFor(items, json) == before + [CallFor(items[k], json)] + after
      && CallsFor(items[..k] + items[k + 1..], json) == before + after
  {
    hide Settled, CallFor;
  }

  lemma Dropped<T>(a: seq<T>, b: seq<T>, k: nat)
    requires a != [] && multiset(a) == multiset(b) && k < |b| && b[k] == a[|a| - 1]
    ensures multiset(a[..|a| - 1]) == multiset(b[..k] + b[k + 1..])
  {
    LastCounts(a);
    TakenOut(b, k);
    Cancel(multiset(a[..|a| - 1]), multiset(b[..k] + b[k + 1..]), b[k]);
  }

  lemma LastCounts<T>(a: seq<T>)
    requires a != []
    ensures multiset(a) == multiset(a[..|a| - 1]) + multiset{a[|a| - 1]}
  {
    assert a == a[..|a| - 1] + [a[|a| - 1]];
  }

  lemma TakenOut<T>(b: seq<T>, k: nat)
    requires k < |b|
    ensures multiset(b) == multiset(b[..k] + b[k + 1..]) + multiset{b[k]}
  {
    assert b == (b[..k] + [b[k]]) + b[k + 1..];
  }

  lemma Cancel<T>(a: multiset<T>, b: multiset<T>, x: T)
    requires a + multiset{x} == b + multiset{x}
    ensures a == b
  {
    assert a == (a + multiset{x}) - multiset{x};
    assert b == (b + multiset{x}) - multiset{x};
  }

  lemma SameParts(a: seq<Call>, b: seq<Call>)
    requires AsParts(a) == AsParts(b)
    ensures a == b
  {
    forall i | 0 <= i < |a| ensures a[i] == b[i] {
      assert AsParts(a)[i] == AsPart(a[i]) && AsParts(b)[i] == AsPart(b[i]);
    }
  }

  /** The stream's calls, by the items of the response. */
  lemma StreamedInOrder(head: seq<ServerEvent>, terminal: ServerEvent, rest: seq<ServerEvent>, output: seq<Item>,
      json: string -> Option<Json>, normalize: string -> Option<FinishReason>) returns (calls: seq<Call>)
    requires Describes(head, output) && AllReadable(Kept(output, IsFunction), json)
    requires terminal.Terminal? && StatusOf(terminal) == "completed"
    ensures AllSettled(Kept(output, IsFunction), json) && AllSettled(Kept(output, IsHosted), json)
    ensures AllSettled(Regrouped(output), json) && calls == CallsFor(Regrouped(output), json)
    ensures var run := RunOf(head + [terminal] + rest, json, normalize);
      && run.failure.None?
      && run.output == Yields(head) + CallOutputs(calls)
         + [Finish(Some(if calls == [] then Stop else ToolCalls), "completed")]
  {
    var functionCalls, hostedCalls := StreamEqualsBatch(head, terminal, rest, output, json, normalize);
    assert AllSettled(Kept(output, IsFunction), json);
    assert AllSettled(Kept(output, IsHosted), json);
    hide Describes, AllReadable, RunOf, Kept, Yields, Settled, CallFor, PartsOf;
    PartsForKept(output, IsFunction, json);
    PartsForKept(output, IsHosted, json);
    SameParts(functionCalls, CallsFor(Kept(output, IsFunction), json));
    SameParts(hostedCalls, CallsFor(Kept(output, IsHosted), json));
    calls := functionCalls + hostedCalls;
    CallsForConcat(Kept(output, IsFunction), Kept(output, IsHosted), json);
    OutputsConcat(Yields(head), functionCalls, hostedCalls);
  }

  lemma CallsForConcat(a: seq<Item>, b: seq<Item>, json: string -> Option<Json>)
    requires AllSettled(a, json) && AllSettled(b, json)
    ensures AllSettled(a + b, json)
    ensures CallsFor(a + b, json) == CallsFor(a, json) + CallsFor(b, json)
  {
    hide Settled, CallFor;
  }

  lemma OutputsConcat(before: seq<Output>, a: seq<Call>, b: seq<Call>)
    ensures before + CallOutputs(a) + CallOutputs(b) == before + CallOutputs(a + b)
  {
    assert CallOutputs(a + b) == CallOutputs(a) + CallOutputs(b);
  }

  /** How the calls in the stream's order compare with those in the output's order. */
  lemma OrdersCompare(output: seq<Item>, json: string -> Option<Json>)
    requires AllSettled(Regrouped(output), json) && AllSettled(Kept(output, IsCall), json)
    ensures var calls, inOrder := CallsFor(Regrouped(output), json), CallsFor(Kept(output, IsCall), json);
      && multiset(calls) == multiset(inOrder)
      && (HostedLast(output) ==> calls == inOrder)
      && (PairwiseDistinct(calls) ==> (calls == inOrder <==> HostedLast(output)))
  {
    hide Kept, Settled, CallFor, HostedLast, PairwiseDistinct;
    var calls, inOrder := CallsFor(Regrouped(output), json), CallsFor(Kept(output, IsCall), json);
    SameItems(output);
    SameCounts(Regrouped(output), Kept(output, IsCall), json);
    if HostedLast(output) {
      GroupedKept(output);
    }
    if PairwiseDistinct(calls) && calls == inOrder {
      OrderExact(output, json);
    }
  }

  /** The tool calls of the message that the parser makes of the whole response. */
  function MessageCallParts(output: seq<Item>, json: string -> Option<Json>): seq<Part>
    requires PartsOf(output, Every, json).Some?
  {
    CallParts(PartsOf(output, Every, json).value)
  }

  /** The parser's calls, by the items of the response. */
  lemma ParsedInOrder(output: seq<Item>, json: string -> Option<Json>)
    requires AllSettled(Kept(output, IsCall), json)
    ensures PartsOf(output, Every, json).Some?
    ensures MessageCallParts(output, json) == AsParts(CallsFor(Kept(output, IsCall), json))
  {
    hide Kept, Settled, CallFor, PartsOf, CallParts;
    PartsForKept(output, IsCall, json);
    MessageCalls(output, json);
  }

  /** Both sides succeed exactly when all arguments are readable. */
  lemma BothSucceedExact(head: seq<ServerEvent>, terminal: ServerEvent, rest: seq<ServerEvent>, output: seq<Item>,
      json: string -> Option<Json>, normalize: string -> Option<FinishReason>)
    requires Describes(head, output) && json("").None?
    requires terminal.Terminal? && StatusOf(terminal) == "completed"
    ensures RunOf(head + [terminal] + rest, json, normalize).failure.None? && PartsOf(output, Every, json).Some?
       <==> AllReadable(Kept(output, IsFunction), json)
  {
    DescribedRunExact(head, terminal, rest, output, json, normalize);
    MessageExact(output, json);
    ReadableExact(Kept(output, IsFunction), json);
  }

  /**
   * Stream equals batch, against the parser of the whole response. For events that describe the
   * output of a completed response, the stream succeeds and the parser does not throw exactly when
   * every call's arguments are a JSON object in text that is not empty. Then both give the same
   * calls, and the stream puts function calls first: the sequences agree when no hosted call stands
   * before a function call in the output, and, if all calls differ, only then.
   */
  lemma StreamEqualsMessage(head: seq<ServerEvent>, terminal: ServerEvent, rest: seq<ServerEvent>, output: seq<Item>,
      json: string -> Option<Json>, normalize: string -> Option<FinishReason>)
    returns (streamed: seq<Call>, parsed: seq<Call>)
    requires Describes(head, output) && json("").None?
    requires terminal.Terminal? && StatusOf(terminal) == "completed"
    ensures var run, readable := RunOf(head + [terminal] + rest, json, normalize),
        AllReadable(Kept(output, IsFunction), json);
      && (run.failure.None? && PartsOf(output, Every, json).Some? <==> readable)
      && (readable ==>
            && run.output == Yields(head) + CallOutputs(streamed)
               + [Finish(Some(if streamed == [] then Stop else ToolCalls), "completed")]
            && MessageCallParts(output, json) == AsParts(parsed)
            && multiset(streamed) == multiset(parsed)
            && (HostedLast(output) ==> streamed == parsed)
            && (PairwiseDistinct(streamed) ==> (streamed == parsed <==> HostedLast(output))))
  {
    hide Describes, AllReadable, RunOf, Kept, Yields, PartsOf, Regrouped, HostedLast, PairwiseDistinct, AllSettled,
      MessageCallParts;
    BothSucceedExact(head, terminal, rest, output, json, normalize);
    streamed, parsed := [], [];
    if AllReadable(Kept(output, IsFunction), json) {
      streamed := StreamedInOrder(head, terminal, rest, output, json, normalize);
      KeptSettled(output, json);
      ParsedInOrder(output, json);
      parsed := CallsFor(Kept(output, IsCall), json);
      OrdersCompare(output, json);
    }
  }


  // ---- Where stream and parser differ ----

  function DoneCall(callId: string, name: string, text: string): Item {
    FunctionCall(Some("i"), Some(callId), Some(name), Some(text))
  }

  /** A call without argument text: the stream releases it with an empty object, the parser throws. */
  lemma EmptyArgumentsExample(callId: string, name: string, json: string -> Option<Json>,
      normalize: string -> Option<FinishReason>)
    requires callId != "" && name != "" && json("").None?
    ensures var item := DoneCall(callId, name, "");
      && RunOf([ItemEvent(true, item, None, None), Terminal(Completed, None, None)], json, normalize)
         == Run([ToolCall(Call(callId, name, Obj(map[]))), Finish(Some(ToolCalls), "completed")], None)
      && PartsOf([item], Every, json).None?
  {
    var item := DoneCall(callId, name, "");
    var event, terminal := ItemEvent(true, item, None, None), Terminal(Completed, None, None);
    AfterSnoc([], event, json, normalize);
    assert [] + [event] == [event];
    var b := Buffer("i", callId, name, "");
    assert After([event], json, normalize) == Open(State([b], [], [], false));
    EndsAt([event], terminal, [], json, normalize);
    assert [event] + [terminal] + [] == [event, terminal];
    assert [b][..0] == [] && Release([], false, json) == Released([], None);
    assert Release([b], false, json).calls == [ToolCall(Call(callId, name, Obj(map[])))];
    assert CallOutputs([]) == [];
    MessageExact([item], json);
    assert [item][..0] == [] && Kept([item], IsFunction) == [item];
  }

  /** A hosted call in front of a function call: the stream releases them in the other order. */
  lemma SwappedExample(callId: string, name: string, text: string, hostedId: string, input: Json,
      fields: map<string, Json>,
      json: string -> Option<Json>, normalize: string -> Option<FinishReason>)
    requires callId != "" && name != "" && text != "" && json(text) == Some(Obj(fields))
    ensures var hosted, item := HostedCall(None, Some(hostedId), Shell, input), DoneCall(callId, name, text);
      var first, second := Call(callId, name, Obj(fields)), Call(hostedId, "shell", input);
      && RunOf([ItemEvent(true, hosted, None, None), ItemEvent(true, item, None, None),
          Terminal(Completed, None, None)],
               json, normalize)
         == Run([ToolCall(first), ToolCall(second), Finish(Some(ToolCalls), "completed")], None)
      && PartsOf([hosted, item], Every, json) == Some(AsParts([second, first]))
  {
    var hosted, item := HostedCall(None, Some(hostedId), Shell, input), DoneCall(callId, name, text);
    var first, second := Call(callId, name, Obj(fields)), Call(hostedId, "shell", input);
    SwappedRun(hosted, item, first, second, json, normalize);
    assert [hosted, item][..1] == [hosted] && [hosted][..0] == [];
    assert PartsOf([], Every, json) == Some([]);
    assert ItemParts(hosted, 0, json) == Some([AsPart(second)]) && ItemParts(item, 1, json) == Some([AsPart(first)]);
    var p, q := AsPart(second), AsPart(first);
    assert [] + [p] == [p] && [p] + [q] == [p, q] == AsParts([second, first]);
    assert PartsOf([hosted], Every, json) == Some([p]);
    assert PartsOf([hosted, item], Every, json) == Some([p] + [q]);
  }

  lemma SwappedRun(hosted: Item, item: Item, first: Call, second: Call, json: string -> Option<Json>,
      normalize: string -> Option<FinishReason>)
    requires hosted == HostedCall(None, Some(second.id), Shell, second.input) && second.name == "shell"
    requires item.FunctionCall? && item == DoneCall(first.id, first.name, Or(item.arguments, ""))
    requires first.id != "" && first.name != "" && ParseArguments(Or(item.arguments, ""), json) == Some(first.input)
    ensures RunOf([ItemEvent(true, hosted, None, None), ItemEvent(true, item, None, None),
        Terminal(Completed, None, None)],
                  json, normalize)
         == Run([ToolCall(first), ToolCall(second), Finish(Some(ToolCalls), "completed")], None)
  {
    var one, two := ItemEvent(true, hosted, None, None), ItemEvent(true, item, None, None);
    var terminal := Terminal(Completed, None, None);
    var b := Buffer("i", first.id, first.name, Or(item.arguments, ""));
    SwappedBuffers(hosted, item, second, b, json, normalize);
    assert [b][..0] == [] && Release([], false, json) == Released([], None);
    assert Release([b], false, json) == Released([ToolCall(first)], None);
    assert CallOutputs([second]) == [ToolCall(second)];
    hide After, RunOf, Release, CallOutputs;
    EndsAt([one, two], terminal, [], json, normalize);
    assert [one, two] + [terminal] + [] == [one, two, terminal];
  }

  lemma SwappedBuffers(hosted: Item, item: Item, second: Call, b: Buffer, json: string -> Option<Json>,
      normalize: string -> Option<FinishReason>)
    requires hosted == HostedCall(None, Some(second.id), Shell, second.input) && second.name == "shell"
    requires item.FunctionCall? && item == DoneCall(b.callId, b.name, Or(item.arguments, ""))
    requires b.key == "i" && b.name != "" && b.args == Or(item.arguments, "")
    ensures After([ItemEvent(true, hosted, None, None), ItemEvent(true, item, None, None)], json, normalize)
         == Open(State([b], [second], [], false))
  {
    var one, two := ItemEvent(true, hosted, None, None), ItemEvent(true, item, None, None);
    assert [] + [one] == [one] && [one] + [two] == [one, two];
    AfterSnoc([], one, json, normalize);
    AfterSnoc([one], two, json, normalize);
    assert After([one], json, normalize) == Open(State([], [second], [], false));
  }
}
