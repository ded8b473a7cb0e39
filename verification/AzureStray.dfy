/** Azure OpenAI arguments that do not say which call they belong to. */
module AzureStray {
  import opened AzureBatch
  import opened AzureCalls
  import opened AzureResponses
  import opened Decimal
  import opened Json
  import opened Wrappers

  /** Arguments with neither an item id nor an output index. */
  predicate Stray(event: ServerEvent) {
    (event.ArgumentsDelta? || event.ArgumentsDone?) && KeyOf(event).None?
  }

  /** Some event carries this key and gives the call a name. */
  predicate Names(events: seq<ServerEvent>, key: string) {
    exists i :: 0 <= i < |events| && NamesAt(events[i], key)
  }

  predicate NamesAt(event: ServerEvent, key: string) {
    KeyOf(event) == Some(key) && NameIn(event) != ""
  }

  lemma NamesSnoc(events: seq<ServerEvent>, event: ServerEvent, key: string)
    ensures Names(events + [event], key) <==> Names(events, key) || NamesAt(event, key)
  {
    var more := events + [event];
    assert forall i :: 0 <= i < |events| ==> more[i] == events[i];
    assert more[|events|] == event;
  }

  // ---- Reading the buffers back by key ----

  lemma {:induction false} GetPut(buffers: seq<Buffer>, b: Buffer, key: string)
    ensures Get(Put(buffers, b), key) == if b.key == key then b else Get(buffers, key)
    ensures key in KeysOf(Put(buffers, b)) <==> key in KeysOf(buffers) || key == b.key
  {
    if buffers != [] {
      var tail := buffers[1..];
      KeysCons(buffers);
      if buffers[0].key == b.key {
        var put := [b] + tail;
        assert Put(buffers, b) == put && put[1..] == tail;
        KeysCons(put);
      } else {
        GetPut(tail, b, key);
        var put := [buffers[0]] + Put(tail, b);
        assert Put(buffers, b) == put && put[1..] == Put(tail, b);
        KeysCons(put);
      }
    } else {
      assert [b][1..] == [];
      KeysCons([b]);
    }
  }

  lemma KeysCons(buffers: seq<Buffer>)
    requires buffers != []
    ensures KeysOf(buffers) == [buffers[0].key] + KeysOf(buffers[1..])
  {
  }

  lemma {:induction false} GetKey(buffers: seq<Buffer>, key: string)
    ensures Get(buffers, key).key == key
    ensures key !in KeysOf(buffers) ==> Get(buffers, key) == NewBuffer(key)
    ensures key in KeysOf(buffers) ==> exists i :: 0 <= i < |buffers| && buffers[i] == Get(buffers, key)
  {
    if buffers != [] {
      KeysCons(buffers);
      GetKey(buffers[1..], key);
      if buffers[0].key != key && key in KeysOf(buffers) {
        var i :| 0 <= i < |buffers[1..]| && buffers[1..][i] == Get(buffers[1..], key);
        assert buffers[i + 1] == Get(buffers, key);
      }
    }
  }

  lemma PutDistinct(buffers: seq<Buffer>, b: Buffer)
    requires Distinct(KeysOf(buffers))
    ensures Distinct(KeysOf(Put(buffers, b)))
    ensures |buffers| <= |Put(buffers, b)|
  {
    if b.key in KeysOf(buffers) {
      var i :| 0 <= i < |buffers| && KeysOf(buffers)[i] == b.key;
      PutAt(buffers, i, b);
      assert KeysOf(buffers[i := b]) == KeysOf(buffers);
    } else {
      PutNew(buffers, b);
      DistinctSnoc(KeysOf(buffers), b.key);
      assert KeysOf(buffers + [b]) == KeysOf(buffers) + [b.key];
    }
  }

  lemma {:induction false} KeysStayDistinct(events: seq<ServerEvent>, json: string -> Option<Json>,
      normalize: string -> Option<FinishReason>)
    requires Running(events)
    ensures After(events, json, normalize).Open?
    ensures Distinct(KeysOf(After(events, json, normalize).state.buffers))
  {
    if events != [] {
      var init, event := events[..|events| - 1], events[|events| - 1];
      assert events == init + [event];
      KeysStayDistinct(init, json, normalize);
      AfterSnoc(init, event, json, normalize);
      hide After;
      var state := After(init, json, normalize).state;
      StepBuffers(state, event, json, normalize);
      if IsToolEvent(event) {
        PutDistinct(state.buffers, Apply(Get(state.buffers, KeyAt(event, |state.buffers|)), event));
      }
    }
  }

  // ---- A key that was given by position ----

  /** One event leaves the call under an already used position alone unless it carries that very key. */
  lemma TurnName(buffers: seq<Buffer>, event: ServerEvent, n: nat)
    requires IsToolEvent(event) && n < |buffers|
    ensures var after := TakeToolEvent(buffers, event);
      Get(after, Show(n)).name
      == if Get(buffers, Show(n)).name == "" && KeyOf(event) == Some(Show(n)) then NameIn(event)
         else Get(buffers, Show(n)).name
  {
    var key := KeyAt(event, |buffers|);
    if key == Show(n) && KeyOf(event).None? {
      ShowInjective(n, |buffers|);
    }
    var b := Get(buffers, key);
    GetKey(buffers, key);
    ApplyKeepsKey(b, event);
    ApplyNames(b, event);
    GetPut(buffers, Apply(b, event), Show(n));
  }

  /** Later events name the call under a used position exactly when one of them carries its key and a name. */
  lemma {:induction false} TailNames(start: seq<ServerEvent>, more: seq<ServerEvent>, n: nat,
      json: string -> Option<Json>, normalize: string -> Option<FinishReason>)
    requires Running(start) && Running(more)
    requires After(start, json, normalize).Open? && n < |After(start, json, normalize).state.buffers|
    ensures var p := After(start + more, json, normalize);
      && p.Open? && n < |p.state.buffers|
      && (Get(p.state.buffers, Show(n)).name == ""
          <==> Get(After(start, json, normalize).state.buffers, Show(n)).name == "" && !Names(more, Show(n)))
    decreases |more|
  {
    if more == [] {
      assert start + more == start;
    } else {
      var init, event := more[..|more| - 1], more[|more| - 1];
      assert more == init + [event] && start + more == (start + init) + [event];
      TailNames(start, init, n, json, normalize);
      AfterSnoc(start + init, event, json, normalize);
      NamesSnoc(init, event, Show(n));
      KeysStayDistinct(start + init, json, normalize);
      hide After, Names;
      var state := After(start + init, json, normalize).state;
      StepBuffers(state, event, json, normalize);
      if IsToolEvent(event) {
        TurnName(state.buffers, event, n);
        PutDistinct(state.buffers, Apply(Get(state.buffers, KeyAt(event, |state.buffers|)), event));
      }
    }
  }

  /** The stray arguments are filed under the number of calls, and name nothing. */
  lemma StrayFiled(head: seq<ServerEvent>, stray: ServerEvent, json: string -> Option<Json>,
      normalize: string -> Option<FinishReason>)
    requires Running(head) && Stray(stray)
    ensures After(head, json, normalize).Open? && After(head + [stray], json, normalize).Open?
    ensures var before := After(head, json, normalize).state.buffers;
      var after := After(head + [stray], json, normalize).state.buffers;
      var key := Show(|before|);
      && Get(after, key).name == Get(before, key).name
      && key in KeysOf(after)
      && (|before| < |after| <==> key !in KeysOf(before))
      && |before| <= |after|
  {
    KeysStayDistinct(head, json, normalize);
    AfterSnoc(head, stray, json, normalize);
    hide After;
    var state := After(head, json, normalize).state;
    StepBuffers(state, stray, json, normalize);
    var key := Show(|state.buffers|);
    var b := Get(state.buffers, key);
    GetKey(state.buffers, key);
    ApplyKeepsKey(b, stray);
    GetPut(state.buffers, Apply(b, stray), key);
    PutDistinct(state.buffers, Apply(b, stray));
    if key in KeysOf(state.buffers) {
      var i :| 0 <= i < |state.buffers| && KeysOf(state.buffers)[i] == key;
      PutAt(state.buffers, i, Apply(b, stray));
    } else {
      PutNew(state.buffers, Apply(b, stray));
    }
  }

  // ---- A name stays ----

  lemma {:induction false} NameStays(start: seq<ServerEvent>, more: seq<ServerEvent>, key: string,
      json: string -> Option<Json>, normalize: string -> Option<FinishReason>)
    requires Running(start) && Running(more) && After(start, json, normalize).Open?
    requires Get(After(start, json, normalize).state.buffers, key).name != ""
    ensures After(start + more, json, normalize).Open?
    ensures Get(After(start + more, json, normalize).state.buffers, key).name != ""
    decreases |more|
  {
    if more == [] {
      assert start + more == start;
    } else {
      var init, event := more[..|more| - 1], more[|more| - 1];
      assert start + more == (start + init) + [event];
      NameStays(start, init, key, json, normalize);
      AfterSnoc(start + init, event, json, normalize);
      hide After;
      var state := After(start + init, json, normalize).state;
      StepBuffers(state, event, json, normalize);
      if IsToolEvent(event) {
        var b := Get(state.buffers, KeyAt(event, |state.buffers|));
        GetKey(state.buffers, KeyAt(event, |state.buffers|));
        ApplyKeepsKey(b, event);
        ApplyNames(b, event);
        GetPut(state.buffers, Apply(b, event), key);
      }
    }
  }

  // ---- The run ----

  /** Nothing is wrong with the calls but for the name of one of them. */
  ghost predicate OnlyNameMissing(buffers: seq<Buffer>, key: string, json: string -> Option<Json>) {
    && (forall i :: 0 <= i < |buffers| && buffers[i].key != key ==> Usable(buffers[i], json))
    && Get(buffers, key).callId != ""
    && ParseArguments(Get(buffers, key).args, json).Some?
  }

  lemma UsableBut(buffers: seq<Buffer>, key: string, json: string -> Option<Json>)
    requires Distinct(KeysOf(buffers)) && key in KeysOf(buffers)
    ensures Get(buffers, key).name == "" ==> exists i :: 0 <= i < |buffers| && !Usable(buffers[i], json)
    ensures OnlyNameMissing(buffers, key, json) && Get(buffers, key).name != "" ==>
      forall i :: 0 <= i < |buffers| ==> Usable(buffers[i], json)
  {
    GetKey(buffers, key);
    var k :| 0 <= k < |buffers| && buffers[k] == Get(buffers, key);
    forall i | 0 <= i < |buffers| && buffers[i].key == key ensures i == k {
      assert KeysOf(buffers)[i] == KeysOf(buffers)[k];
    }
  }

  /** The events of a run with stray arguments between its head and the rest. */
  function WithStray(head: seq<ServerEvent>, stray: ServerEvent, more: seq<ServerEvent>): seq<ServerEvent> {
    head + [stray] + more
  }

  lemma RunningStray(head: seq<ServerEvent>, stray: ServerEvent, more: seq<ServerEvent>)
    requires Running(head) && Stray(stray) && Running(more)
    ensures Running(head + [stray]) && Running(WithStray(head, stray, more))
  {
  }

  lemma StrayKey(head: seq<ServerEvent>, stray: ServerEvent, more: seq<ServerEvent>, json: string -> Option<Json>,
      normalize: string -> Option<FinishReason>)
    requires Running(head) && Stray(stray) && Running(more)
    ensures Running(WithStray(head, stray, more))
    ensures After(head, json, normalize).Open? && After(WithStray(head, stray, more), json, normalize).Open?
    ensures var after := After(WithStray(head, stray, more), json, normalize).state.buffers;
      Show(|After(head, json, normalize).state.buffers|) in KeysOf(after) && Distinct(KeysOf(after))
  {
    RunningStray(head, stray, more);
    hide After, KeysOf, Distinct, Get, Show, Running, Stray;
    StrayFiled(head, stray, json, normalize);
    KeysStayDistinct(WithStray(head, stray, more), json, normalize);
    KeyStays(head + [stray], more, Show(|After(head, json, normalize).state.buffers|), json, normalize);
  }

  lemma StrayCall(head: seq<ServerEvent>, stray: ServerEvent, more: seq<ServerEvent>, json: string -> Option<Json>,
      normalize: string -> Option<FinishReason>)
    requires Running(head) && Stray(stray) && Running(more)
    ensures After(head, json, normalize).Open? && After(WithStray(head, stray, more), json, normalize).Open?
    ensures var before := After(head, json, normalize).state.buffers;
      var after := After(WithStray(head, stray, more), json, normalize).state.buffers;
      var key := Show(|before|);
      && (key !in KeysOf(before) ==> (Get(after, key).name == "" <==> !Names(more, key)))
      && (Get(before, key).name != "" ==> Get(after, key).name != "")
  {
    var start := head + [stray];
    StrayFiled(head, stray, json, normalize);
    StrayKey(head, stray, more, json, normalize);
    hide After, Names, Distinct, Show;
    var before := After(head, json, normalize).state.buffers;
    var key := Show(|before|);
    GetKey(before, key);
    hide KeysOf, Get;
    if key !in KeysOf(before) {
      TailNames(start, more, |before|, json, normalize);
    }
    if Get(before, key).name != "" {
      NameStays(start, more, key, json, normalize);
    }
  }

  lemma {:induction false} KeyStays(start: seq<ServerEvent>, more: seq<ServerEvent>, key: string,
      json: string -> Option<Json>, normalize: string -> Option<FinishReason>)
    requires Running(start) && Running(more) && After(start, json, normalize).Open?
    requires key in KeysOf(After(start, json, normalize).state.buffers)
    ensures After(start + more, json, normalize).Open?
    ensures key in KeysOf(After(start + more, json, normalize).state.buffers)
    decreases |more|
  {
    if more == [] {
      assert start + more == start;
    } else {
      var init, event := more[..|more| - 1], more[|more| - 1];
      assert start + more == (start + init) + [event];
      KeyStays(start, init, key, json, normalize);
      AfterSnoc(start + init, event, json, normalize);
      hide After;
      var state := After(start + init, json, normalize).state;
      StepBuffers(state, event, json, normalize);
      if IsToolEvent(event) {
        GetPut(state.buffers, Apply(Get(state.buffers, KeyAt(event, |state.buffers|)), event), key);
      }
    }
  }

  /**
   * Stray arguments are filed under the number of calls so far. If no call has that key and no
   * later event names one under it, the completed run fails, whatever else it holds. When nothing
   * else is wrong with the calls, it fails exactly then: a call already filed under that number
   * takes the arguments, and a later call under that output index adopts them.
   */
  lemma StrayArgumentsExact(head: seq<ServerEvent>, stray: ServerEvent, more: seq<ServerEvent>, terminal: ServerEvent,
      rest: seq<ServerEvent>, json: string -> Option<Json>, normalize: string -> Option<FinishReason>)
    requires Running(head) && Stray(stray) && Running(more)
    requires terminal.Terminal? && StatusOf(terminal) == "completed"
    ensures After(head, json, normalize).Open? && After(WithStray(head, stray, more), json, normalize).Open?
    ensures var before := After(head, json, normalize).state.buffers;
      var after := After(WithStray(head, stray, more), json, normalize).state.buffers;
      var key := Show(|before|);
      var run := RunOf(WithStray(head, stray, more) + [terminal] + rest, json, normalize);
      var lost := key !in KeysOf(before) && !Names(more, key);
      && (lost ==> run.failure.Some?)
      && (OnlyNameMissing(after, key, json) && (key in KeysOf(before) ==> Get(before, key).name != "") ==>
            (run.failure.Some? <==> lost))
  {
    var events := WithStray(head, stray, more);
    StrayKey(head, stray, more, json, normalize);
    StrayCall(head, stray, more, json, normalize);
    CompletedExact(events, terminal, rest, json, normalize);
    hide After, RunOf, Names, OnlyNameMissing, Usable;
    var before, after := After(head, json, normalize).state.buffers, After(events, json, normalize).state.buffers;
    UsableBut(after, Show(|before|), json);
  }

  /** When the events before carry their keys, the number and the keys of the calls can be read off them. */
  lemma StrayArgumentsAfterKeyed(head: seq<ServerEvent>, stray: ServerEvent, more: seq<ServerEvent>,
      terminal: ServerEvent, rest: seq<ServerEvent>, json: string -> Option<Json>,
      normalize: string -> Option<FinishReason>)
    requires Running(head) && Keyed(head) && Stray(stray) && Running(more)
    requires terminal.Terminal? && StatusOf(terminal) == "completed"
    requires var key := Show(|Keys(head)|); key !in Keys(head) && !Names(more, key)
    ensures RunOf(WithStray(head, stray, more) + [terminal] + rest, json, normalize).failure.Some?
  {
    BuffersByKey(head, json, normalize);
    StrayArgumentsExact(head, stray, more, terminal, rest, json, normalize);
  }

  /** One call without a key, and its arguments without a key: a completed response that fails. */
  lemma StrayArgumentsExample(callId: string, name: string, text: string, json: string -> Option<Json>,
      normalize: string -> Option<FinishReason>)
    ensures RunOf([ItemEvent(false, FunctionCall(None, Some(callId), Some(name), None), None, None),
                   ArgumentsDelta(None, None, Some(text)), Terminal(Completed, None, None)],
                  json, normalize).failure.Some?
  {
    var item := ItemEvent(false, FunctionCall(None, Some(callId), Some(name), None), None, None);
    var stray, terminal := ArgumentsDelta(None, None, Some(text)), Terminal(Completed, None, None);
    AfterSnoc([], item, json, normalize);
    assert [] + [item] == [item];
    assert After([item], json, normalize).state.buffers == [Buffer("0", callId, name, "")];
    assert KeysOf([Buffer("0", callId, name, "")]) == ["0"];
    assert Show(0) == "0" && Show(1) == "1";
    StrayArgumentsExact([item], stray, [], terminal, [], json, normalize);
    assert WithStray([item], stray, []) + [terminal] + [] == [item, stray, terminal];
  }

  lemma AdoptedBuffers(callId: string, name: string, text: string, json: string -> Option<Json>,
      normalize: string -> Option<FinishReason>)
    requires callId != "" && name != ""
    ensures var after := After([ArgumentsDelta(None, None, Some(text)),
        ItemEvent(false, FunctionCall(None, Some(callId), Some(name), None), None, Some(0))], json, normalize);
      after.Open? && after.state.buffers == [Buffer("0", callId, name, text)]
  {
    var stray := ArgumentsDelta(None, None, Some(text));
    var item := ItemEvent(false, FunctionCall(None, Some(callId), Some(name), None), None, Some(0));
    assert [] + [stray] == [stray] && [stray] + [item] == [stray, item] && "" + text == text;
    AfterSnoc([], stray, json, normalize);
    AfterSnoc([stray], item, json, normalize);
    assert After([stray], json, normalize).state.buffers == [Buffer("0", "0", "", text)];
  }

  /** The same arguments, adopted by a call that comes later under the output index 0: the run succeeds. */
  lemma AdoptedArgumentsExample(callId: string, name: string, text: string, json: string -> Option<Json>,
      normalize: string -> Option<FinishReason>)
    requires callId != "" && name != "" && ParseArguments(text, json).Some?
    ensures RunOf([ArgumentsDelta(None, None, Some(text)),
                   ItemEvent(false, FunctionCall(None, Some(callId), Some(name), None), None, Some(0)),
                   Terminal(Completed, None, None)], json, normalize).failure.None?
  {
    var stray, terminal := ArgumentsDelta(None, None, Some(text)), Terminal(Completed, None, None);
    var item := ItemEvent(false, FunctionCall(None, Some(callId), Some(name), None), None, Some(0));
    AdoptedBuffers(callId, name, text, json, normalize);
    hide After, RunOf;
    CompletedExact([stray, item], terminal, [], json, normalize);
    assert [stray, item] + [terminal] + [] == [stray, item, terminal];
  }
}
