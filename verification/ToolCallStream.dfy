/** Streaming tool-call assembly, twice: the adapter gathers fragments by the index
    of the call, and hands the runtime events that it gathers again by the id. */
module ToolCallStream {
  import opened Prelude
  import opened Messages

  /** Reading arguments as JSON; `None` where the text is not JSON. */
  type Parser = string -> Option<Json>

  datatype Delta = Delta(
    index: Option<nat>, id: Option<string>, name: Option<string>, arguments: Option<string>)

  datatype FinishReason = Stop | ToolCalls | Length | ContentFilter | Unknown(reason: string)

  datatype TokenUsage = TokenUsage(promptTokens: u32, completionTokens: u32)

  datatype StreamEvent =
    | TextDelta(delta: string)
    | ToolCallStarted(id: string, name: string)
    | ToolCallArgumentsDelta(id: string, delta: string)
    | ToolCallCompleted(call: ToolCall)
    | Finished(finishReason: FinishReason, usage: Option<TokenUsage>)

  datatype Output = Ok(event: StreamEvent) | DecodeError

  /** The adapter's memory of one answer. */
  datatype State = State(
    ids: map<nat, string>, names: map<nat, string>, args: map<nat, string>, started: set<nat>)

  const EMPTY_STATE := State(map[], map[], map[], {})

  // ---- Indices and fallback names ----

  function Index(d: Delta): nat {
    if d.index.Some? then d.index.value else 0
  }

  function Digit(n: nat): char
    requires n < 10
  {
    ['0', '1', '2', '3', '4', '5', '6', '7', '8', '9'][n]
  }

  function Decimal(n: nat): string {
    if n < 10 then [Digit(n)] else Decimal(n / 10) + [Digit(n % 10)]
  }

  function FallbackId(index: nat): string {
    "call_" + Decimal(index)
  }

  function IdOf(st: State, index: nat): string {
    if index in st.ids then st.ids[index] else FallbackId(index)
  }

  // ---- One delta ----

  /** The state once the delta's id and name are noted. */
  function Note(st: State, d: Delta): State {
    var i := Index(d);
    st.(ids := if d.id.Some? then st.ids[i := d.id.value] else st.ids,
        names := if d.name.Some? then st.names[i := d.name.value] else st.names)
  }

  predicate Nameable(st: State, i: nat) {
    i in st.ids && i in st.names && st.ids[i] != "" && st.names[i] != ""
  }

  /** A call starts when its id and name are both known, once. */
  predicate Starts(st: State, d: Delta) {
    Nameable(Note(st, d), Index(d)) && Index(d) !in st.started
  }

  function AppendArgs(args: map<nat, string>, i: nat, fragment: string): map<nat, string> {
    args[i := (if i in args then args[i] else "") + fragment]
  }

  function ApplyDelta(st: State, d: Delta): State {
    var noted := Note(st, d);
    noted.(started := if Starts(st, d) then st.started + {Index(d)} else st.started,
           args := if d.arguments.Some? then AppendArgs(st.args, Index(d), d.arguments.value) else st.args)
  }

  function Emit(st: State, d: Delta): seq<StreamEvent> {
    var noted, i := Note(st, d), Index(d);
    (if Starts(st, d) then [ToolCallStarted(noted.ids[i], noted.names[i])] else []) +
    (if d.arguments.Some? then [ToolCallArgumentsDelta(IdOf(noted, i), d.arguments.value)] else [])
  }

  function ApplyAll(st: State, ds: seq<Delta>): State {
    if ds == [] then st else ApplyDelta(ApplyAll(st, ds[..|ds| - 1]), ds[|ds| - 1])
  }

  function EmitAll(st: State, ds: seq<Delta>): seq<StreamEvent> {
    if ds == [] then []
    else EmitAll(st, ds[..|ds| - 1]) + Emit(ApplyAll(st, ds[..|ds| - 1]), ds[|ds| - 1])
  }

  // ---- Completion ----

  lemma {:induction false} MaxExists(s: set<nat>)
    requires s != {}
    ensures exists m :: m in s && forall k :: k in s ==> k <= m
  {
    var x :| x in s;
    if s != {x} {
      assert s - {x} != {};
      MaxExists(s - {x});
      var m :| m in s - {x} && forall k :: k in s - {x} ==> k <= m;
      var top := if m >= x then m else x;
      assert top in s;
      forall k | k in s ensures k <= top {
        assert k == x || k in s - {x};
      }
    }
  }

  function Largest(s: set<nat>): (m: nat)
    requires s != {}
    ensures m in s && forall k :: k in s ==> k <= m
  {
    MaxExists(s);
    var m :| m in s && forall k :: k in s ==> k <= m;
    m
  }

  function Sorted(s: set<nat>): seq<nat> {
    if s == {} then [] else Sorted(s - {Largest(s)}) + [Largest(s)]
  }

  /** The keys in increasing order, each once. */
  lemma {:induction false} SortedIsSorted(s: set<nat>)
    ensures forall k :: k in Sorted(s) <==> k in s
    ensures forall i, j :: 0 <= i < j < |Sorted(s)| ==> Sorted(s)[i] < Sorted(s)[j]
    ensures |Sorted(s)| == |s|
  {
    if s != {} {
      var m := Largest(s);
      var front := Sorted(s - {m});
      SortedIsSorted(s - {m});
      assert Sorted(s) == front + [m];
      forall i | 0 <= i < |front| ensures front[i] < m {
        assert front[i] in s - {m};
      }
    }
  }

  function ParseArguments(raw: string, parse: Parser): Json {
    if parse(raw).Some? then parse(raw).value else Null
  }

  function CallAt(st: State, i: nat, parse: Parser): ToolCall
    requires i in st.names
  {
    ToolCall(IdOf(st, i), st.names[i], if i in st.args then ParseArguments(st.args[i], parse) else Null)
  }

  /** The calls at the given indices that have a name. */
  function CallsAt(st: State, indices: seq<nat>, parse: Parser): seq<ToolCall> {
    if indices == [] then []
    else
      var i := indices[|indices| - 1];
      CallsAt(st, indices[..|indices| - 1], parse) +
      (if i in st.names then [CallAt(st, i, parse)] else [])
  }

  function Completed(st: State, parse: Parser): seq<ToolCall> {
    CallsAt(st, Sorted(st.ids.Keys + st.names.Keys + st.args.Keys), parse)
  }

  // ---- Chunks ----

  datatype Choice = Choice(content: Option<string>, toolCalls: Option<seq<Delta>>, finishReason: Option<string>)

  datatype Chunk = Chunk(choices: seq<Choice>, usage: Option<TokenUsage>)

  function ConvertFinish(reason: string): FinishReason {
    if reason == "stop" then Stop
    else if reason == "tool_calls" then ToolCalls
    else if reason == "length" then Length
    else if reason == "content_filter" then ContentFilter
    else Unknown(reason)
  }

  function CompletedEvents(calls: seq<ToolCall>): seq<StreamEvent> {
    if calls == [] then []
    else CompletedEvents(calls[..|calls| - 1]) + [ToolCallCompleted(calls[|calls| - 1])]
  }

  /** A chunk that finishes the answer says nothing else; otherwise its text comes
      before its tool-call deltas. Only the first choice counts. */
  function ChunkEvents(st: State, c: Chunk, parse: Parser): seq<StreamEvent> {
    if c.choices == [] then []
    else
      var choice := c.choices[0];
      if choice.finishReason.Some? then
        var reason := ConvertFinish(choice.finishReason.value);
        (if reason.ToolCalls? then CompletedEvents(Completed(st, parse)) else []) + [Finished(reason, c.usage)]
      else
        (if choice.content.Some? && choice.content.value != "" then [TextDelta(choice.content.value)] else []) +
        (if choice.toolCalls.Some? then EmitAll(st, choice.toolCalls.value) else [])
  }

  function ChunkState(st: State, c: Chunk): State {
    if c.choices == [] then st
    else
      var choice := c.choices[0];
      if choice.finishReason.Some? then
        if ConvertFinish(choice.finishReason.value).ToolCalls? then EMPTY_STATE else st
      else if choice.toolCalls.Some? then ApplyAll(st, choice.toolCalls.value)
      else st
  }

  function Oks(events: seq<StreamEvent>): (r: seq<Output>)
    ensures |r| == |events|
    ensures forall i :: 0 <= i < |r| ==> r[i] == Ok(events[i])
  {
    if events == [] then [] else Oks(events[..|events| - 1]) + [Ok(events[|events| - 1])]
  }

  class OpenAiStreamState {
    var indexToId: map<nat, string>
    var indexToName: map<nat, string>
    var indexToArgs: map<nat, string>
    var startedIndices: set<nat>

    ghost function Value(): State
      reads this
    {
      State(indexToId, indexToName, indexToArgs, startedIndices)
    }

    constructor ()
      ensures Value() == EMPTY_STATE
    {
      indexToId, indexToName, indexToArgs, startedIndices := map[], map[], map[], {};
    }

    method CompletedToolCalls(parse: Parser) returns (calls: seq<ToolCall>)
      modifies this
      ensures calls == Completed(old(Value()), parse)
      ensures Value() == EMPTY_STATE
    {
      var indices := Sorted(indexToId.Keys + indexToName.Keys + indexToArgs.Keys);
      ghost var st := Value();
      calls := [];
      for k := 0 to |indices|
        invariant calls == CallsAt(st, indices[..k], parse)
        invariant indexToId == st.ids && indexToName == st.names && indexToArgs == st.args
      {
        assert indices[..k + 1][..k] == indices[..k];
        var index := indices[k];
        if index !in indexToName {
          continue;
        }
        var name := indexToName[index];
        var id := if index in indexToId then indexToId[index] else FallbackId(index);
        var arguments := if index in indexToArgs then ParseArguments(indexToArgs[index], parse) else Null;
        calls := calls + [ToolCall(id, name, arguments)];
      }
      assert indices[..|indices|] == indices;
      indexToId, indexToName, indexToArgs, startedIndices := map[], map[], map[], {};
    }

    /** One round of the loop below. */
    method ConvertDelta(call: Delta) returns (events: seq<StreamEvent>)
      modifies this
      ensures Value() == ApplyDelta(old(Value()), call)
      ensures events == Emit(old(Value()), call)
    {
      events := [];
      var index := Index(call);
      if call.id.Some? {
        indexToId := indexToId[index := call.id.value];
      }
      if call.name.Some? {
        indexToName := indexToName[index := call.name.value];
      }
      if index in indexToId && index in indexToName && indexToId[index] != "" && indexToName[index] != ""
         && index !in startedIndices {
        startedIndices := startedIndices + {index};
        events := [ToolCallStarted(indexToId[index], indexToName[index])];
      }
      if call.arguments.Some? {
        indexToArgs := AppendArgs(indexToArgs, index, call.arguments.value);
        var callId := if index in indexToId then indexToId[index] else FallbackId(index);
        events := events + [ToolCallArgumentsDelta(callId, call.arguments.value)];
      }
    }

    method ConvertToolCallDeltas(calls: seq<Delta>) returns (events: seq<StreamEvent>)
      modifies this
      ensures Value() == ApplyAll(old(Value()), calls)
      ensures events == EmitAll(old(Value()), calls)
    {
      events := [];
      for k := 0 to |calls|
        invariant Value() == ApplyAll(old(Value()), calls[..k])
        invariant events == EmitAll(old(Value()), calls[..k])
      {
        assert calls[..k + 1][..k] == calls[..k];
        var emitted := ConvertDelta(calls[k]);
        events := events + emitted;
      }
      assert calls[..|calls|] == calls;
    }

    /** One line of the stream: `None` is a line that is no chunk. */
    method ParseChunkEvent(data: Option<Chunk>, parse: Parser) returns (events: seq<Output>)
      modifies this
      ensures data.None? ==> events == [DecodeError] && Value() == old(Value())
      ensures data.Some? ==>
        events == Oks(ChunkEvents(old(Value()), data.value, parse)) && Value() == ChunkState(old(Value()), data.value)
    {
      if data.None? {
        return [DecodeError];
      }
      var chunk := data.value;
      if chunk.choices == [] {
        return [];
      }
      var choice := chunk.choices[0];
      var out: seq<StreamEvent> := [];
      if choice.finishReason.Some? {
        var reason := ConvertFinish(choice.finishReason.value);
        if reason.ToolCalls? {
          var calls := CompletedToolCalls(parse);
          out := CompletedEvents(calls);
        }
        return Oks(out + [Finished(reason, chunk.usage)]);
      }
      if choice.content.Some? && choice.content.value != "" {
        out := [TextDelta(choice.content.value)];
      }
      if choice.toolCalls.Some? {
        var more := ConvertToolCallDeltas(choice.toolCalls.value);
        out := out + more;
      }
      events := Oks(out);
    }
  }

  // ---- The runtime's accumulator ----

  datatype Partial = Partial(id: string, name: string, arguments: string)

  datatype Accumulated = Accumulated(text: string, calls: map<string, Partial>)

  const NOTHING := Accumulated("", map[])

  /** What the run loop does with one event. */
  function Feed(acc: Accumulated, e: StreamEvent): Accumulated {
    match e
    case TextDelta(delta) => acc.(text := acc.text + delta)
    case ToolCallStarted(id, name) => acc.(calls := acc.calls[id := Partial(id, name, "")])
    case ToolCallArgumentsDelta(id, delta) =>
      if id in acc.calls
      then acc.(calls := acc.calls[id := acc.calls[id].(arguments := acc.calls[id].arguments + delta)])
      else acc
    case ToolCallCompleted(_) => acc
    case Finished(_, _) => acc
  }

  function FeedAll(acc: Accumulated, events: seq<StreamEvent>): Accumulated {
    if events == [] then acc else Feed(FeedAll(acc, events[..|events| - 1]), events[|events| - 1])
  }

  function Assembled(p: Partial, parse: Parser): ToolCall {
    ToolCall(p.id, p.name, ParseArguments(p.arguments, parse))
  }

  ghost function AssembledCalls(acc: Accumulated, parse: Parser): set<ToolCall> {
    set id | id in acc.calls :: Assembled(acc.calls[id], parse)
  }

  /** The call has the name gathered under its id, and for arguments what the reader makes
      of the text gathered there, or null if it rejects it. */
  ghost predicate IsReadFrom(call: ToolCall, calls: map<string, Partial>, parse: Parser) {
    && call.id in calls && call.name == calls[call.id].name
    && (parse(calls[call.id].arguments).None? ==> call.arguments == Null)
    && (forall v :: parse(calls[call.id].arguments) == Some(v) ==> call.arguments == v)
  }

  class StreamAccumulator {
    var text: string
    var toolCalls: map<string, Partial>

    ghost function Value(): Accumulated
      reads this
    {
      Accumulated(text, toolCalls)
    }

    ghost predicate Valid()
      reads this
    {
      forall id :: id in toolCalls ==> toolCalls[id].id == id
    }

    constructor ()
      ensures Value() == NOTHING && Valid()
    {
      text, toolCalls := "", map[];
    }

    method AppendText(delta: string)
      modifies this`text
      ensures Value() == Feed(old(Value()), TextDelta(delta))
    {
      text := text + delta;
    }

    method StartToolCall(id: string, name: string)
      modifies this`toolCalls
      ensures Value() == Feed(old(Value()), ToolCallStarted(id, name))
      ensures old(Valid()) ==> Valid()
    {
      toolCalls := toolCalls[id := Partial(id, name, "")];
    }

    method AppendToolArguments(id: string, delta: string)
      modifies this`toolCalls
      ensures Value() == Feed(old(Value()), ToolCallArgumentsDelta(id, delta))
      ensures old(Valid()) ==> Valid()
    {
      if id in toolCalls {
        var call := toolCalls[id];
        toolCalls := toolCalls[id := call.(arguments := call.arguments + delta)];
      }
    }

    /** The calls, each once, in no particular order. */
    method ToolCalls(parse: Parser) returns (calls: seq<ToolCall>)
      requires Valid()
      ensures |calls| == |toolCalls|
      ensures forall i, j :: 0 <= i < j < |calls| ==> calls[i].id != calls[j].id
      ensures (set c | c in calls) == AssembledCalls(Value(), parse)
      ensures forall i :: 0 <= i < |calls| ==> IsReadFrom(calls[i], toolCalls, parse)
    {
      calls := [];
      var left := toolCalls.Keys;
      while left != {}
        invariant left <= toolCalls.Keys && |calls| + |left| == |toolCalls|
        invariant forall i, j :: 0 <= i < j < |calls| ==> calls[i].id != calls[j].id
        invariant forall i :: 0 <= i < |calls| ==>
          calls[i].id in toolCalls.Keys - left && calls[i] == Assembled(toolCalls[calls[i].id], parse)
        invariant forall i :: 0 <= i < |calls| ==> IsReadFrom(calls[i], toolCalls, parse)
        invariant forall id :: id in toolCalls.Keys - left ==> Assembled(toolCalls[id], parse) in calls
        decreases left
      {
        var id :| id in left;
        left := left - {id};
        calls := calls + [Assembled(toolCalls[id], parse)];
      }
    }

    method ToMessage(parse: Parser) returns (m: Message)
      requires Valid()
      ensures m.Assistant? && (set c | c in m.toolCalls) == AssembledCalls(Value(), parse)
      ensures |m.toolCalls| == |toolCalls|
      ensures forall i :: 0 <= i < |m.toolCalls| ==> IsReadFrom(m.toolCalls[i], toolCalls, parse)
      ensures m.content == if text == "" then [] else [Text(text)]
    {
      var calls := ToolCalls(parse);
      if calls == [] && text == "" {
        m := Assistant([], []);
      } else if calls == [] {
        m := Assistant([Text(text)], []);
      } else {
        m := Assistant(if text == "" then [] else [Text(text)], calls);
      }
      assert m.toolCalls == calls;
    }

    method Clear()
      modifies this
      ensures Value() == NOTHING
    {
      text, toolCalls := "", map[];
    }
  }
}
