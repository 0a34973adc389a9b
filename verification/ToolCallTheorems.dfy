/** The two assemblies of streamed tool calls: what each computes from the deltas
    of one index, that the order of different indices does not matter, and when
    they end with the same calls. */
module ToolCallTheorems {
  import opened Prelude
  import opened Messages
  import opened ToolCallStream

  // ---- One index at a time ----

  /** The deltas of one call, in order. */
  ghost function OfIndex(ds: seq<Delta>, i: nat): seq<Delta> {
    if ds == [] then []
    else
      OfIndex(ds[..|ds| - 1], i) +
      (if Index(ds[|ds| - 1]) == i then [ds[|ds| - 1]] else [])
  }

  /** What the state knows about one index. */
  datatype View = View(id: Option<string>, name: Option<string>, args: Option<string>, started: bool)

  ghost function Lookup(m: map<nat, string>, i: nat): Option<string> {
    if i in m then Some(m[i]) else None
  }

  ghost function ViewOf(st: State, i: nat): View {
    View(Lookup(st.ids, i), Lookup(st.names, i), Lookup(st.args, i), i in st.started)
  }

  ghost function ViewAll(st: State, ds: seq<Delta>, i: nat): View {
    ViewOf(ApplyAll(st, ds), i)
  }

  /** Other indices' deltas leave no trace at an index. */
  lemma {:induction false} IndicesAreIndependent(st: State, ds: seq<Delta>, i: nat)
    ensures ViewAll(st, ds, i) == ViewAll(st, OfIndex(ds, i), i)
  {
    if ds != [] {
      var front, d := ds[..|ds| - 1], ds[|ds| - 1];
      var own := OfIndex(front, i);
      IndicesAreIndependent(st, front, i);
      DeltaTouchesItsIndex(ApplyAll(st, front), ApplyAll(st, own), d, i);
      if Index(d) == i {
        assert (own + [d])[..|own|] == own;
      } else {
        assert OfIndex(ds, i) == own;
      }
    }
  }

  lemma DeltaTouchesItsIndex(s: State, t: State, d: Delta, i: nat)
    requires ViewOf(s, i) == ViewOf(t, i)
    ensures Index(d) == i ==> ViewOf(ApplyDelta(s, d), i) == ViewOf(ApplyDelta(t, d), i)
    ensures Index(d) != i ==> ViewOf(ApplyDelta(s, d), i) == ViewOf(s, i)
  {
  }

  lemma SameViews(s: State, t: State)
    requires forall i :: ViewOf(s, i) == ViewOf(t, i)
    ensures s == t
  {
    forall i: nat
      ensures (i in s.ids <==> i in t.ids) && (i in s.ids ==> s.ids[i] == t.ids[i])
      ensures (i in s.names <==> i in t.names) && (i in s.names ==> s.names[i] == t.names[i])
      ensures (i in s.args <==> i in t.args) && (i in s.args ==> s.args[i] == t.args[i])
      ensures i in s.started <==> i in t.started
    {
      assert ViewOf(s, i) == ViewOf(t, i);
    }
    assert s.ids == t.ids && s.names == t.names && s.args == t.args && s.started == t.started;
  }

  /** Deltas of different indices may be interleaved in any way. */
  lemma {:induction false} InterleavingDoesNotMatter(st: State, ds: seq<Delta>, es: seq<Delta>, parse: Parser)
    requires forall i :: OfIndex(ds, i) == OfIndex(es, i)
    ensures ApplyAll(st, ds) == ApplyAll(st, es)
    ensures Completed(ApplyAll(st, ds), parse) == Completed(ApplyAll(st, es), parse)
  {
    forall i ensures ViewOf(ApplyAll(st, ds), i) == ViewOf(ApplyAll(st, es), i) {
      IndicesAreIndependent(st, ds, i);
      IndicesAreIndependent(st, es, i);
    }
    SameViews(ApplyAll(st, ds), ApplyAll(st, es));
  }

  // ---- What the completed calls are ----

  ghost function LastId(ds: seq<Delta>, i: nat): Option<string> {
    if ds == [] then None
    else
      var d := ds[|ds| - 1];
      if Index(d) == i && d.id.Some? then d.id else LastId(ds[..|ds| - 1], i)
  }

  ghost function LastName(ds: seq<Delta>, i: nat): Option<string> {
    if ds == [] then None
    else
      var d := ds[|ds| - 1];
      if Index(d) == i && d.name.Some? then d.name else LastName(ds[..|ds| - 1], i)
  }

  /** The argument fragments sent for an index. */
  ghost function Fragments(ds: seq<Delta>, i: nat): seq<string> {
    if ds == [] then []
    else
      var d := ds[|ds| - 1];
      Fragments(ds[..|ds| - 1], i) +
      (if Index(d) == i && d.arguments.Some? then [d.arguments.value] else [])
  }

  lemma {:induction false} StateMeaning(ds: seq<Delta>, i: nat)
    ensures var st := ApplyAll(EMPTY_STATE, ds);
      && Lookup(st.ids, i) == LastId(ds, i) && Lookup(st.names, i) == LastName(ds, i)
      && Lookup(st.args, i) == (if Fragments(ds, i) == [] then None else Some(Concat(Fragments(ds, i))))
  {
    if ds != [] {
      var front, d := ds[..|ds| - 1], ds[|ds| - 1];
      StateMeaning(front, i);
      if Index(d) == i && d.arguments.Some? {
        ConcatSnoc(Fragments(front, i), d.arguments.value);
      } else {
        assert Fragments(ds, i) == Fragments(front, i);
      }
    }
  }

  lemma ConcatSnoc(pieces: seq<string>, last: string)
    ensures Concat(pieces + [last]) == Concat(pieces) + last
  {
    ConcatAppend(pieces, [last]);
    assert [last][1..] == [] && last + "" == last;
  }

  /** The indices some delta names. */
  ghost function NamedIndices(ds: seq<Delta>): set<nat> {
    set k | 0 <= k < |ds| && ds[k].name.Some? :: Index(ds[k])
  }

  lemma {:induction false} NamedMeaning(ds: seq<Delta>)
    ensures ApplyAll(EMPTY_STATE, ds).names.Keys == NamedIndices(ds)
  {
    if ds != [] {
      var front, d := ds[..|ds| - 1], ds[|ds| - 1];
      NamedMeaning(front);
      assert NamedIndices(ds) == NamedIndices(front) + (if d.name.Some? then {Index(d)} else {}) by {
        forall i | i in NamedIndices(front) ensures i in NamedIndices(ds) {
          var k :| 0 <= k < |front| && front[k].name.Some? && Index(front[k]) == i;
          assert ds[k] == front[k];
        }
        forall i | i in NamedIndices(ds) && !(d.name.Some? && i == Index(d)) ensures i in NamedIndices(front) {
          var k :| 0 <= k < |ds| && ds[k].name.Some? && Index(ds[k]) == i;
          assert k < |front| && front[k] == ds[k];
        }
      }
    }
  }

  lemma {:induction false} LargestOfPart(s: set<nat>, part: set<nat>)
    requires part <= s && s != {} && Largest(s) in part
    ensures Largest(part) == Largest(s)
  {
  }

  /** Indices without a name fall out. */
  lemma {:induction false} UnnamedFallOut(st: State, keys: set<nat>, parse: Parser)
    ensures CallsAt(st, Sorted(keys), parse) == CallsAt(st, Sorted(keys * st.names.Keys), parse)
  {
    var named := keys * st.names.Keys;
    if keys == {} {
      assert named == {};
    } else {
      var m := Largest(keys);
      var rest := keys - {m};
      UnnamedFallOut(st, rest, parse);
      var all := Sorted(keys);
      assert all[..|all| - 1] == Sorted(rest);
      if m in st.names {
        LargestOfPart(keys, named);
        assert named - {m} == rest * st.names.Keys;
        var some := Sorted(named);
        assert some[..|some| - 1] == Sorted(rest * st.names.Keys);
      } else {
        assert named == rest * st.names.Keys;
      }
    }
  }

  /** So completion lists the named indices in order. */
  lemma {:induction false} CompletedInOrder(st: State, parse: Parser)
    ensures Completed(st, parse) == CallsAt(st, Sorted(st.names.Keys), parse)
  {
    var keys := st.ids.Keys + st.names.Keys + st.args.Keys;
    assert keys * st.names.Keys == st.names.Keys;
    UnnamedFallOut(st, keys, parse);
  }

  /** The call the deltas of an index describe: its last id (or a made-up one), its
      last name, and its fragments joined and read as JSON. */
  ghost function DescribedCall(ds: seq<Delta>, i: nat, parse: Parser): ToolCall {
    var name, fragments := LastName(ds, i), Fragments(ds, i);
    ToolCall(
      if LastId(ds, i).Some? then LastId(ds, i).value else FallbackId(i),
      if name.Some? then name.value else "",
      if fragments == [] then Null else ParseArguments(Concat(fragments), parse))
  }

  ghost function DescribedCalls(ds: seq<Delta>, indices: seq<nat>, parse: Parser): (calls: seq<ToolCall>)
    ensures |calls| == |indices|
  {
    if indices == [] then []
    else
      DescribedCalls(ds, indices[..|indices| - 1], parse) +
      [DescribedCall(ds, indices[|indices| - 1], parse)]
  }

  lemma {:induction false} CallsAreDescribed(ds: seq<Delta>, indices: seq<nat>, parse: Parser)
    requires forall k :: 0 <= k < |indices| ==> indices[k] in ApplyAll(EMPTY_STATE, ds).names
    ensures CallsAt(ApplyAll(EMPTY_STATE, ds), indices, parse) == DescribedCalls(ds, indices, parse)
  {
    if indices != [] {
      CallsAreDescribed(ds, indices[..|indices| - 1], parse);
      StateMeaning(ds, indices[|indices| - 1]);
    }
  }

  /** Completion gives one call per named index, in increasing index order (see
      `SortedIsSorted`), each read off the deltas of its own index. */
  lemma {:induction false} CompletedMeaning(ds: seq<Delta>, parse: Parser)
    ensures Completed(ApplyAll(EMPTY_STATE, ds), parse)
         == DescribedCalls(ds, Sorted(NamedIndices(ds)), parse)
  {
    NamedMeaning(ds);
    CompletedInOrder(ApplyAll(EMPTY_STATE, ds), parse);
    SortedNames(ApplyAll(EMPTY_STATE, ds).names);
    CallsAreDescribed(ds, Sorted(NamedIndices(ds)), parse);
  }

  /** Completion, call by call: the last id sent or a made-up one, the last name sent, and
      for arguments what the reader makes of the joined fragments - null if there were none
      or it rejects them. */
  lemma {:induction false} CompletedCallIsRead(ds: seq<Delta>, parse: Parser, k: nat)
    requires k < |Completed(ApplyAll(EMPTY_STATE, ds), parse)|
    ensures |Completed(ApplyAll(EMPTY_STATE, ds), parse)| == |Sorted(NamedIndices(ds))|
    ensures var i, call := Sorted(NamedIndices(ds))[k], Completed(ApplyAll(EMPTY_STATE, ds), parse)[k];
      && i in NamedIndices(ds)
      && LastName(ds, i) == Some(call.name)
      && (LastId(ds, i).Some? ==> LastId(ds, i) == Some(call.id))
      && (LastId(ds, i).None? ==> call.id == "call_" + Decimal(i))
      && (Fragments(ds, i) == [] ==> call.arguments == Null)
      && (Fragments(ds, i) != [] && parse(Concat(Fragments(ds, i))).None? ==> call.arguments == Null)
      && (forall v :: Fragments(ds, i) != [] && parse(Concat(Fragments(ds, i))) == Some(v) ==> call.arguments == v)
  {
    CompletedMeaning(ds, parse);
    SortedIsSorted(NamedIndices(ds));
    var named := Sorted(NamedIndices(ds));
    assert named[k] in named;
    DescribedCallAt(ds, named, parse, k);
    NamedHasName(ds, named[k]);
  }

  lemma {:induction false} DescribedCallAt(ds: seq<Delta>, indices: seq<nat>, parse: Parser, k: nat)
    requires k < |indices|
    ensures DescribedCalls(ds, indices, parse)[k] == DescribedCall(ds, indices[k], parse)
  {
    if k < |indices| - 1 {
      DescribedCallAt(ds, indices[..|indices| - 1], parse, k);
    }
  }

  lemma {:induction false} NamedHasName(ds: seq<Delta>, i: nat)
    requires i in NamedIndices(ds)
    ensures LastName(ds, i).Some?
  {
    NamedMeaning(ds);
    StateMeaning(ds, i);
    assert i in ApplyAll(EMPTY_STATE, ds).names.Keys;
  }

  // ---- Made-up ids ----

  /** The number a string of decimal digits stands for. */
  ghost function NumberOf(digits: string): int {
    if digits == "" then 0
    else NumberOf(digits[..|digits| - 1]) * 10 + (digits[|digits| - 1] as int - '0' as int)
  }

  /** The index is written in decimal digits, without a zero in front. */
  lemma {:induction false} DecimalReadsBack(n: nat)
    ensures Decimal(n) != "" && NumberOf(Decimal(n)) == n
    ensures forall k :: 0 <= k < |Decimal(n)| ==> '0' <= Decimal(n)[k] <= '9'
    ensures n > 0 ==> Decimal(n)[0] != '0'
  {
    DigitIsCharacter(n % 10);
    if n >= 10 {
      DecimalReadsBack(n / 10);
      assert Decimal(n)[..|Decimal(n)| - 1] == Decimal(n / 10);
    } else {
      assert Decimal(n)[..0] == "" && NumberOf("") == 0;
    }
  }

  lemma DigitIsCharacter(n: nat)
    requires n < 10
    ensures '0' <= Digit(n) <= '9' && Digit(n) as int == '0' as int + n
  {
  }

  lemma {:induction false} DecimalsDiffer(a: nat, b: nat)
    requires Decimal(a) == Decimal(b)
    ensures a == b
  {
    if a >= 10 && b >= 10 {
      var front := Decimal(a / 10);
      assert front == Decimal(a)[..|Decimal(a)| - 1] == Decimal(b / 10);
      DecimalsDiffer(a / 10, b / 10);
      assert Digit(a % 10) == Decimal(a)[|front|] == Digit(b % 10);
    } else {
      DecimalNotEmpty(a / 10);
      DecimalNotEmpty(b / 10);
      assert Digit(a % 10) == Decimal(a)[|Decimal(a)| - 1] == Digit(b % 10);
    }
  }

  lemma DecimalNotEmpty(n: nat)
    ensures Decimal(n) != ""
  {
  }

  /** Made-up ids of different indices differ. */
  lemma {:induction false} FallbackIdsDiffer(a: nat, b: nat)
    ensures FallbackId(a) == FallbackId(b) <==> a == b
  {
    if FallbackId(a) == FallbackId(b) {
      assert Decimal(a) == FallbackId(a)[|"call_"|..] == FallbackId(b)[|"call_"|..] == Decimal(b);
      DecimalsDiffer(a, b);
    }
  }

  // ---- One delta, one chunk ----

  ghost predicate Present(m: map<nat, string>, i: nat) {
    i in m && m[i] != ""
  }

  /** What one delta does to the state; without an index it speaks of index 0. */
  lemma {:induction false} DeltaByPart(st: State, d: Delta, i: nat)
    requires d.index == Some(i) || (d.index.None? && i == 0)
    ensures var after := ApplyDelta(st, d);
      && (forall j :: j != i ==> ViewOf(after, j) == ViewOf(st, j))
      && (d.id.Some? ==> Lookup(after.ids, i) == d.id)
      && (d.id.None? ==> Lookup(after.ids, i) == Lookup(st.ids, i))
      && (d.name.Some? ==> Lookup(after.names, i) == d.name)
      && (d.name.None? ==> Lookup(after.names, i) == Lookup(st.names, i))
      && (d.arguments.None? ==> Lookup(after.args, i) == Lookup(st.args, i))
      && (d.arguments.Some? && i in st.args ==> Lookup(after.args, i) == Some(st.args[i] + d.arguments.value))
      && (d.arguments.Some? && i !in st.args ==> Lookup(after.args, i) == d.arguments)
      && (i in after.started <==> i in st.started || (Present(after.ids, i) && Present(after.names, i)))
  {
    assert d.arguments.Some? ==> "" + d.arguments.value == d.arguments.value;
  }

  /** The events of one delta: the start, the first time id and name are both there, and
      then the fragment under the id or a made-up one. */
  lemma {:induction false} EventsByPart(st: State, d: Delta, i: nat)
    requires d.index == Some(i) || (d.index.None? && i == 0)
    ensures var after, events := ApplyDelta(st, d), Emit(st, d);
      var first := if i in after.started && i !in st.started then 1 else 0;
      && |events| == first + (if d.arguments.Some? then 1 else 0)
      && (first == 1 ==>
            i in after.ids && i in after.names && events[0] == ToolCallStarted(after.ids[i], after.names[i]))
      && (d.arguments.Some? && i in after.ids ==>
            events[first] == ToolCallArgumentsDelta(after.ids[i], d.arguments.value))
      && (d.arguments.Some? && i !in after.ids ==>
            events[first] == ToolCallArgumentsDelta("call_" + Decimal(i), d.arguments.value))
  {
  }

  /** An answer goes on: the text if there is any, then the events of the deltas. A chunk
      without a choice says nothing. */
  lemma {:induction false} ContinuingChunk(st: State, c: Chunk, parse: Parser)
    requires c.choices == [] || c.choices[0].finishReason.None?
    ensures c.choices == [] ==> ChunkEvents(st, c, parse) == [] && ChunkState(st, c) == st
    ensures c.choices != [] ==>
      var choice, events := c.choices[0], ChunkEvents(st, c, parse);
      var texts := if choice.content.Some? && choice.content.value != "" then 1 else 0;
      && texts <= |events| && (texts == 1 ==> events[0] == TextDelta(choice.content.value))
      && (choice.toolCalls.Some? ==>
            events[texts..] == EmitAll(st, choice.toolCalls.value)
            && ChunkState(st, c) == ApplyAll(st, choice.toolCalls.value))
      && (choice.toolCalls.None? ==> events[texts..] == [] && ChunkState(st, c) == st)
  {
  }

  lemma {:induction false} CompletionsInOrder(calls: seq<ToolCall>)
    ensures |CompletedEvents(calls)| == |calls|
    ensures forall k :: 0 <= k < |calls| ==> CompletedEvents(calls)[k] == ToolCallCompleted(calls[k])
  {
    if calls != [] {
      CompletionsInOrder(calls[..|calls| - 1]);
    }
  }

  /** The words of the provider. */
  lemma FinishWords(word: string)
    ensures ConvertFinish("stop") == Stop && ConvertFinish("tool_calls") == ToolCalls
    ensures ConvertFinish("length") == Length && ConvertFinish("content_filter") == ContentFilter
    ensures word != "stop" && word != "tool_calls" && word != "length" && word != "content_filter" ==>
      ConvertFinish(word) == Unknown(word)
    ensures ConvertFinish(word).ToolCalls? <==> word == "tool_calls"
  {
    assert |"stop"| == 4 && |"length"| == 6 && |"content_filter"| == 14 && |"tool_calls"| == 10;
  }

  lemma FinishShape(st: State, c: Chunk, parse: Parser)
    requires c.choices != [] && c.choices[0].finishReason.Some?
    ensures var reason := ConvertFinish(c.choices[0].finishReason.value);
      && ChunkEvents(st, c, parse)
         == (if reason.ToolCalls? then CompletedEvents(Completed(st, parse)) else []) + [Finished(reason, c.usage)]
      && ChunkState(st, c) == (if reason.ToolCalls? then EMPTY_STATE else st)
  {
  }

  /** The events announce these calls, in order, and then the end. */
  ghost predicate AnnouncesAndEnds(events: seq<StreamEvent>, calls: seq<ToolCall>, usage: Option<TokenUsage>) {
    && |events| == |calls| + 1
    && (forall k :: 0 <= k < |calls| ==> events[k] == ToolCallCompleted(calls[k]))
    && events[|calls|] == Finished(ToolCalls, usage)
  }

  /** An answer ends, by the word the provider sends: "tool_calls" announces every completed
      call in order and then the end, and empties the state; every other word only says the
      end. */
  lemma {:induction false} FinishByWord(st: State, c: Chunk, parse: Parser, word: string)
    requires c.choices != [] && c.choices[0].finishReason == Some(word)
    ensures word == "tool_calls" ==>
      && AnnouncesAndEnds(ChunkEvents(st, c, parse), Completed(st, parse), c.usage)
      && ChunkState(st, c) == State(map[], map[], map[], {})
    ensures word != "tool_calls" ==> ChunkState(st, c) == st
    ensures word == "stop" ==> ChunkEvents(st, c, parse) == [Finished(Stop, c.usage)]
    ensures word == "length" ==> ChunkEvents(st, c, parse) == [Finished(Length, c.usage)]
    ensures word == "content_filter" ==> ChunkEvents(st, c, parse) == [Finished(ContentFilter, c.usage)]
    ensures word != "stop" && word != "tool_calls" && word != "length" && word != "content_filter" ==>
      ChunkEvents(st, c, parse) == [Finished(Unknown(word), c.usage)]
  {
    FinishWords(word);
    FinishShape(st, c, parse);
    CompletionsInOrder(Completed(st, parse));
  }

  // ---- Starting ----

  /** The indices whose start is announced, in order. */
  ghost function Announced(st: State, ds: seq<Delta>): seq<nat> {
    if ds == [] then []
    else
      var front, d := ds[..|ds| - 1], ds[|ds| - 1];
      Announced(st, front) + (if Starts(ApplyAll(st, front), d) then [Index(d)] else [])
  }

  ghost function StartEvents(events: seq<StreamEvent>): nat {
    if events == [] then 0
    else StartEvents(events[..|events| - 1]) + (if events[|events| - 1].ToolCallStarted? then 1 else 0)
  }

  lemma {:induction false} StartEventsAppend(a: seq<StreamEvent>, b: seq<StreamEvent>)
    ensures StartEvents(a + b) == StartEvents(a) + StartEvents(b)
    decreases |b|
  {
    if b == [] {
      assert a + b == a;
    } else {
      assert (a + b)[..|a + b| - 1] == a + b[..|b| - 1];
      StartEventsAppend(a, b[..|b| - 1]);
    }
  }

  /** Between completions every index is announced at most once, each announcement
      is one start event, and the announced indices are those marked started. */
  lemma {:induction false} StartedAtMostOnce(st: State, ds: seq<Delta>)
    ensures var announced := Announced(st, ds);
      && StartEvents(EmitAll(st, ds)) == |announced|
      && (forall j, k :: 0 <= j < k < |announced| ==> announced[j] != announced[k])
      && (forall i :: i in announced ==> i !in st.started)
      && (forall i :: i in ApplyAll(st, ds).started <==> i in st.started || i in announced)
  {
    if ds != [] {
      var front, d := ds[..|ds| - 1], ds[|ds| - 1];
      StartedAtMostOnce(st, front);
      var before := ApplyAll(st, front);
      var emitted := Emit(before, d);
      StartEventsAppend(EmitAll(st, front), emitted);
      OneStartEvent(before, d);
    }
  }

  lemma OneStartEvent(st: State, d: Delta)
    ensures StartEvents(Emit(st, d)) == if Starts(st, d) then 1 else 0
  {
    var noted, i := Note(st, d), Index(d);
    var a: seq<StreamEvent> := if Starts(st, d) then [ToolCallStarted(noted.ids[i], noted.names[i])] else [];
    var b: seq<StreamEvent> :=
      if d.arguments.Some? then [ToolCallArgumentsDelta(IdOf(noted, i), d.arguments.value)] else [];
    StartEventsAppend(a, b);
    assert a != [] ==> a[..0] == [];
    assert b != [] ==> b[..0] == [];
  }

  // ---- Streams whose ids and names are stable ----

  ghost predicate Filled(s: Option<string>) {
    s.Some? && s.value != ""
  }

  ghost predicate Consistent(a: Option<string>, b: Option<string>) {
    a.Some? && b.Some? ==> a == b
  }

  /** A later delta of the same index repeats its id and name or leaves them out; one of
      another index does not take its id. */
  ghost predicate Compatible(earlier: Delta, d: Delta) {
    if Index(earlier) == Index(d) then Consistent(earlier.id, d.id) && Consistent(earlier.name, d.name)
    else Filled(earlier.id) ==> earlier.id != d.id
  }

  /** A fragment whose index has no id yet is announced under a made-up id; no other
      index really has that one. */
  ghost predicate NoStray(front: seq<Delta>, d: Delta) {
    d.arguments.Some? && d.id.None? && LastId(front, Index(d)).None? ==>
      forall k :: 0 <= k < |front| ==> front[k].id != Some(FallbackId(Index(d)))
  }

  ghost predicate Fits(front: seq<Delta>, d: Delta) {
    NoStray(front, d) && forall k :: 0 <= k < |front| ==> Compatible(front[k], d)
  }

  /** Ids and names of an index never change and different indices have different ids;
      but they may arrive in any order, late or never. */
  ghost predicate StableStream(ds: seq<Delta>) {
    ds == [] || (StableStream(ds[..|ds| - 1]) && Fits(ds[..|ds| - 1], ds[|ds| - 1]))
  }

  /** The index has its id and its name. */
  ghost predicate Complete(ds: seq<Delta>, i: nat) {
    Filled(LastId(ds, i)) && Filled(LastName(ds, i))
  }

  /** The fragments of an index that came before its id and name were both there. */
  ghost function EarlyText(ds: seq<Delta>, i: nat): string {
    if ds == [] then ""
    else
      var d := ds[|ds| - 1];
      EarlyText(ds[..|ds| - 1], i) +
      (if Index(d) == i && d.arguments.Some? && !Complete(ds, i) then d.arguments.value else "")
  }

  /** Every named index got its id, and none of its text came too early. */
  ghost predicate EveryNamedIsWhole(ds: seq<Delta>) {
    forall i :: i in NamedIndices(ds) ==> Complete(ds, i) && EarlyText(ds, i) == ""
  }

  lemma {:induction false} LastIdSeen(ds: seq<Delta>, i: nat) returns (k: nat)
    requires LastId(ds, i).Some?
    ensures k < |ds| && Index(ds[k]) == i && ds[k].id == LastId(ds, i)
  {
    var d := ds[|ds| - 1];
    if Index(d) == i && d.id.Some? {
      k := |ds| - 1;
    } else {
      k := LastIdSeen(ds[..|ds| - 1], i);
    }
  }

  lemma {:induction false} LastNameSeen(ds: seq<Delta>, i: nat) returns (k: nat)
    requires LastName(ds, i).Some?
    ensures k < |ds| && Index(ds[k]) == i && ds[k].name == LastName(ds, i)
  {
    var d := ds[|ds| - 1];
    if Index(d) == i && d.name.Some? {
      k := |ds| - 1;
    } else {
      k := LastNameSeen(ds[..|ds| - 1], i);
    }
  }

  /** The same about the state a stream leads to. */
  ghost predicate StateFits(st: State, d: Delta) {
    var i := Index(d);
    && (d.id.Some? && i in st.ids ==> d.id.value == st.ids[i])
    && (d.name.Some? && i in st.names ==> d.name.value == st.names[i])
    && (forall j :: j in st.ids && j != i && st.ids[j] != "" ==> d.id != Some(st.ids[j]))
    && (d.arguments.Some? && d.id.None? && i !in st.ids ==> forall j :: j in st.ids ==> st.ids[j] != FallbackId(i))
  }

  lemma {:induction false} FitsState(front: seq<Delta>, d: Delta)
    requires Fits(front, d)
    ensures StateFits(ApplyAll(EMPTY_STATE, front), d)
  {
    var st, i := ApplyAll(EMPTY_STATE, front), Index(d);
    StateMeaning(front, i);
    if LastId(front, i).Some? {
      var k := LastIdSeen(front, i);
      assert Compatible(front[k], d);
    }
    if LastName(front, i).Some? {
      var k := LastNameSeen(front, i);
      assert Compatible(front[k], d);
    }
    forall j | j in st.ids
      ensures j != i && st.ids[j] != "" ==> d.id != Some(st.ids[j])
      ensures d.arguments.Some? && d.id.None? && i !in st.ids ==> st.ids[j] != FallbackId(i)
    {
      StateMeaning(front, j);
      var k := LastIdSeen(front, j);
      assert Compatible(front[k], d);
    }
  }

  /** An index is started as soon as it has both, whatever the stream. */
  lemma {:induction false} NameableIsStarted(ds: seq<Delta>, i: nat)
    ensures Nameable(ApplyAll(EMPTY_STATE, ds), i) ==> i in ApplyAll(EMPTY_STATE, ds).started
  {
    if ds != [] {
      NameableIsStarted(ds[..|ds| - 1], i);
    }
  }

  // ---- Agreement of the two assemblies ----

  ghost function Gathered(args: map<nat, string>, i: nat): string {
    if i in args then args[i] else ""
  }

  /** The text gathered before the start, by index. */
  ghost function EarlyArgs(ds: seq<Delta>): map<nat, string> {
    if ds == [] then map[]
    else
      var early, d := EarlyArgs(ds[..|ds| - 1]), ds[|ds| - 1];
      if d.arguments.Some? && Index(d) !in ApplyAll(EMPTY_STATE, ds).started
      then AppendArgs(early, Index(d), d.arguments.value) else early
  }

  /** Which index each started id belongs to. */
  ghost function Owner(ds: seq<Delta>): map<string, nat> {
    if ds == [] then map[]
    else
      var st, d := ApplyAll(EMPTY_STATE, ds[..|ds| - 1]), ds[|ds| - 1];
      var owner := Owner(ds[..|ds| - 1]);
      if Starts(st, d) then owner[Note(st, d).ids[Index(d)] := Index(d)] else owner
  }

  ghost predicate LinkedIndex(st: State, owner: map<string, nat>, i: nat) {
    Nameable(st, i) && st.ids[i] in owner && owner[st.ids[i]] == i
  }

  /** The accumulator's call has all the text of its index but the early part. */
  ghost predicate LinkedId(
      st: State, acc: Accumulated, owner: map<string, nat>, early: map<nat, string>, id: string)
    requires id in owner
  {
    var i := owner[id];
    && i in st.started && Nameable(st, i) && st.ids[i] == id
    && id in acc.calls && acc.calls[id].id == id && acc.calls[id].name == st.names[i]
    && Gathered(st.args, i) == Gathered(early, i) + acc.calls[id].arguments
  }

  ghost predicate DistinctIds(ids: map<nat, string>) {
    forall j, k :: j in ids && k in ids && j != k && ids[j] != "" ==> ids[j] != ids[k]
  }

  /** The two sides hold the same calls, index by index and id by id. */
  ghost predicate Linked(st: State, acc: Accumulated, owner: map<string, nat>, early: map<nat, string>) {
    && owner.Keys == acc.calls.Keys
    && (forall i :: i in st.started ==> LinkedIndex(st, owner, i))
    && (forall id :: id in owner ==> LinkedId(st, acc, owner, early, id))
    && UnstartedIsEarly(st, early)
  }

  ghost predicate UnstartedIsEarly(st: State, early: map<nat, string>) {
    forall i :: i !in st.started ==> Gathered(st.args, i) == Gathered(early, i)
  }

  lemma {:induction false} FeedAppend(acc: Accumulated, a: seq<StreamEvent>, b: seq<StreamEvent>)
    ensures FeedAll(acc, a + b) == FeedAll(FeedAll(acc, a), b)
    decreases |b|
  {
    if b == [] {
      assert a + b == a;
    } else {
      assert (a + b)[..|a + b| - 1] == a + b[..|b| - 1];
      FeedAppend(acc, a, b[..|b| - 1]);
    }
  }

  lemma FeedOne(acc: Accumulated, e: StreamEvent)
    ensures FeedAll(acc, [e]) == Feed(acc, e)
  {
    assert [e][..0] == [];
  }

  /** The events of one delta, fed one after the other. */
  ghost function FeedDelta(acc: Accumulated, st: State, d: Delta): Accumulated {
    var noted, i := Note(st, d), Index(d);
    var started := if Starts(st, d) then Feed(acc, ToolCallStarted(noted.ids[i], noted.names[i])) else acc;
    if d.arguments.Some? then Feed(started, ToolCallArgumentsDelta(IdOf(noted, i), d.arguments.value)) else started
  }

  lemma FeedsDelta(acc: Accumulated, st: State, d: Delta)
    ensures FeedAll(acc, Emit(st, d)) == FeedDelta(acc, st, d)
  {
    var noted, i := Note(st, d), Index(d);
    var a: seq<StreamEvent> := if Starts(st, d) then [ToolCallStarted(noted.ids[i], noted.names[i])] else [];
    var b: seq<StreamEvent> :=
      if d.arguments.Some? then [ToolCallArgumentsDelta(IdOf(noted, i), d.arguments.value)] else [];
    FeedAppend(acc, a, b);
    if a != [] { FeedOne(acc, a[0]); }
    if b != [] { FeedOne(FeedAll(acc, a), b[0]); }
  }

  lemma NoteKeepsDistinct(st: State, d: Delta)
    requires StateFits(st, d) && DistinctIds(st.ids)
    ensures DistinctIds(ApplyDelta(st, d).ids)
  {
  }

  lemma {:induction false} MoreText(args: map<nat, string>, i: nat, fragment: string, j: nat)
    ensures Gathered(AppendArgs(args, i, fragment), j)
         == if j == i then Gathered(args, i) + fragment else Gathered(args, j)
  {
  }

  lemma {:induction false} StartedDeltaKeepsId(
      st: State, acc: Accumulated, owner: map<string, nat>, early: map<nat, string>, d: Delta, id: string)
    requires StateFits(st, d) && Index(d) in st.started && LinkedIndex(st, owner, Index(d))
    requires id in owner && LinkedId(st, acc, owner, early, id)
    ensures LinkedId(ApplyDelta(st, d), FeedDelta(acc, st, d), owner, early, id)
  {
    var i := Index(d);
    if d.arguments.Some? {
      MoreText(st.args, i, d.arguments.value, owner[id]);
      if owner[id] == i {
        Assoc(Gathered(early, i), acc.calls[id].arguments, d.arguments.value);
      }
    }
  }

  lemma {:induction false} StartedDeltaKeepsLink(
      st: State, acc: Accumulated, owner: map<string, nat>, early: map<nat, string>, d: Delta)
    requires Linked(st, acc, owner, early) && StateFits(st, d) && Index(d) in st.started
    ensures Linked(ApplyDelta(st, d), FeedDelta(acc, st, d), owner, early)
  {
    var i := Index(d);
    var after := ApplyDelta(st, d);
    assert LinkedIndex(st, owner, i) && LinkedId(st, acc, owner, early, st.ids[i]);
    assert after.ids == st.ids && after.names == st.names && after.started == st.started;
    forall j | j in after.started ensures LinkedIndex(after, owner, j) {
      assert LinkedIndex(st, owner, j);
    }
    forall id | id in owner ensures LinkedId(after, FeedDelta(acc, st, d), owner, early, id) {
      assert LinkedId(st, acc, owner, early, id);
      StartedDeltaKeepsId(st, acc, owner, early, d, id);
    }
  }

  lemma {:induction false} StartKeepsId(
      st: State, acc: Accumulated, owner: map<string, nat>, early: map<nat, string>, d: Delta, known: string)
    requires Starts(st, d) && known in owner && LinkedId(st, acc, owner, early, known)
    requires owner[known] != Index(d) && known != Note(st, d).ids[Index(d)]
    ensures var i := Index(d);
      LinkedId(ApplyDelta(st, d), FeedDelta(acc, st, d), owner[Note(st, d).ids[i] := i], early, known)
  {
    if d.arguments.Some? {
      MoreText(st.args, Index(d), d.arguments.value, owner[known]);
    }
  }

  lemma {:induction false} StartAddsId(
      st: State, acc: Accumulated, owner: map<string, nat>, early: map<nat, string>, d: Delta)
    requires Starts(st, d) && Gathered(st.args, Index(d)) == Gathered(early, Index(d))
    ensures var i := Index(d);
      var id := Note(st, d).ids[i];
      LinkedId(ApplyDelta(st, d), FeedDelta(acc, st, d), owner[id := i], early, id)
  {
    if d.arguments.Some? {
      MoreText(st.args, Index(d), d.arguments.value, Index(d));
      assert "" + d.arguments.value == d.arguments.value;
    }
  }

  lemma {:induction false} StartKeepsOthers(st: State, early: map<nat, string>, d: Delta)
    requires Starts(st, d) && UnstartedIsEarly(st, early)
    ensures UnstartedIsEarly(ApplyDelta(st, d), early)
  {
  }

  lemma {:induction false} StartKeepsIndices(st: State, owner: map<string, nat>, d: Delta)
    requires Starts(st, d) && forall j :: j in st.started ==> LinkedIndex(st, owner, j)
    requires Note(st, d).ids[Index(d)] !in owner
    ensures var owner', after := owner[Note(st, d).ids[Index(d)] := Index(d)], ApplyDelta(st, d);
      forall j :: j in after.started ==> LinkedIndex(after, owner', j)
  {
    var owner', after := owner[Note(st, d).ids[Index(d)] := Index(d)], ApplyDelta(st, d);
    forall j | j in after.started ensures LinkedIndex(after, owner', j) {
      assert j != Index(d) ==> LinkedIndex(st, owner, j);
    }
  }

  lemma {:induction false} StartKeepsLink(
      st: State, acc: Accumulated, owner: map<string, nat>, early: map<nat, string>, d: Delta)
    requires Linked(st, acc, owner, early) && Starts(st, d) && DistinctIds(ApplyDelta(st, d).ids)
    ensures Linked(ApplyDelta(st, d), FeedDelta(acc, st, d), owner[Note(st, d).ids[Index(d)] := Index(d)], early)
  {
    var i := Index(d);
    var after, fed := ApplyDelta(st, d), FeedDelta(acc, st, d);
    var id := after.ids[i];
    var owner' := owner[id := i];
    forall known | known in owner
      ensures known != id && LinkedId(after, fed, owner', early, known)
    {
      assert LinkedId(st, acc, owner, early, known);
      assert after.ids[owner[known]] == known;
      StartKeepsId(st, acc, owner, early, d, known);
    }
    StartAddsId(st, acc, owner, early, d);
    StartKeepsOthers(st, early, d);
    StartKeepsIndices(st, owner, d);
  }

  /** What is not started reaches no call of the accumulator. */
  lemma {:induction false} QuietDeltaIsIgnored(
      st: State, acc: Accumulated, owner: map<string, nat>, early: map<nat, string>, d: Delta)
    requires Linked(st, acc, owner, early) && StateFits(st, d) && DistinctIds(ApplyDelta(st, d).ids)
    requires Index(d) !in st.started && !Starts(st, d)
    ensures FeedDelta(acc, st, d) == acc
  {
    var after, i := ApplyDelta(st, d), Index(d);
    var callId := IdOf(after, i);
    assert callId in owner ==> LinkedId(st, acc, owner, early, callId);
    if d.arguments.Some? {
      assert callId !in acc.calls;
    }
  }

  lemma {:induction false} QuietDeltaKeepsLink(
      st: State, acc: Accumulated, owner: map<string, nat>, early: map<nat, string>, d: Delta)
    requires Linked(st, acc, owner, early) && StateFits(st, d) && Index(d) !in st.started && !Starts(st, d)
    ensures Linked(ApplyDelta(st, d), acc, owner,
      if d.arguments.Some? then AppendArgs(early, Index(d), d.arguments.value) else early)
  {
    var after := ApplyDelta(st, d);
    forall j | j in after.started ensures LinkedIndex(after, owner, j) {
      assert LinkedIndex(st, owner, j);
    }
    forall id | id in owner
      ensures LinkedId(after, acc, owner,
        if d.arguments.Some? then AppendArgs(early, Index(d), d.arguments.value) else early, id)
    {
      assert LinkedId(st, acc, owner, early, id);
    }
  }

  lemma {:induction false} DeltaKeepsLink(
      st: State, acc: Accumulated, owner: map<string, nat>, early: map<nat, string>, d: Delta)
    requires Linked(st, acc, owner, early) && StateFits(st, d) && DistinctIds(st.ids)
    ensures DistinctIds(ApplyDelta(st, d).ids)
    ensures Linked(ApplyDelta(st, d), FeedDelta(acc, st, d),
      if Starts(st, d) then owner[Note(st, d).ids[Index(d)] := Index(d)] else owner,
      if d.arguments.Some? && Index(d) !in ApplyDelta(st, d).started
      then AppendArgs(early, Index(d), d.arguments.value) else early)
  {
    NoteKeepsDistinct(st, d);
    if Index(d) in st.started {
      StartedDeltaKeepsLink(st, acc, owner, early, d);
    } else if Starts(st, d) {
      StartKeepsLink(st, acc, owner, early, d);
    } else {
      QuietDeltaIsIgnored(st, acc, owner, early, d);
      QuietDeltaKeepsLink(st, acc, owner, early, d);
    }
  }

  /** Along every stable stream, in whatever order things arrive, the two sides stay
      linked: the same started calls, the accumulator's lacking exactly the early text. */
  lemma {:induction false} RunKeepsLink(ds: seq<Delta>)
    requires StableStream(ds)
    ensures var st, acc := ApplyAll(EMPTY_STATE, ds), FeedAll(NOTHING, EmitAll(EMPTY_STATE, ds));
      Linked(st, acc, Owner(ds), EarlyArgs(ds)) && DistinctIds(st.ids)
  {
    if ds != [] {
      var front, d := ds[..|ds| - 1], ds[|ds| - 1];
      RunKeepsLink(front);
      var st, acc := ApplyAll(EMPTY_STATE, front), FeedAll(NOTHING, EmitAll(EMPTY_STATE, front));
      FeedAppend(NOTHING, EmitAll(EMPTY_STATE, front), Emit(st, d));
      FeedsDelta(acc, st, d);
      FitsState(front, d);
      DeltaKeepsLink(st, acc, Owner(front), EarlyArgs(front), d);
    }
  }

  /** On stable streams what is started is what is complete. */
  lemma {:induction false} StartedIffComplete(ds: seq<Delta>, i: nat)
    requires StableStream(ds)
    ensures i in ApplyAll(EMPTY_STATE, ds).started <==> Complete(ds, i)
  {
    var st := ApplyAll(EMPTY_STATE, ds);
    StateMeaning(ds, i);
    NameableIsStarted(ds, i);
    RunKeepsLink(ds);
    assert i in st.started ==> LinkedIndex(st, Owner(ds), i);
  }

  lemma {:induction false} EarlyMeaning(ds: seq<Delta>, i: nat)
    requires StableStream(ds)
    ensures Gathered(EarlyArgs(ds), i) == EarlyText(ds, i)
  {
    if ds != [] {
      EarlyMeaning(ds[..|ds| - 1], i);
      StartedIffComplete(ds, i);
    }
  }

  lemma {:induction false} OwnersCount(owner: map<string, nat>, started: set<nat>)
    requires forall id :: id in owner ==> owner[id] in started
    requires forall id, jd :: id in owner && jd in owner && owner[id] == owner[jd] ==> id == jd
    requires forall i :: i in started ==> exists id :: id in owner && owner[id] == i
    ensures |owner| == |started|
  {
    if started == {} {
      assert owner.Keys == {};
    } else {
      var i :| i in started;
      var id :| id in owner && owner[id] == i;
      var rest := owner - {id};
      forall j | j in started - {i} ensures exists jd :: jd in rest && rest[jd] == j {
        var jd :| jd in owner && owner[jd] == j;
        assert jd in rest;
      }
      OwnersCount(rest, started - {i});
      assert rest.Keys == owner.Keys - {id};
    }
  }

  lemma {:induction false} LinkedSizes(
      st: State, acc: Accumulated, owner: map<string, nat>, early: map<nat, string>)
    requires Linked(st, acc, owner, early)
    ensures |acc.calls| == |st.started|
  {
    forall i | i in st.started ensures exists id :: id in owner && owner[id] == i {
      assert LinkedIndex(st, owner, i);
    }
    forall id | id in owner ensures owner[id] in st.started && st.ids[owner[id]] == id {
      assert LinkedId(st, acc, owner, early, id);
    }
    OwnersCount(owner, st.started);
    assert |acc.calls.Keys| == |owner.Keys|;
  }

  // ---- Calls before their arguments are read ----

  /** The adapter's call at an index: id, name and joined text. */
  ghost function RawAt(st: State, i: nat): Partial
    requires i in st.names
  {
    Partial(IdOf(st, i), st.names[i], Gathered(st.args, i))
  }

  ghost function RawCalls(st: State, indices: seq<nat>): (calls: seq<Partial>)
    requires forall k :: 0 <= k < |indices| ==> indices[k] in st.names
    ensures |calls| == |indices| && forall k :: 0 <= k < |calls| ==> calls[k] == RawAt(st, indices[k])
  {
    if indices == [] then [] else RawCalls(st, indices[..|indices| - 1]) + [RawAt(st, indices[|indices| - 1])]
  }

  lemma {:induction false} SortedNames(names: map<nat, string>)
    ensures var indices := Sorted(names.Keys);
      && |indices| == |names|
      && (forall k :: 0 <= k < |indices| ==> indices[k] in names)
      && (forall i :: i in names ==> i in indices)
  {
    SortedIsSorted(names.Keys);
    var indices := Sorted(names.Keys);
    forall k | 0 <= k < |indices| ensures indices[k] in names {
      assert indices[k] in names.Keys;
    }
    forall i | i in names ensures i in indices {
      assert i in names.Keys;
    }
  }

  /** What completion lists, before the arguments are read. */
  ghost function RawCompleted(st: State): seq<Partial> {
    SortedNames(st.names);
    RawCalls(st, Sorted(st.names.Keys))
  }

  lemma {:induction false} RawCallOf(st: State, indices: seq<nat>, i: nat)
    requires i in indices && forall k :: 0 <= k < |indices| ==> indices[k] in st.names
    ensures RawAt(st, i) in RawCalls(st, indices)
  {
    var k :| 0 <= k < |indices| && indices[k] == i;
    assert RawCalls(st, indices)[k] == RawAt(st, i);
  }

  lemma {:induction false} RawCallFrom(st: State, indices: seq<nat>, c: Partial) returns (i: nat)
    requires forall k :: 0 <= k < |indices| ==> indices[k] in st.names
    requires c in RawCalls(st, indices)
    ensures i in st.names && c == RawAt(st, i)
  {
    var k :| 0 <= k < |RawCalls(st, indices)| && RawCalls(st, indices)[k] == c;
    i := indices[k];
  }

  lemma {:induction false} RawCompletedAre(st: State)
    ensures |RawCompleted(st)| == |st.names|
    ensures forall i :: i in st.names ==> RawAt(st, i) in RawCompleted(st)
    ensures forall c :: c in RawCompleted(st) ==> exists i :: i in st.names && c == RawAt(st, i)
  {
    SortedNames(st.names);
    forall i | i in st.names ensures RawAt(st, i) in RawCompleted(st) {
      RawCallOf(st, Sorted(st.names.Keys), i);
    }
    forall c | c in RawCompleted(st) ensures exists i :: i in st.names && c == RawAt(st, i) {
      var i := RawCallFrom(st, Sorted(st.names.Keys), c);
    }
  }

  /** The same calls on both sides, none of them twice. */
  ghost predicate SameRaw(calls: seq<Partial>, acc: Accumulated) {
    (forall c :: c in calls <==> c in acc.calls.Values) && |calls| == |acc.calls|
  }

  lemma {:induction false} StartedAreNamed(
      st: State, acc: Accumulated, owner: map<string, nat>, early: map<nat, string>)
    requires Linked(st, acc, owner, early)
    ensures st.started <= st.names.Keys
  {
    forall i | i in st.started ensures i in st.names {
      assert LinkedIndex(st, owner, i);
    }
  }

  /** The accumulator's call of a started index. */
  lemma {:induction false} LinkedRaw(
      st: State, acc: Accumulated, owner: map<string, nat>, early: map<nat, string>, i: nat)
    requires Linked(st, acc, owner, early) && i in st.started
    ensures i in st.ids && i in st.names && st.ids[i] in acc.calls
    ensures acc.calls[st.ids[i]] == RawAt(st, i) <==> Gathered(early, i) == ""
    ensures acc.calls[st.ids[i]].id == st.ids[i] == RawAt(st, i).id
  {
    assert LinkedIndex(st, owner, i) && LinkedId(st, acc, owner, early, st.ids[i]);
    var text := acc.calls[st.ids[i]].arguments;
    assert Gathered(st.args, i) == Gathered(early, i) + text;
    assert Gathered(early, i) != "" ==> |Gathered(st.args, i)| > |text|;
    assert Gathered(early, i) == "" ==> Gathered(st.args, i) == text;
  }

  ghost predicate StateIsWhole(st: State, early: map<nat, string>) {
    forall i :: i in st.names ==> i in st.started && Gathered(early, i) == ""
  }

  lemma {:induction false} SameMeansStarted(
      st: State, acc: Accumulated, owner: map<string, nat>, early: map<nat, string>)
    requires Linked(st, acc, owner, early) && SameRaw(RawCompleted(st), acc)
    ensures st.started == st.names.Keys
  {
    RawCompletedAre(st);
    LinkedSizes(st, acc, owner, early);
    StartedAreNamed(st, acc, owner, early);
    assert |st.names.Keys| == |st.names| == |st.started|;
    SubsetSize(st.started, st.names.Keys);
  }

  /** In terms of the states: agreement means that every named index is started, without
      early text. */
  lemma {:induction false} LinkedAgreeIff(
      st: State, acc: Accumulated, owner: map<string, nat>, early: map<nat, string>)
    requires Linked(st, acc, owner, early)
    ensures SameRaw(RawCompleted(st), acc) <==> StateIsWhole(st, early)
  {
    if SameRaw(RawCompleted(st), acc) {
      SameMeansStarted(st, acc, owner, early);
      forall i | i in st.names ensures i in st.started && Gathered(early, i) == "" {
        assert i in st.names.Keys;
        RawIsLinked(st, acc, owner, early, i);
      }
    }
    if StateIsWhole(st, early) {
      StartedAreNamed(st, acc, owner, early);
      assert st.started == st.names.Keys;
      WholeIsSame(st, acc, owner, early);
    }
  }

  lemma {:induction false} RawIsLinked(
      st: State, acc: Accumulated, owner: map<string, nat>, early: map<nat, string>, i: nat)
    requires Linked(st, acc, owner, early) && i in st.started && i in st.names
    requires SameRaw(RawCompleted(st), acc)
    ensures Gathered(early, i) == ""
  {
    LinkedRaw(st, acc, owner, early, i);
    RawCompletedAre(st);
    assert RawAt(st, i) in RawCompleted(st);
    var id :| id in acc.calls && acc.calls[id] == RawAt(st, i);
    assert LinkedId(st, acc, owner, early, id);
  }

  lemma {:induction false} WholeIsSame(
      st: State, acc: Accumulated, owner: map<string, nat>, early: map<nat, string>)
    requires Linked(st, acc, owner, early) && st.started == st.names.Keys
    requires forall i :: i in st.names ==> Gathered(early, i) == ""
    ensures SameRaw(RawCompleted(st), acc)
  {
    RawCompletedAre(st);
    LinkedSizes(st, acc, owner, early);
    forall c | c in RawCompleted(st) ensures c in acc.calls.Values {
      var i :| i in st.names && c == RawAt(st, i);
      LinkedRaw(st, acc, owner, early, i);
    }
    forall c | c in acc.calls.Values ensures c in RawCompleted(st) {
      var id :| id in acc.calls && acc.calls[id] == c;
      assert LinkedId(st, acc, owner, early, id);
      LinkedRaw(st, acc, owner, early, owner[id]);
    }
  }

  lemma {:induction false} WholeAtIndex(ds: seq<Delta>, i: nat)
    requires StableStream(ds)
    ensures i in ApplyAll(EMPTY_STATE, ds).names <==> i in NamedIndices(ds)
    ensures i in ApplyAll(EMPTY_STATE, ds).started <==> Complete(ds, i)
    ensures Gathered(EarlyArgs(ds), i) == EarlyText(ds, i)
  {
    NamedMeaning(ds);
    assert i in ApplyAll(EMPTY_STATE, ds).names <==> i in ApplyAll(EMPTY_STATE, ds).names.Keys;
    StartedIffComplete(ds, i);
    EarlyMeaning(ds, i);
  }

  lemma {:induction false} WholeIff(ds: seq<Delta>)
    requires StableStream(ds)
    ensures StateIsWhole(ApplyAll(EMPTY_STATE, ds), EarlyArgs(ds)) <==> EveryNamedIsWhole(ds)
  {
    if StateIsWhole(ApplyAll(EMPTY_STATE, ds), EarlyArgs(ds)) {
      forall i | i in NamedIndices(ds) ensures Complete(ds, i) && EarlyText(ds, i) == "" {
        WholeAtIndex(ds, i);
      }
    }
    if EveryNamedIsWhole(ds) {
      forall i | i in ApplyAll(EMPTY_STATE, ds).names
        ensures i in ApplyAll(EMPTY_STATE, ds).started && Gathered(EarlyArgs(ds), i) == ""
      {
        WholeAtIndex(ds, i);
      }
    }
  }

  /** On every stable stream, in whatever order ids, names and fragments arrive, the two
      sides end with the same calls - ids, names and joined text - exactly when every named
      index got a nonempty id and name and no text before them. The adapter completes
      calls that never started and keeps text the accumulator drops. */
  lemma {:induction false} AssembliesAgreeIff(ds: seq<Delta>)
    requires StableStream(ds)
    ensures SameRaw(RawCompleted(ApplyAll(EMPTY_STATE, ds)), FeedAll(NOTHING, EmitAll(EMPTY_STATE, ds)))
       <==> EveryNamedIsWhole(ds)
  {
    RunKeepsLink(ds);
    WholeIff(ds);
    LinkedAgreeIff(
      ApplyAll(EMPTY_STATE, ds), FeedAll(NOTHING, EmitAll(EMPTY_STATE, ds)), Owner(ds), EarlyArgs(ds));
  }

  // ---- Reading the arguments ----

  /** The same calls on both sides once the arguments are read, none of them twice. */
  ghost predicate SameCalls(calls: seq<ToolCall>, acc: Accumulated, parse: Parser) {
    (set c | c in calls) == AssembledCalls(acc, parse) && |calls| == |acc.calls|
  }

  lemma {:induction false} CallsAreRead(st: State, indices: seq<nat>, parse: Parser)
    requires parse("").None? && forall k :: 0 <= k < |indices| ==> indices[k] in st.names
    ensures |CallsAt(st, indices, parse)| == |indices|
    ensures forall k :: 0 <= k < |indices| ==> CallsAt(st, indices, parse)[k] == Assembled(RawAt(st, indices[k]), parse)
  {
    if indices != [] {
      CallsAreRead(st, indices[..|indices| - 1], parse);
    }
  }

  /** Completion reads the arguments of exactly the raw calls. */
  lemma {:induction false} CompletedIsRead(st: State, parse: Parser)
    requires parse("").None?
    ensures |Completed(st, parse)| == |RawCompleted(st)|
    ensures forall k :: 0 <= k < |RawCompleted(st)| ==>
      Completed(st, parse)[k] == Assembled(RawCompleted(st)[k], parse)
  {
    CompletedInOrder(st, parse);
    SortedNames(st.names);
    CallsAreRead(st, Sorted(st.names.Keys), parse);
  }

  lemma {:induction false} ReadIsAssembled(st: State, acc: Accumulated, parse: Parser, c: ToolCall)
    requires SameRaw(RawCompleted(st), acc) && parse("").None? && c in Completed(st, parse)
    ensures c in AssembledCalls(acc, parse)
  {
    CompletedIsRead(st, parse);
    var k :| 0 <= k < |Completed(st, parse)| && Completed(st, parse)[k] == c;
    var raw := RawCompleted(st)[k];
    assert raw in acc.calls.Values;
    var id :| id in acc.calls && acc.calls[id] == raw;
  }

  lemma {:induction false} AssembledIsRead(st: State, acc: Accumulated, parse: Parser, id: string)
    requires SameRaw(RawCompleted(st), acc) && parse("").None? && id in acc.calls
    ensures Assembled(acc.calls[id], parse) in Completed(st, parse)
  {
    CompletedIsRead(st, parse);
    assert acc.calls[id] in acc.calls.Values;
    var k :| 0 <= k < |RawCompleted(st)| && RawCompleted(st)[k] == acc.calls[id];
    assert Completed(st, parse)[k] == Assembled(acc.calls[id], parse);
  }

  lemma {:induction false} SameRawReadsSame(st: State, acc: Accumulated, parse: Parser)
    requires SameRaw(RawCompleted(st), acc) && parse("").None?
    ensures SameCalls(Completed(st, parse), acc, parse)
  {
    CompletedIsRead(st, parse);
    forall c | c in Completed(st, parse) ensures c in AssembledCalls(acc, parse) {
      ReadIsAssembled(st, acc, parse, c);
    }
    forall c | c in AssembledCalls(acc, parse) ensures c in Completed(st, parse) {
      var id :| id in acc.calls && c == Assembled(acc.calls[id], parse);
      AssembledIsRead(st, acc, parse, id);
    }
  }

  /** A reader that takes every text but the empty one for a JSON string. */
  function Verbatim(text: string): Option<Json> {
    if text == "" then None else Some(String(text))
  }

  lemma VerbatimTellsApart(a: Partial, b: Partial)
    requires Assembled(a, Verbatim) == Assembled(b, Verbatim)
    ensures a == b
  {
  }

  lemma {:induction false} VerbatimSameIsSame(st: State, acc: Accumulated)
    requires SameCalls(Completed(st, Verbatim), acc, Verbatim)
    ensures SameRaw(RawCompleted(st), acc)
  {
    CompletedIsRead(st, Verbatim);
    var calls, raw := Completed(st, Verbatim), RawCompleted(st);
    forall p | p in raw ensures p in acc.calls.Values {
      var k :| 0 <= k < |raw| && raw[k] == p;
      assert calls[k] in calls && calls[k] in AssembledCalls(acc, Verbatim);
      var id :| id in acc.calls && Assembled(acc.calls[id], Verbatim) == calls[k];
      VerbatimTellsApart(p, acc.calls[id]);
    }
    forall p | p in acc.calls.Values ensures p in raw {
      var id :| id in acc.calls && acc.calls[id] == p;
      assert Assembled(p, Verbatim) in AssembledCalls(acc, Verbatim);
      assert Assembled(p, Verbatim) in calls;
      var k :| 0 <= k < |calls| && calls[k] == Assembled(p, Verbatim);
      VerbatimTellsApart(p, raw[k]);
    }
  }

  ghost predicate AgreesForEveryReader(st: State, acc: Accumulated) {
    forall parse: Parser :: parse("").None? ==> SameCalls(Completed(st, parse), acc, parse)
  }

  lemma {:induction false} EveryReaderIff(st: State, acc: Accumulated)
    ensures AgreesForEveryReader(st, acc) <==> SameRaw(RawCompleted(st), acc)
  {
    if SameRaw(RawCompleted(st), acc) {
      forall parse: Parser | parse("").None? ensures SameCalls(Completed(st, parse), acc, parse) {
        SameRawReadsSame(st, acc, parse);
      }
    }
    if AgreesForEveryReader(st, acc) {
      assert SameCalls(Completed(st, Verbatim), acc, Verbatim);
      VerbatimSameIsSame(st, acc);
    }
  }

  /** So the calls with their JSON arguments agree, whatever reads them, under the same
      condition. */
  lemma {:induction false} AgreeForEveryReaderIff(ds: seq<Delta>)
    requires StableStream(ds)
    ensures AgreesForEveryReader(ApplyAll(EMPTY_STATE, ds), FeedAll(NOTHING, EmitAll(EMPTY_STATE, ds)))
       <==> EveryNamedIsWhole(ds)
  {
    AssembliesAgreeIff(ds);
    EveryReaderIff(ApplyAll(EMPTY_STATE, ds), FeedAll(NOTHING, EmitAll(EMPTY_STATE, ds)));
  }

  // ---- Streams on which the two sides differ ----

  /** A named call whose id never comes: completed by the adapter, unknown to the
      runtime. */
  lemma {:induction false} MissingIdExample()
    ensures var ds := [Delta(Some(0), None, Some("f"), None)];
      && StableStream(ds) && !EveryNamedIsWhole(ds)
      && RawCompleted(ApplyAll(EMPTY_STATE, ds)) == [Partial("call_0", "f", "")]
      && FeedAll(NOTHING, EmitAll(EMPTY_STATE, ds)).calls == map[]
  {
    var d := Delta(Some(0), None, Some("f"), None);
    OneDelta(d);
    assert 0 in NamedIndices([d]) by { assert [d][0] == d; }
    assert Decimal(0) == "0" && FallbackId(0) == "call_0";
    OneCompleted(ApplyAll(EMPTY_STATE, [d]), 0);
  }

  /** A name that comes after the first fragment: the adapter keeps that fragment, the
      runtime drops it. */
  lemma {:induction false} EarlyFragmentExample()
    ensures var ds := [Delta(Some(0), Some("a"), None, Some("{")), Delta(Some(0), None, Some("f"), Some("}"))];
      && StableStream(ds) && !EveryNamedIsWhole(ds)
      && RawCompleted(ApplyAll(EMPTY_STATE, ds)) == [Partial("a", "f", "{}")]
      && FeedAll(NOTHING, EmitAll(EMPTY_STATE, ds)).calls == map["a" := Partial("a", "f", "}")]
  {
    var d, e := Delta(Some(0), Some("a"), None, Some("{")), Delta(Some(0), None, Some("f"), Some("}"));
    var before := State(map[0 := "a"], map[], map[0 := "{"], {});
    var after := State(map[0 := "a"], map[0 := "f"], map[0 := "{}"], {0});
    assert "" + "{" == "{" && "" + "}" == "}" && "{" + "}" == "{}";
    TwoDeltas(d, e, before, NOTHING, after, Accumulated("", map["a" := Partial("a", "f", "}")]));
    OneCompleted(after, 0);
    EarlyFragmentIsStable(d, e);
    OneDeltaAlone(d);
    NotWholeAfter([d], e, 0);
    assert [d] + [e] == [d, e];
  }

  lemma {:induction false} EarlyFragmentIsStable(d: Delta, e: Delta)
    requires Index(d) == Index(e) && d.id.Some? && e.id.None? && d.name.None?
    ensures StableStream([d] + [e])
  {
    OneDelta(d);
    OneDeltaAlone(d);
    OneMoreDelta([d], e);
  }

  lemma {:induction false} OneDeltaAlone(d: Delta)
    ensures [d][0] == d && LastId([d], Index(d)) == d.id && LastName([d], Index(d)) == d.name
    ensures d.name.None? && d.arguments.Some? ==> EarlyText([d], Index(d)) == d.arguments.value
  {
    var one := [d];
    assert one[..0] == [];
    assert LastId(one[..0], Index(d)) == None && LastName(one[..0], Index(d)) == None;
    if d.arguments.Some? {
      assert "" + d.arguments.value == d.arguments.value;
    }
  }

  /** Early text never goes away. */
  lemma {:induction false} NotWholeAfter(ds: seq<Delta>, d: Delta, i: nat)
    requires EarlyText(ds, i) != "" && d.name.Some? && Index(d) == i
    ensures !EveryNamedIsWhole(ds + [d])
  {
    var all := ds + [d];
    assert all[..|ds|] == ds && all[|ds|] == d;
    assert |EarlyText(all, i)| >= |EarlyText(ds, i)|;
    assert i in NamedIndices(all);
  }

  /** A stream that is not stable: a fragment without an id is announced under a made-up id
      that another call really has, and lands there. */
  lemma {:induction false} StrayFragmentExample()
    ensures var ds := [Delta(Some(1), Some("call_0"), Some("g"), Some("x")), Delta(Some(0), None, None, Some("y"))];
      && !StableStream(ds)
      && RawCompleted(ApplyAll(EMPTY_STATE, ds)) == [Partial("call_0", "g", "x")]
      && FeedAll(NOTHING, EmitAll(EMPTY_STATE, ds)).calls == map["call_0" := Partial("call_0", "g", "xy")]
  {
    var d, e := Delta(Some(1), Some("call_0"), Some("g"), Some("x")), Delta(Some(0), None, None, Some("y"));
    var before := State(map[1 := "call_0"], map[1 := "g"], map[1 := "x"], {1});
    var after := State(map[1 := "call_0"], map[1 := "g"], map[1 := "x", 0 := "y"], {1});
    assert "" + "x" == "x" && "" + "y" == "y" && "x" + "y" == "xy";
    assert Decimal(0) == "0" && FallbackId(0) == "call_0";
    TwoDeltas(d, e,
      before, Accumulated("", map["call_0" := Partial("call_0", "g", "x")]),
      after, Accumulated("", map["call_0" := Partial("call_0", "g", "xy")]));
    OneCompleted(after, 1);
    OneMoreDelta([d], e);
    assert [d] + [e] == [d, e] && [d][0] == d;
    assert [d][..0] == [] && LastId([d], 0) == None;
  }

  lemma {:induction false} TwoDeltas(
      d: Delta, e: Delta, before: State, fed: Accumulated, after: State, fedBoth: Accumulated)
    requires ApplyDelta(EMPTY_STATE, d) == before && FeedDelta(NOTHING, EMPTY_STATE, d) == fed
    requires ApplyDelta(before, e) == after && FeedDelta(fed, before, e) == fedBoth
    ensures ApplyAll(EMPTY_STATE, [d, e]) == after
    ensures FeedAll(NOTHING, EmitAll(EMPTY_STATE, [d, e])) == fedBoth
  {
    OneDelta(d);
    OneMoreDelta([d], e);
    assert [d] + [e] == [d, e];
  }

  lemma {:induction false} OneDelta(d: Delta)
    ensures ApplyAll(EMPTY_STATE, [d]) == ApplyDelta(EMPTY_STATE, d)
    ensures FeedAll(NOTHING, EmitAll(EMPTY_STATE, [d])) == FeedDelta(NOTHING, EMPTY_STATE, d)
    ensures StableStream([d])
  {
    assert [d][..0] == [];
    FeedsDelta(NOTHING, EMPTY_STATE, d);
    assert [] + Emit(EMPTY_STATE, d) == Emit(EMPTY_STATE, d);
  }

  lemma {:induction false} OneMoreDelta(ds: seq<Delta>, d: Delta)
    ensures var st := ApplyAll(EMPTY_STATE, ds);
      && ApplyAll(EMPTY_STATE, ds + [d]) == ApplyDelta(st, d)
      && FeedAll(NOTHING, EmitAll(EMPTY_STATE, ds + [d]))
         == FeedDelta(FeedAll(NOTHING, EmitAll(EMPTY_STATE, ds)), st, d)
    ensures StableStream(ds + [d]) <==> StableStream(ds) && Fits(ds, d)
  {
    assert (ds + [d])[..|ds|] == ds;
    var st := ApplyAll(EMPTY_STATE, ds);
    FeedAppend(NOTHING, EmitAll(EMPTY_STATE, ds), Emit(st, d));
    FeedsDelta(FeedAll(NOTHING, EmitAll(EMPTY_STATE, ds)), st, d);
  }

  lemma {:induction false} OneCompleted(st: State, i: nat)
    requires st.names.Keys == {i}
    ensures RawCompleted(st) == [RawAt(st, i)]
  {
    RawCompletedAre(st);
    assert |st.names| == |st.names.Keys| == 1 && i in st.names.Keys;
    assert RawAt(st, i) in RawCompleted(st);
  }

  // ---- What providers send ----

  ghost predicate NewIndex(front: seq<Delta>, d: Delta) {
    forall k :: 0 <= k < |front| ==> Index(front[k]) != Index(d)
  }

  ghost predicate NextFits(front: seq<Delta>, d: Delta) {
    && (NewIndex(front, d) ==> Filled(d.id) && Filled(d.name))
    && (forall k :: 0 <= k < |front| ==> Compatible(front[k], d))
  }

  /** The first delta of every index carries its id and name, later ones repeat them
      or leave them out, and different indices have different ids. */
  ghost predicate ProviderStream(ds: seq<Delta>) {
    ds == [] || (ProviderStream(ds[..|ds| - 1]) && NextFits(ds[..|ds| - 1], ds[|ds| - 1]))
  }

  /** An index met in such a stream is complete from its first delta on. */
  lemma {:induction false} MetIsComplete(ds: seq<Delta>, k: nat)
    requires ProviderStream(ds) && k < |ds|
    ensures Complete(ds, Index(ds[k]))
  {
    var n := |ds| - 1;
    var front, d, i := ds[..n], ds[n], Index(ds[k]);
    if Index(d) != i {
      MetIsComplete(front, k);
    } else if !NewIndex(front, d) {
      var j :| 0 <= j < n && Index(front[j]) == i;
      MetIsComplete(front, j);
      StaysComplete(front, d);
    }
  }

  lemma {:induction false} StaysComplete(front: seq<Delta>, d: Delta)
    requires Complete(front, Index(d)) && forall k :: 0 <= k < |front| ==> Compatible(front[k], d)
    ensures Complete(front + [d], Index(d))
  {
    assert (front + [d])[..|front|] == front;
    var k := LastIdSeen(front, Index(d));
    assert Compatible(front[k], d);
    var m := LastNameSeen(front, Index(d));
    assert Compatible(front[m], d);
  }

  lemma {:induction false} ProviderIsStable(ds: seq<Delta>)
    requires ProviderStream(ds)
    ensures StableStream(ds)
  {
    if ds != [] {
      var front, d := ds[..|ds| - 1], ds[|ds| - 1];
      ProviderIsStable(front);
      if !NewIndex(front, d) {
        var j :| 0 <= j < |front| && Index(front[j]) == Index(d);
        MetIsComplete(front, j);
      }
    }
  }

  lemma {:induction false} NothingIsEarly(ds: seq<Delta>, i: nat)
    requires ProviderStream(ds)
    ensures EarlyText(ds, i) == ""
  {
    if ds != [] {
      NothingIsEarly(ds[..|ds| - 1], i);
      MetIsComplete(ds, |ds| - 1);
    }
  }

  lemma {:induction false} ProviderIsWhole(ds: seq<Delta>)
    requires ProviderStream(ds)
    ensures EveryNamedIsWhole(ds)
  {
    forall i | i in NamedIndices(ds) ensures Complete(ds, i) && EarlyText(ds, i) == "" {
      var k :| 0 <= k < |ds| && ds[k].name.Some? && Index(ds[k]) == i;
      MetIsComplete(ds, k);
      NothingIsEarly(ds, i);
    }
  }

  /** For such streams, under any interleaving, both sides end with the same calls. */
  lemma {:induction false} ProviderStreamsAgree(ds: seq<Delta>, parse: Parser)
    requires ProviderStream(ds) && parse("").None?
    ensures SameCalls(Completed(ApplyAll(EMPTY_STATE, ds), parse),
                      FeedAll(NOTHING, EmitAll(EMPTY_STATE, ds)), parse)
  {
    ProviderIsStable(ds);
    ProviderIsWhole(ds);
    AssembliesAgreeIff(ds);
    SameRawReadsSame(ApplyAll(EMPTY_STATE, ds), FeedAll(NOTHING, EmitAll(EMPTY_STATE, ds)), parse);
  }

  // ---- A whole answer ----

  /** Chunks before the one that finishes the answer. */
  ghost predicate Unfinished(cs: seq<Chunk>) {
    forall k :: 0 <= k < |cs| && cs[k].choices != [] ==> cs[k].choices[0].finishReason.None?
  }

  ghost function ChunkDeltas(c: Chunk): seq<Delta> {
    if c.choices != [] && c.choices[0].toolCalls.Some? then c.choices[0].toolCalls.value else []
  }

  ghost function ChunkText(c: Chunk): string {
    if c.choices != [] && c.choices[0].content.Some? then c.choices[0].content.value else ""
  }

  ghost function AllDeltas(cs: seq<Chunk>): seq<Delta> {
    if cs == [] then [] else AllDeltas(cs[..|cs| - 1]) + ChunkDeltas(cs[|cs| - 1])
  }

  ghost function AllText(cs: seq<Chunk>): string {
    if cs == [] then "" else AllText(cs[..|cs| - 1]) + ChunkText(cs[|cs| - 1])
  }

  ghost function RunState(cs: seq<Chunk>): State {
    if cs == [] then EMPTY_STATE else ChunkState(RunState(cs[..|cs| - 1]), cs[|cs| - 1])
  }

  ghost function RunEvents(cs: seq<Chunk>, parse: Parser): seq<StreamEvent> {
    if cs == [] then []
    else RunEvents(cs[..|cs| - 1], parse) + ChunkEvents(RunState(cs[..|cs| - 1]), cs[|cs| - 1], parse)
  }

  lemma {:induction false} ApplyAppend(st: State, a: seq<Delta>, b: seq<Delta>)
    ensures ApplyAll(st, a + b) == ApplyAll(ApplyAll(st, a), b)
    ensures EmitAll(st, a + b) == EmitAll(st, a) + EmitAll(ApplyAll(st, a), b)
    decreases |b|
  {
    if b == [] {
      assert a + b == a;
    } else {
      var front, d := b[..|b| - 1], b[|b| - 1];
      assert (a + b)[..|a + b| - 1] == a + front;
      ApplyAppend(st, a, front);
      Assoc(EmitAll(st, a), EmitAll(ApplyAll(st, a), front), Emit(ApplyAll(st, a + front), d));
    }
  }

  ghost predicate NoText(events: seq<StreamEvent>) {
    forall k :: 0 <= k < |events| ==> !events[k].TextDelta?
  }

  lemma {:induction false} DeltasEmitNoText(st: State, ds: seq<Delta>)
    ensures NoText(EmitAll(st, ds))
  {
    if ds != [] {
      DeltasEmitNoText(st, ds[..|ds| - 1]);
    }
  }

  /** Tool-call events change the calls only, and those only by the calls so far. */
  lemma {:induction false} FeedingCalls(acc: Accumulated, events: seq<StreamEvent>)
    requires NoText(events)
    ensures FeedAll(acc, events) == Accumulated(acc.text, FeedAll(Accumulated("", acc.calls), events).calls)
    decreases |events|
  {
    if events != [] {
      FeedingCalls(acc, events[..|events| - 1]);
    }
  }

  /** Over unfinished chunks, text and tool calls accumulate side by side. */
  lemma {:induction false} UnfinishedRun(cs: seq<Chunk>, parse: Parser)
    requires Unfinished(cs)
    ensures RunState(cs) == ApplyAll(EMPTY_STATE, AllDeltas(cs))
    ensures FeedAll(NOTHING, RunEvents(cs, parse))
         == Accumulated(AllText(cs), FeedAll(NOTHING, EmitAll(EMPTY_STATE, AllDeltas(cs))).calls)
  {
    if cs != [] {
      var front, c := cs[..|cs| - 1], cs[|cs| - 1];
      UnfinishedRun(front, parse);
      var st, acc := RunState(front), FeedAll(NOTHING, RunEvents(front, parse));
      var deltas := ChunkDeltas(c);
      ApplyAppend(EMPTY_STATE, AllDeltas(front), deltas);
      FeedAppend(NOTHING, RunEvents(front, parse), ChunkEvents(st, c, parse));
      FeedAppend(NOTHING, EmitAll(EMPTY_STATE, AllDeltas(front)), EmitAll(st, deltas));
      UnfinishedChunk(acc, st, c, parse);
      DeltasEmitNoText(st, deltas);
      FeedingCalls(Accumulated(acc.text + ChunkText(c), acc.calls), EmitAll(st, deltas));
      FeedingCalls(FeedAll(NOTHING, EmitAll(EMPTY_STATE, AllDeltas(front))), EmitAll(st, deltas));
    }
  }

  lemma {:induction false} UnfinishedChunk(acc: Accumulated, st: State, c: Chunk, parse: Parser)
    requires c.choices != [] ==> c.choices[0].finishReason.None?
    ensures ChunkState(st, c) == ApplyAll(st, ChunkDeltas(c))
    ensures FeedAll(acc, ChunkEvents(st, c, parse))
         == FeedAll(acc.(text := acc.text + ChunkText(c)), EmitAll(st, ChunkDeltas(c)))
  {
    assert acc.text + "" == acc.text;
    if c.choices != [] {
      var text := ChunkText(c);
      var head: seq<StreamEvent> := if text != "" then [TextDelta(text)] else [];
      FeedAppend(acc, head, EmitAll(st, ChunkDeltas(c)));
      if text != "" {
        FeedOne(acc, TextDelta(text));
      }
    }
  }

  lemma {:induction false} CompletionsChangeNothing(acc: Accumulated, calls: seq<ToolCall>)
    ensures FeedAll(acc, CompletedEvents(calls)) == acc
  {
    if calls != [] {
      CompletionsChangeNothing(acc, calls[..|calls| - 1]);
    }
  }

  /** The chunk that finishes an answer adds nothing to the accumulator. */
  lemma {:induction false} FinishingChunk(st: State, last: Chunk, parse: Parser, acc: Accumulated)
    requires last.choices != [] && last.choices[0].finishReason.Some?
    ensures FeedAll(acc, ChunkEvents(st, last, parse)) == acc
  {
    FinishShape(st, last, parse);
    var reason := ConvertFinish(last.choices[0].finishReason.value);
    EndingChangesNothing(acc, if reason.ToolCalls? then Completed(st, parse) else [], Finished(reason, last.usage));
  }

  lemma {:induction false} EndingChangesNothing(acc: Accumulated, calls: seq<ToolCall>, end: StreamEvent)
    requires end.Finished?
    ensures FeedAll(acc, CompletedEvents(calls) + [end]) == acc
  {
    FeedAppend(acc, CompletedEvents(calls), [end]);
    CompletionsChangeNothing(acc, calls);
    FeedOne(acc, end);
  }

  lemma {:induction false} RunSnoc(cs: seq<Chunk>, last: Chunk, parse: Parser)
    ensures RunState(cs + [last]) == ChunkState(RunState(cs), last)
    ensures RunEvents(cs + [last], parse) == RunEvents(cs, parse) + ChunkEvents(RunState(cs), last, parse)
  {
    assert (cs + [last])[..|cs|] == cs;
  }

  /** A whole answer, whatever word ends it: the accumulated message has all the text and
      exactly the adapter's calls. */
  lemma {:induction false} AnswerAgrees(cs: seq<Chunk>, last: Chunk, parse: Parser)
    requires Unfinished(cs) && ProviderStream(AllDeltas(cs)) && parse("").None?
    requires last.choices != [] && last.choices[0].finishReason.Some?
    ensures var acc := FeedAll(NOTHING, RunEvents(cs + [last], parse));
      acc.text == AllText(cs) && SameCalls(Completed(RunState(cs), parse), acc, parse)
  {
    var events := RunEvents(cs, parse);
    RunSnoc(cs, last, parse);
    FeedAppend(NOTHING, events, ChunkEvents(RunState(cs), last, parse));
    FinishingChunk(RunState(cs), last, parse, FeedAll(NOTHING, events));
    UnfinishedRun(cs, parse);
    ProviderStreamsAgree(AllDeltas(cs), parse);
  }

  /** If it ends with "tool_calls", the last events announce those calls in order and the
      adapter is ready for the next answer; if not, they are never announced and the adapter
      still holds them. */
  lemma {:induction false} AnswerEnds(cs: seq<Chunk>, last: Chunk, parse: Parser, word: string)
    requires last.choices != [] && last.choices[0].finishReason == Some(word)
    ensures |RunEvents(cs, parse)| < |RunEvents(cs + [last], parse)|
    ensures RunEvents(cs + [last], parse)[..|RunEvents(cs, parse)|] == RunEvents(cs, parse)
    ensures word == "tool_calls" ==>
      && AnnouncesAndEnds(
           RunEvents(cs + [last], parse)[|RunEvents(cs, parse)|..], Completed(RunState(cs), parse), last.usage)
      && RunState(cs + [last]) == State(map[], map[], map[], {})
    ensures word != "tool_calls" ==>
      && |RunEvents(cs + [last], parse)| == |RunEvents(cs, parse)| + 1
      && RunEvents(cs + [last], parse)[|RunEvents(cs, parse)|].Finished?
      && RunState(cs + [last]) == RunState(cs)
  {
    RunSnoc(cs, last, parse);
    FinishWords(word);
    FinishShape(RunState(cs), last, parse);
    CompletionsInOrder(Completed(RunState(cs), parse));
    var before, end := RunEvents(cs, parse), ChunkEvents(RunState(cs), last, parse);
    assert (before + end)[|before|..] == end && (before + end)[..|before|] == before;
  }
}
