/** What the journal projection guarantees: the shortcuts (starting from a
    checkpoint, dropping a prefix) against the full replay, for every
    continuation of the log. */
module JournalTheorems {
  import opened Prelude
  import opened Messages
  import opened SessionJournal

  // ---- Replay and open calls ----

  lemma {:induction false} ReplayAppend(f: Fold, a: seq<LogEntry>, b: seq<LogEntry>)
    ensures Replay(f, a + b) == Replay(Replay(f, a), b)
    decreases |b|
  {
    if b == [] {
      assert a + b == a;
    } else {
      assert (a + b)[..|a + b| - 1] == a + b[..|b| - 1];
      ReplayAppend(f, a, b[..|b| - 1]);
    }
  }

  lemma {:induction false} ReplayOne(f: Fold, e: LogEntry)
    ensures Replay(f, [e]) == Step(f, e)
  {
    assert [e][..0] == [];
  }

  lemma {:induction false} ReplaySnoc(f: Fold, a: seq<LogEntry>, e: LogEntry)
    ensures Replay(f, a + [e]) == Step(Replay(f, a), e)
  {
    ReplayAppend(f, a, [e]);
    ReplayOne(Replay(f, a), e);
  }

  lemma {:induction false} ReplaySkips(f: Fold, entries: seq<LogEntry>)
    requires forall i :: 0 <= i < |entries| ==> entries[i].offset < f.compactedUntil
    ensures Replay(f, entries) == f
  {
    if entries != [] {
      ReplaySkips(f, entries[..|entries| - 1]);
    }
  }

  lemma {:induction false} HasIdClose(open: seq<ToolCall>, closed: string, id: string)
    ensures HasId(Close(open, closed), id) <==> id != closed && HasId(open, id)
  {
    if open != [] {
      HasIdClose(open[1..], closed, id);
      HasIdSplit([open[0]], open[1..], id);
      assert open == [open[0]] + open[1..];
      HasIdSplit(if open[0].id == closed then [] else [open[0]], Close(open[1..], closed), id);
      assert [open[0]][0] == open[0];
    }
  }

  lemma {:induction false} HasIdSplit(a: seq<ToolCall>, b: seq<ToolCall>, id: string)
    ensures HasId(a + b, id) <==> HasId(a, id) || HasId(b, id)
  {
    if HasId(a, id) {
      var i :| 0 <= i < |a| && a[i].id == id;
      assert (a + b)[i].id == id;
    }
    if HasId(b, id) {
      var i :| 0 <= i < |b| && b[i].id == id;
      assert (a + b)[|a| + i].id == id;
    }
  }

  lemma {:induction false} HasIdOpenAll(open: seq<ToolCall>, calls: seq<ToolCall>, id: string)
    ensures HasId(OpenAll(open, calls), id) <==> HasId(open, id) || HasId(calls, id)
  {
    if calls != [] {
      var front, last := calls[..|calls| - 1], calls[|calls| - 1];
      HasIdOpenAll(open, front, id);
      assert calls == front + [last];
      HasIdSplit(front, [last], id);
      HasIdSplit(OpenAll(open, front), [last], id);
    }
  }

  lemma {:induction false} CloseAbsent(open: seq<ToolCall>, id: string)
    requires !HasId(open, id)
    ensures Close(open, id) == open
  {
    if open != [] {
      assert open == [open[0]] + open[1..];
      HasIdSplit([open[0]], open[1..], id);
      assert [open[0]][0].id != id;
      CloseAbsent(open[1..], id);
    }
  }

  /** No two open calls share an id. */
  ghost predicate DistinctIds(calls: seq<ToolCall>) {
    forall i, j :: 0 <= i < j < |calls| ==> calls[i].id != calls[j].id
  }

  lemma {:induction false} CloseDistinct(open: seq<ToolCall>, id: string)
    requires DistinctIds(open)
    ensures DistinctIds(Close(open, id))
  {
    if open != [] {
      CloseDistinct(open[1..], id);
      forall j | 0 <= j < |Close(open[1..], id)|
        ensures open[0].id != Close(open[1..], id)[j].id
      {
        HasIdClose(open[1..], id, open[0].id);
      }
    }
  }

  lemma {:induction false} OpenAllDistinct(open: seq<ToolCall>, calls: seq<ToolCall>)
    requires DistinctIds(open)
    ensures DistinctIds(OpenAll(open, calls))
  {
    if calls != [] {
      OpenAllDistinct(open, calls[..|calls| - 1]);
    }
  }

  lemma {:induction false} ReopenDistinct(messages: seq<Message>)
    ensures DistinctIds(Reopen(messages))
  {
    if messages != [] {
      var last := messages[|messages| - 1];
      ReopenDistinct(messages[..|messages| - 1]);
      OpenAllDistinct(Reopen(messages[..|messages| - 1]), last.ToolCalls());
      if last.Tool? {
        CloseDistinct(OpenAll(Reopen(messages[..|messages| - 1]), last.ToolCalls()), last.toolCallId);
      }
    }
  }

  /** Whatever the log and the checkpoints, the projection never lists an open
      call id twice. */
  lemma {:induction false} OpenCallIdsAreDistinct(entries: seq<LogEntry>, checkpoints: seq<SessionCheckpoint>)
    ensures DistinctIds(Prompt(entries, checkpoints).openToolCalls)
  {
    if entries == [] {
      if checkpoints != [] {
        ReopenDistinct(checkpoints[|checkpoints| - 1].preservedMessages);
      }
    } else {
      var front, e := entries[..|entries| - 1], entries[|entries| - 1];
      OpenCallIdsAreDistinct(front, checkpoints);
      var f := Replay(StartState(checkpoints), front);
      match e.event {
        case MessageAppended(m) => OpenAllDistinct(f.openCalls, m.ToolCalls());
        case ToolCallFinished(result) => CloseDistinct(f.openCalls, result.callId);
        case CheckpointCreated(cp) => ReopenDistinct(cp.preservedMessages);
        case ToolCallStarted(_) =>
        case InputReceived(_) =>
        case BoundaryRecorded(_) =>
      }
    }
  }

  // ---- One event at a time, call by call ----

  /** The call at `p` repeats the id of an open call or of an earlier call. */
  ghost predicate Repeats(open: seq<ToolCall>, calls: seq<ToolCall>, p: nat)
    requires p < |calls|
  {
    || (exists j :: 0 <= j < |open| && open[j].id == calls[p].id)
    || (exists j :: 0 <= j < p && calls[j].id == calls[p].id)
  }

  /** The open list grows by the calls that repeat nothing, in their order. */
  ghost predicate GrowsBy(open: seq<ToolCall>, calls: seq<ToolCall>, at: seq<nat>, after: seq<ToolCall>) {
    && |open| <= |after| && after[..|open|] == open
    && PickedAt(calls, at, after[|open|..])
    && (forall p: nat :: p < |calls| ==> (p in at <==> !Repeats(open, calls, p)))
  }

  /** The open list loses every call with the id and keeps the others, in order. */
  ghost predicate ShrinksBy(open: seq<ToolCall>, id: string, at: seq<nat>, after: seq<ToolCall>) {
    && PickedAt(open, at, after)
    && (forall p: nat :: p < |open| ==> (p in at <==> open[p].id != id))
  }

  lemma {:induction false} OpenAllGrows(open: seq<ToolCall>, calls: seq<ToolCall>) returns (at: seq<nat>)
    ensures GrowsBy(open, calls, at, OpenAll(open, calls))
  {
    if calls == [] {
      at := [];
    } else {
      var n := |calls| - 1;
      var front, last := calls[..n], calls[n];
      at := OpenAllGrows(open, front);
      var before := OpenAll(open, front);
      HasIdOpenAll(open, front, last.id);
      assert Repeats(open, calls, n) <==> HasId(open, last.id) || HasId(front, last.id) by {
        assert forall j :: 0 <= j < n ==> front[j] == calls[j];
      }
      OneCallGrows(open, calls, n, at, before);
      if !HasId(before, last.id) {
        at := at + [n];
      }
    }
  }

  lemma {:induction false} OneCallGrows(
      open: seq<ToolCall>, calls: seq<ToolCall>, n: nat, at: seq<nat>, before: seq<ToolCall>)
    requires n + 1 == |calls| && GrowsBy(open, calls[..n], at, before)
    ensures Repeats(open, calls, n) ==> GrowsBy(open, calls, at, before)
    ensures !Repeats(open, calls, n) ==> GrowsBy(open, calls, at + [n], before + [calls[n]])
  {
    var front := calls[..n];
    forall p: nat | p < n ensures Repeats(open, front, p) <==> Repeats(open, calls, p) {
      assert forall j :: 0 <= j <= p ==> front[j] == calls[j];
    }
    PickedSnoc(calls, n, at, before[|open|..]);
    if !Repeats(open, calls, n) {
      var after := before + [calls[n]];
      assert after[|open|..] == before[|open|..] + [calls[n]];
      assert after[..|open|] == before[..|open|];
    }
  }

  lemma {:induction false} OneCallShrinks(open: seq<ToolCall>, id: string, rest: seq<nat>, after: seq<ToolCall>)
    requires open != [] && ShrinksBy(open[1..], id, rest, after)
    ensures open[0].id == id ==> ShrinksBy(open, id, Shifted(rest), after)
    ensures open[0].id != id ==> ShrinksBy(open, id, [0] + Shifted(rest), [open[0]] + after)
  {
    PickedCons(open, rest, after);
    assert forall p: nat :: 0 < p < |open| ==> open[p] == open[1..][p - 1];
  }

  lemma {:induction false} CloseShrinks(open: seq<ToolCall>, id: string) returns (at: seq<nat>)
    ensures ShrinksBy(open, id, at, Close(open, id))
  {
    if open == [] {
      at := [];
    } else {
      var rest := CloseShrinks(open[1..], id);
      OneCallShrinks(open, id, rest, Close(open[1..], id));
      at := if open[0].id == id then Shifted(rest) else [0] + Shifted(rest);
      assert [] + Close(open[1..], id) == Close(open[1..], id);
    }
  }

  /** An assistant message opens its calls, but none that is open or that it repeats. */
  lemma {:induction false} AssistantOpens(
      f: Fold, offset: u64, content: seq<ContentPart>, calls: seq<ToolCall>)
      returns (at: seq<nat>)
    requires offset >= f.compactedUntil
    ensures var m := Assistant(content, calls);
      var g := Step(f, LogEntry(offset, MessageAppended(m)));
      && GrowsBy(f.openCalls, calls, at, g.openCalls)
      && g == f.(messages := f.messages + [m], openCalls := g.openCalls)
  {
    at := OpenAllGrows(f.openCalls, calls);
  }

  /** No other message opens or closes a call of the projection. */
  lemma {:induction false} OtherMessagesOpenNothing(f: Fold, offset: u64, m: Message)
    requires offset >= f.compactedUntil && !m.Assistant?
    ensures Step(f, LogEntry(offset, MessageAppended(m))) == f.(messages := f.messages + [m])
  {
  }

  /** A start opens one call unless it is open; a finish closes every call of its id. */
  lemma {:induction false} StartAndFinish(f: Fold, offset: u64, call: ToolCall, result: ToolResult)
      returns (at: seq<nat>)
    requires offset >= f.compactedUntil
    ensures Step(f, LogEntry(offset, ToolCallStarted(call))) ==
      if exists j :: 0 <= j < |f.openCalls| && f.openCalls[j].id == call.id then f
      else f.(openCalls := f.openCalls + [call])
    ensures var g := Step(f, LogEntry(offset, ToolCallFinished(result)));
      ShrinksBy(f.openCalls, result.callId, at, g.openCalls) && g == f.(openCalls := g.openCalls)
  {
    at := CloseShrinks(f.openCalls, result.callId);
  }

  /** Inputs and boundaries leave no trace, and a skipped entry none whatever it says. */
  lemma {:induction false} SilentEntries(f: Fold, e: LogEntry)
    requires e.offset < f.compactedUntil || e.event.InputReceived? || e.event.BoundaryRecorded?
    ensures Step(f, e) == f
  {
  }

  /** A checkpoint found in the log replaces everything. */
  lemma {:induction false} CheckpointReplaces(f: Fold, offset: u64, cp: SessionCheckpoint)
    requires offset >= f.compactedUntil
    ensures Step(f, LogEntry(offset, CheckpointCreated(cp)))
         == Fold(cp.preservedMessages, Reopen(cp.preservedMessages), cp.summary, cp.compactedUntilOffset)
  {
  }

  /** The same for the message-driven tracker: assistant messages open. */
  lemma {:induction false} ReopenAssistant(ms: seq<Message>, content: seq<ContentPart>, calls: seq<ToolCall>)
      returns (at: seq<nat>)
    ensures Reopen([]) == []
    ensures GrowsBy(Reopen(ms), calls, at, Reopen(ms + [Assistant(content, calls)]))
  {
    ReopenSnoc(ms, Assistant(content, calls));
    at := OpenAllGrows(Reopen(ms), calls);
  }

  /** Tool messages close, system and user messages do neither. */
  lemma {:induction false} ReopenOthers(ms: seq<Message>, m: Message) returns (at: seq<nat>)
    requires !m.Assistant?
    ensures m.Tool? ==> ShrinksBy(Reopen(ms), m.toolCallId, at, Reopen(ms + [m]))
    ensures !m.Tool? ==> Reopen(ms + [m]) == Reopen(ms)
  {
    ReopenSnoc(ms, m);
    at := [];
    if m.Tool? {
      at := CloseShrinks(Reopen(ms), m.toolCallId);
    }
  }

  /** Without entries that take effect the prompt is that of the last checkpoint alone,
      whatever checkpoints come before it. */
  lemma {:induction false} LastCheckpointCounts(
      entries: seq<LogEntry>, earlier: seq<SessionCheckpoint>, cp: SessionCheckpoint)
    ensures Prompt(entries, earlier + [cp]) == Prompt(entries, [cp])
    ensures (forall i :: 0 <= i < |entries| ==> entries[i].offset < cp.compactedUntilOffset) ==>
      Prompt(entries, earlier + [cp])
      == PromptProjection(cp.summary, cp.preservedMessages, Reopen(cp.preservedMessages))
    ensures Prompt([], []) == PromptProjection(None, [], [])
  {
    if forall i :: 0 <= i < |entries| ==> entries[i].offset < cp.compactedUntilOffset {
      ReplaySkips(StartFrom(cp), entries);
    }
  }

  // ---- What the projection means ----

  /** The messages appended by a stretch of the log. */
  ghost function Appended(entries: seq<LogEntry>): seq<Message> {
    if entries == [] then []
    else
      Appended(entries[..|entries| - 1]) +
      (match entries[|entries| - 1].event case MessageAppended(m) => [m] case _ => [])
  }

  /** The calls an entry opens. */
  ghost function CallsOf(e: LogEntry): seq<ToolCall> {
    match e.event
    case MessageAppended(m) => m.ToolCalls()
    case ToolCallStarted(call) => [call]
    case _ => []
  }

  ghost predicate Opens(e: LogEntry, id: string) {
    HasId(CallsOf(e), id)
  }

  ghost predicate Finishes(e: LogEntry, id: string) {
    e.event.ToolCallFinished? && e.event.result.callId == id
  }

  ghost predicate UnfinishedFrom(entries: seq<LogEntry>, from: nat, id: string) {
    forall j :: from <= j < |entries| ==> !Finishes(entries[j], id)
  }

  ghost predicate OpenedAndUnfinished(entries: seq<LogEntry>, id: string) {
    exists i :: 0 <= i < |entries| && Opens(entries[i], id) && UnfinishedFrom(entries, i + 1, id)
  }

  ghost predicate NoCheckpoint(entries: seq<LogEntry>) {
    forall i :: 0 <= i < |entries| ==> !entries[i].event.CheckpointCreated?
  }

  ghost predicate AllFrom(entries: seq<LogEntry>, offset: u64) {
    forall i :: 0 <= i < |entries| ==> entries[i].offset >= offset
  }

  /** What one more entry leaves of a list. */
  ghost function After(open: seq<ToolCall>, e: LogEntry): seq<ToolCall> {
    if e.event.ToolCallFinished? then Close(open, e.event.result.callId) else open
  }

  lemma {:induction false} OneEntryOpens(f: Fold, e: LogEntry)
    requires !e.event.CheckpointCreated? && e.offset >= f.compactedUntil
    ensures Step(f, e).openCalls == OpenAll(After(f.openCalls, e), CallsOf(e))
    ensures e.event.ToolCallFinished? ==> CallsOf(e) == []
  {
    if e.event.ToolCallStarted? {
      assert [e.event.call][..0] == [];
    }
  }

  lemma {:induction false} OneEntryOpensIds(f: Fold, e: LogEntry, id: string)
    requires !e.event.CheckpointCreated? && e.offset >= f.compactedUntil
    ensures HasId(Step(f, e).openCalls, id) <==> Opens(e, id) || (HasId(f.openCalls, id) && !Finishes(e, id))
  {
    OneEntryOpens(f, e);
    HasIdOpenAll(After(f.openCalls, e), CallsOf(e), id);
    if e.event.ToolCallFinished? {
      HasIdClose(f.openCalls, e.event.result.callId, id);
    }
  }

  /** Open after these entries, given what was open at first. */
  ghost predicate OpenAfter(start: seq<ToolCall>, entries: seq<LogEntry>, id: string) {
    (HasId(start, id) && UnfinishedFrom(entries, 0, id)) || OpenedAndUnfinished(entries, id)
  }

  lemma {:induction false} OpenAfterSnoc(start: seq<ToolCall>, entries: seq<LogEntry>, id: string)
    requires entries != []
    ensures var front, e := entries[..|entries| - 1], entries[|entries| - 1];
      OpenAfter(start, entries, id) <==> Opens(e, id) || (OpenAfter(start, front, id) && !Finishes(e, id))
  {
    UnfinishedSnoc(entries, id);
  }

  lemma {:induction false} ReplayText(f: Fold, entries: seq<LogEntry>)
    requires NoCheckpoint(entries) && AllFrom(entries, f.compactedUntil)
    ensures var g := Replay(f, entries);
      && g.messages == f.messages + Appended(entries)
      && g.summary == f.summary && g.compactedUntil == f.compactedUntil
  {
    if entries != [] {
      ReplayText(f, entries[..|entries| - 1]);
    }
  }

  lemma {:induction false} ReplayOpenIds(f: Fold, entries: seq<LogEntry>, id: string)
    requires NoCheckpoint(entries) && AllFrom(entries, f.compactedUntil)
    ensures HasId(Replay(f, entries).openCalls, id) <==> OpenAfter(f.openCalls, entries, id)
  {
    if entries != [] {
      var front, e := entries[..|entries| - 1], entries[|entries| - 1];
      ReplayText(f, front);
      ReplayOpenIds(f, front, id);
      OneEntryOpensIds(Replay(f, front), e, id);
      OpenAfterSnoc(f.openCalls, entries, id);
    }
  }

  /** Between checkpoints the projection appends exactly the appended messages,
      keeps the summary, and has open exactly the ids opened with no later
      finish. */
  lemma {:induction false} ReplayMeaning(f: Fold, entries: seq<LogEntry>, id: string)
    requires NoCheckpoint(entries) && AllFrom(entries, f.compactedUntil)
    ensures var g := Replay(f, entries);
      && g.messages == f.messages + Appended(entries)
      && g.summary == f.summary && g.compactedUntil == f.compactedUntil
      && (HasId(g.openCalls, id) <==>
          (HasId(f.openCalls, id) && UnfinishedFrom(entries, 0, id)) || OpenedAndUnfinished(entries, id))
  {
    ReplayText(f, entries);
    ReplayOpenIds(f, entries, id);
  }

  lemma {:induction false} UnfinishedSnoc(entries: seq<LogEntry>, id: string)
    requires entries != []
    ensures var n := |entries| - 1;
      && (UnfinishedFrom(entries, 0, id) <==>
          UnfinishedFrom(entries[..n], 0, id) && !Finishes(entries[n], id))
      && (OpenedAndUnfinished(entries, id) <==>
          Opens(entries[n], id) || (OpenedAndUnfinished(entries[..n], id) && !Finishes(entries[n], id)))
  {
    var n := |entries| - 1;
    var front, e := entries[..n], entries[n];
    assert entries == front + [e];
    UnfinishedLonger(front, e, 0, id);
    assert Opens(e, id) ==> UnfinishedFrom(entries, n + 1, id);
    forall i | 0 <= i < n
      ensures Opens(entries[i], id) == Opens(front[i], id)
      ensures UnfinishedFrom(entries, i + 1, id) <==> UnfinishedFrom(front, i + 1, id) && !Finishes(e, id)
    {
      UnfinishedLonger(front, e, i + 1, id);
    }
  }

  // ---- Which calls are open, in order ----

  /** A call that was opened, and the first position that can finish it. */
  datatype Opening = Opening(call: ToolCall, from: nat)

  /** Those of the calls that are not open yet and repeat no earlier one. */
  ghost function NewCalls(start: seq<ToolCall>, entries: seq<LogEntry>, calls: seq<ToolCall>): seq<ToolCall> {
    if calls == [] then []
    else
      var front, last := calls[..|calls| - 1], calls[|calls| - 1];
      NewCalls(start, entries, front) +
      (if OpenAfter(start, entries, last.id) || HasId(front, last.id) then [] else [last])
  }

  ghost function Stamp(calls: seq<ToolCall>, from: nat): (openings: seq<Opening>)
    ensures forall i :: 0 <= i < |openings| ==> openings[i].from == from
  {
    if calls == [] then [] else [Opening(calls[0], from)] + Stamp(calls[1..], from)
  }

  /** Every opening, in the order of the log: what was open at first, then what each
      entry newly opens. */
  ghost function Openings(start: seq<ToolCall>, entries: seq<LogEntry>): (openings: seq<Opening>)
    ensures forall i :: 0 <= i < |openings| ==> openings[i].from <= |entries|
  {
    if entries == [] then Stamp(start, 0)
    else
      var front := entries[..|entries| - 1];
      Openings(start, front) + Stamp(NewCalls(start, front, CallsOf(entries[|entries| - 1])), |entries|)
  }

  /** The calls of those openings that no later entry finishes. */
  ghost function Surviving(openings: seq<Opening>, entries: seq<LogEntry>): seq<ToolCall> {
    if openings == [] then []
    else
      var o := openings[0];
      (if UnfinishedFrom(entries, o.from, o.call.id) then [o.call] else []) + Surviving(openings[1..], entries)
  }

  /** The open calls: opened, never finished since, in the order of their opening. */
  ghost function OpenList(start: seq<ToolCall>, entries: seq<LogEntry>): seq<ToolCall> {
    Surviving(Openings(start, entries), entries)
  }

  lemma {:induction false} CloseAppend(a: seq<ToolCall>, b: seq<ToolCall>, id: string)
    ensures Close(a + b, id) == Close(a, id) + Close(b, id)
  {
    if a == [] {
      assert a + b == b;
    } else {
      assert (a + b)[0] == a[0] && (a + b)[1..] == a[1..] + b;
      CloseAppend(a[1..], b, id);
    }
  }

  lemma {:induction false} AfterFront(head: seq<ToolCall>, rest: seq<ToolCall>, e: LogEntry)
    requires |head| <= 1
    ensures After(head + rest, e) == (if head != [] && Finishes(e, head[0].id) then [] else head) + After(rest, e)
  {
    if e.event.ToolCallFinished? {
      CloseAppend(head, rest, e.event.result.callId);
      assert head != [] ==> head[1..] == [];
    }
  }

  lemma {:induction false} UnfinishedLonger(front: seq<LogEntry>, e: LogEntry, from: nat, id: string)
    requires from <= |front|
    ensures UnfinishedFrom(front + [e], from, id) <==> UnfinishedFrom(front, from, id) && !Finishes(e, id)
  {
    var entries := front + [e];
    assert entries[|front|] == e && forall j :: 0 <= j < |front| ==> entries[j] == front[j];
  }

  lemma {:induction false} SurvivingSnoc(openings: seq<Opening>, front: seq<LogEntry>, e: LogEntry)
    requires forall i :: 0 <= i < |openings| ==> openings[i].from <= |front|
    ensures Surviving(openings, front + [e]) == After(Surviving(openings, front), e)
  {
    if openings != [] {
      var o := openings[0];
      SurvivingSnoc(openings[1..], front, e);
      UnfinishedLonger(front, e, o.from, o.call.id);
      var head := if UnfinishedFrom(front, o.from, o.call.id) then [o.call] else [];
      AfterFront(head, Surviving(openings[1..], front), e);
    }
  }

  lemma {:induction false} SurvivingAppend(a: seq<Opening>, b: seq<Opening>, entries: seq<LogEntry>)
    ensures Surviving(a + b, entries) == Surviving(a, entries) + Surviving(b, entries)
  {
    if a == [] {
      assert a + b == b;
    } else {
      assert (a + b)[0] == a[0] && (a + b)[1..] == a[1..] + b;
      SurvivingAppend(a[1..], b, entries);
      var head := if UnfinishedFrom(entries, a[0].from, a[0].call.id) then [a[0].call] else [];
      Assoc(head, Surviving(a[1..], entries), Surviving(b, entries));
    }
  }

  lemma {:induction false} FreshSurvive(calls: seq<ToolCall>, entries: seq<LogEntry>)
    ensures Surviving(Stamp(calls, |entries|), entries) == calls
  {
    if calls != [] {
      var rest := Stamp(calls[1..], |entries|);
      assert Stamp(calls, |entries|)[1..] == rest;
      FreshSurvive(calls[1..], entries);
    }
  }

  lemma {:induction false} OpenListSnoc(start: seq<ToolCall>, front: seq<LogEntry>, e: LogEntry)
    ensures OpenList(start, front + [e])
         == After(OpenList(start, front), e) + NewCalls(start, front, CallsOf(e))
  {
    var entries, news := front + [e], NewCalls(start, front, CallsOf(e));
    assert entries[..|front|] == front;
    SurvivingAppend(Openings(start, front), Stamp(news, |entries|), entries);
    SurvivingSnoc(Openings(start, front), front, e);
    FreshSurvive(news, entries);
  }

  lemma {:induction false} OpenAllIsNew(
      open: seq<ToolCall>, start: seq<ToolCall>, entries: seq<LogEntry>, calls: seq<ToolCall>)
    requires forall id :: HasId(open, id) <==> OpenAfter(start, entries, id)
    ensures OpenAll(open, calls) == open + NewCalls(start, entries, calls)
  {
    if calls == [] {
      assert open + [] == open;
    } else {
      var front, last := calls[..|calls| - 1], calls[|calls| - 1];
      OpenAllIsNew(open, start, entries, front);
      HasIdOpenAll(open, front, last.id);
    }
  }

  lemma {:induction false} OpenIdsMeaning(f: Fold, entries: seq<LogEntry>)
    requires NoCheckpoint(entries) && AllFrom(entries, f.compactedUntil)
    ensures Replay(f, entries).compactedUntil == f.compactedUntil
    ensures forall id :: HasId(Replay(f, entries).openCalls, id) <==> OpenAfter(f.openCalls, entries, id)
  {
    ReplayText(f, entries);
    forall id ensures HasId(Replay(f, entries).openCalls, id) <==> OpenAfter(f.openCalls, entries, id) {
      ReplayOpenIds(f, entries, id);
    }
  }

  lemma {:induction false} OneMoreOpen(g: Fold, start: seq<ToolCall>, front: seq<LogEntry>, e: LogEntry)
    requires !e.event.CheckpointCreated? && e.offset >= g.compactedUntil
    requires g.openCalls == OpenList(start, front)
    requires forall id :: HasId(g.openCalls, id) <==> OpenAfter(start, front, id)
    ensures Step(g, e).openCalls == OpenList(start, front + [e])
  {
    OneEntryOpens(g, e);
    if !e.event.ToolCallFinished? {
      OpenAllIsNew(g.openCalls, start, front, CallsOf(e));
    }
    OpenListSnoc(start, front, e);
  }

  /** Between checkpoints the open calls, with their contents and in order, are exactly
      that list. */
  lemma {:induction false} OpenCallsMeaning(f: Fold, entries: seq<LogEntry>)
    requires NoCheckpoint(entries) && AllFrom(entries, f.compactedUntil)
    ensures Replay(f, entries).openCalls == OpenList(f.openCalls, entries)
  {
    if entries == [] {
      FreshSurvive(f.openCalls, entries);
    } else {
      var front, e := entries[..|entries| - 1], entries[|entries| - 1];
      assert front + [e] == entries;
      OpenCallsMeaning(f, front);
      OpenIdsMeaning(f, front);
      OneMoreOpen(Replay(f, front), f.openCalls, front, e);
    }
  }

  // ---- Honest logs ----

  /** Every recorded checkpoint compacts no further than just past itself. */
  ghost predicate Honest(entries: seq<LogEntry>) {
    forall i :: 0 <= i < |entries| && entries[i].event.CheckpointCreated? ==>
      entries[i].event.checkpoint.compactedUntilOffset <= entries[i].offset + 1
  }

  /** An honest, ordered log never skips an entry. */
  lemma {:induction false} HonestNeverSkips(entries: seq<LogEntry>)
    requires Ordered(entries) && Honest(entries)
    ensures entries == [] ==> Replay(EMPTY_FOLD, entries).compactedUntil == 0
    ensures entries != [] ==>
      Replay(EMPTY_FOLD, entries).compactedUntil <= entries[|entries| - 1].offset + 1
  {
    if entries != [] {
      HonestNeverSkips(entries[..|entries| - 1]);
    }
  }

  /** The checkpoint takes effect: nothing before it compacts beyond it. */
  lemma {:induction false} CheckpointIsReached(before: seq<LogEntry>, at: LogEntry)
    requires Ordered(before + [at]) && Honest(before + [at])
    ensures Replay(EMPTY_FOLD, before).compactedUntil <= at.offset
  {
    var whole := before + [at];
    assert whole[..|before|] == before;
    FrontNeverSkips(whole, |before|);
  }

  lemma FrontIsHonest(front: seq<LogEntry>, rest: seq<LogEntry>)
    requires Ordered(front + rest) && Honest(front + rest)
    ensures Ordered(front) && Honest(front)
  {
    var whole := front + rest;
    assert forall i :: 0 <= i < |front| ==> whole[i] == front[i];
  }

  /** In an honest log the full replay is the last checkpoint followed by the
      entries after it: earlier entries leave no trace. */
  lemma {:induction false} ReplayRestartsAtCheckpoint(before: seq<LogEntry>, at: LogEntry, after: seq<LogEntry>)
    requires at.event.CheckpointCreated?
    requires Ordered(before + [at] + after) && Honest(before + [at] + after)
    ensures Replay(EMPTY_FOLD, before + [at] + after) == Replay(StartFrom(at.event.checkpoint), after)
  {
    FrontIsHonest(before + [at], after);
    CheckpointIsReached(before, at);
    ReplayAppend(EMPTY_FOLD, before + [at], after);
    ReplaySnoc(EMPTY_FOLD, before, at);
  }

  /** The whole meaning of the prompt of an honest log whose last checkpoint is
      `at`. */
  lemma {:induction false} PromptAfterLastCheckpoint(
      before: seq<LogEntry>, at: LogEntry, after: seq<LogEntry>, id: string)
    requires at.event.CheckpointCreated? && NoCheckpoint(after)
    requires Ordered(before + [at] + after) && Honest(before + [at] + after)
    ensures var cp, p := at.event.checkpoint, Prompt(before + [at] + after, []);
      && p.messages == cp.preservedMessages + Appended(after)
      && p.summary == cp.summary
      && p.openToolCalls == OpenList(Reopen(cp.preservedMessages), after)
      && (HasId(p.openToolCalls, id) <==>
          (HasId(Reopen(cp.preservedMessages), id) && UnfinishedFrom(after, 0, id))
          || OpenedAndUnfinished(after, id))
  {
    ReplayRestartsAtCheckpoint(before, at, after);
    var whole := before + [at] + after;
    assert whole[|before|] == at;
    assert forall i :: 0 <= i < |after| ==> whole[|before| + 1 + i] == after[i];
    ReplayMeaning(StartFrom(at.event.checkpoint), after, id);
    OpenCallsMeaning(StartFrom(at.event.checkpoint), after);
  }

  // ---- Checkpoint soundness ----

  /** The checkpoint at offset `k` that preserves exactly what the entries
      before `k` project to. */
  ghost function CheckpointOf(pre: seq<LogEntry>, k: u64): SessionCheckpoint {
    var f := Replay(EMPTY_FOLD, pre);
    SessionCheckpoint(k, f.summary, f.messages)
  }

  ghost predicate Continues(post: seq<LogEntry>, k: u64) {
    Ordered(post) && AllFrom(post, k)
  }

  ghost predicate SameText(p: PromptProjection, q: PromptProjection) {
    p.messages == q.messages && p.summary == q.summary
  }

  /** How far a recorded checkpoint compacts. */
  ghost function Reach(e: LogEntry): u64
    requires e.event.CheckpointCreated?
  {
    e.event.checkpoint.compactedUntilOffset
  }

  /** Entry `j` is the last checkpoint before position `i` that was not itself skipped. */
  ghost predicate InForce(log: seq<LogEntry>, j: nat, i: nat)
    decreases i, 0
  {
    && j < i <= |log| && log[j].event.CheckpointCreated? && !Skipped(log, j)
    && (forall m: nat :: j < m < i && log[m].event.CheckpointCreated? ==> Skipped(log, m))
  }

  /** Entry `i` lies below the checkpoint in force when it is reached. */
  ghost predicate Skipped(log: seq<LogEntry>, i: nat)
    decreases i, 1
  {
    i < |log| && exists j: nat :: j < i && InForce(log, j, i) && log[i].offset < Reach(log[j])
  }

  /** Some checkpoint that took effect compacts beyond `k`. */
  ghost predicate OverReaches(log: seq<LogEntry>, k: u64) {
    exists i: nat :: i < |log| && log[i].event.CheckpointCreated? && !Skipped(log, i) && Reach(log[i]) > k
  }

  /** The compaction offset at position `i`, read off the log. */
  ghost predicate CompactedIs(log: seq<LogEntry>, i: nat, compacted: u64) {
    && (forall j: nat :: InForce(log, j, i) ==> Reach(log[j]) == compacted)
    && ((forall j: nat :: !InForce(log, j, i)) ==> compacted == 0)
  }

  lemma {:induction false} CompactedSnoc(log: seq<LogEntry>, n: nat, compacted: u64)
    requires n < |log| && CompactedIs(log, n, compacted)
    ensures Skipped(log, n) <==> log[n].offset < compacted
    ensures CompactedIs(log, n + 1,
      if log[n].event.CheckpointCreated? && !Skipped(log, n) then Reach(log[n]) else compacted)
  {
    if log[n].event.CheckpointCreated? && !Skipped(log, n) {
      assert InForce(log, n, n + 1);
    } else {
      assert forall j: nat :: InForce(log, j, n + 1) <==> InForce(log, j, n);
    }
  }

  /** The fold's compaction offset is the reach of the checkpoint in force. */
  lemma {:induction false} CompactedByCheckpointInForce(log: seq<LogEntry>, i: nat)
    requires i <= |log|
    ensures CompactedIs(log, i, Replay(EMPTY_FOLD, log[..i]).compactedUntil)
  {
    if i > 0 {
      CompactedByCheckpointInForce(log, i - 1);
      CompactedSnoc(log, i - 1, Replay(EMPTY_FOLD, log[..i - 1]).compactedUntil);
      assert log[..i][..i - 1] == log[..i - 1] && log[..i][i - 1] == log[i - 1];
    }
  }

  /** A checkpoint that reaches beyond all offsets stays in force. */
  lemma {:induction false} StaysInForce(log: seq<LogEntry>, i: nat, to: nat)
    requires i < to <= |log| && log[i].event.CheckpointCreated? && !Skipped(log, i)
    requires forall m: nat :: i < m < to ==> log[m].offset < Reach(log[i])
    ensures InForce(log, i, to)
  {
    if i + 1 < to {
      StaysInForce(log, i, to - 1);
      assert log[to - 1].offset < Reach(log[i]);
    }
  }

  /** On a log below `k`, the fold's compaction offset is within `k` exactly when no
      checkpoint that took effect reaches beyond it. */
  lemma {:induction false} CompactsWithinIff(log: seq<LogEntry>, k: u64)
    requires forall i :: 0 <= i < |log| ==> log[i].offset < k
    ensures Replay(EMPTY_FOLD, log).compactedUntil <= k <==> !OverReaches(log, k)
  {
    var n := |log|;
    assert log[..n] == log;
    CompactedByCheckpointInForce(log, n);
    if OverReaches(log, k) {
      var i: nat :| i < n && log[i].event.CheckpointCreated? && !Skipped(log, i) && Reach(log[i]) > k;
      StaysInForce(log, i, n);
    }
  }

  /** Two folds that differ only in their open calls and in a compaction offset
      not above `k` stay alike over entries from `k` on. */
  lemma {:induction false} AlikeFromK(f: Fold, g: Fold, post: seq<LogEntry>, k: u64)
    requires f.messages == g.messages && f.summary == g.summary
    requires f.compactedUntil <= k && g.compactedUntil <= k && AllFrom(post, k)
    ensures var f', g' := Replay(f, post), Replay(g, post);
      && f'.messages == g'.messages && f'.summary == g'.summary
      && (f.openCalls == g.openCalls ==> f'.openCalls == g'.openCalls)
      && (f'.compactedUntil == g'.compactedUntil || (f'.compactedUntil <= k && g'.compactedUntil <= k))
  {
    if post != [] {
      AlikeFromK(f, g, post[..|post| - 1], k);
    }
  }

  /** Restarting from the checkpoint gives the same messages and summary as the full
      replay for EVERY continuation of the log, exactly when no checkpoint of the
      compacted part that took effect reaches beyond `k`. */
  lemma {:induction false} CheckpointSoundIff(pre: seq<LogEntry>, k: u64)
    requires forall i :: 0 <= i < |pre| ==> pre[i].offset < k
    ensures (forall post :: Continues(post, k) ==>
               SameText(Prompt(pre + post, [CheckpointOf(pre, k)]), Prompt(pre + post, [])))
       <==> !OverReaches(pre, k)
  {
    var f, cp := Replay(EMPTY_FOLD, pre), CheckpointOf(pre, k);
    CompactsWithinIff(pre, k);
    ReplaySkips(StartFrom(cp), pre);
    if f.compactedUntil <= k {
      forall post | Continues(post, k)
        ensures SameText(Prompt(pre + post, [cp]), Prompt(pre + post, []))
      {
        ReplayAppend(EMPTY_FOLD, pre, post);
        ReplayAppend(StartFrom(cp), pre, post);
        AlikeFromK(StartFrom(cp), f, post, k);
      }
    } else {
      var post := [LogEntry(k, MessageAppended(User([])))];
      assert Continues(post, k);
      ReplaySnoc(EMPTY_FOLD, pre, post[0]);
      ReplaySnoc(StartFrom(cp), pre, post[0]);
      assert !SameText(Prompt(pre + post, [cp]), Prompt(pre + post, []));
    }
  }

  /** The case the design promises: honest logs can be cut anywhere. */
  lemma {:induction false} CheckpointSound(pre: seq<LogEntry>, post: seq<LogEntry>, k: u64)
    requires Ordered(pre) && Honest(pre)
    requires forall i :: 0 <= i < |pre| ==> pre[i].offset < k
    requires Continues(post, k)
    ensures SameText(Prompt(pre + post, [CheckpointOf(pre, k)]), Prompt(pre + post, []))
  {
    HonestNeverSkips(pre);
    CompactsWithinIff(pre, k);
    CheckpointSoundIff(pre, k);
  }

  // ---- The two open-call trackers ----

  /** The event-driven open calls are those the messages alone would give. */
  ghost predicate TrackersAgree(f: Fold) {
    f.openCalls == Reopen(f.messages)
  }

  /** The entries after which agreeing trackers still agree. */
  ghost predicate KeepsAgreement(f: Fold, e: LogEntry) {
    match e.event
    case MessageAppended(m) => m.Tool? ==> !HasId(f.openCalls, m.toolCallId)
    case ToolCallStarted(call) => HasId(f.openCalls, call.id)
    case ToolCallFinished(result) => !HasId(f.openCalls, result.callId)
    case _ => true
  }

  lemma {:induction false} ReopenSnoc(messages: seq<Message>, m: Message)
    ensures Reopen(messages + [m]) ==
            var open := OpenAll(Reopen(messages), m.ToolCalls());
            if m.Tool? then Close(open, m.toolCallId) else open
  {
    assert (messages + [m])[..|messages|] == messages;
  }

  /** Exactly which single entries keep the two trackers in agreement. */
  lemma {:induction false} StepKeepsAgreementIff(f: Fold, e: LogEntry)
    requires TrackersAgree(f) && e.offset >= f.compactedUntil
    ensures TrackersAgree(Step(f, e)) <==> KeepsAgreement(f, e)
  {
    match e.event {
      case MessageAppended(m) =>
        ReopenSnoc(f.messages, m);
        if m.Tool? {
          HasIdClose(f.openCalls, m.toolCallId, m.toolCallId);
          if !HasId(f.openCalls, m.toolCallId) {
            CloseAbsent(f.openCalls, m.toolCallId);
          }
        }
      case ToolCallFinished(result) =>
        HasIdClose(f.openCalls, result.callId, result.callId);
        if !HasId(f.openCalls, result.callId) {
          CloseAbsent(f.openCalls, result.callId);
        }
      case ToolCallStarted(_) =>
      case CheckpointCreated(_) =>
      case InputReceived(_) =>
      case BoundaryRecorded(_) =>
    }
  }

  /** A finish and the tool message of the same call, in either order. */
  ghost predicate IsPair(a: LogEntry, b: LogEntry) {
    || (Finishes(a, ToolMessageId(b)) && IsToolMessage(b))
    || (IsToolMessage(a) && Finishes(b, ToolMessageId(a)))
  }

  ghost predicate IsToolMessage(e: LogEntry) {
    e.event.MessageAppended? && e.event.message.Tool?
  }

  ghost function ToolMessageId(e: LogEntry): string {
    if IsToolMessage(e) then e.event.message.toolCallId else ""
  }

  /** Such a pair adds the message and closes the call. */
  lemma PairStep(f: Fold, a: LogEntry, b: LogEntry)
    requires IsPair(a, b) && a.offset >= f.compactedUntil && b.offset >= f.compactedUntil
    ensures var m := if IsToolMessage(a) then a.event.message else b.event.message;
      Step(Step(f, a), b) == f.(messages := f.messages + [m], openCalls := Close(f.openCalls, m.toolCallId))
  {
    if IsToolMessage(a) {
      assert OpenAll(f.openCalls, a.event.message.ToolCalls()) == f.openCalls;
    } else {
      assert OpenAll(Step(f, a).openCalls, b.event.message.ToolCalls()) == Step(f, a).openCalls;
    }
  }

  lemma {:induction false} PairKeepsAgreement(f: Fold, a: LogEntry, b: LogEntry)
    requires TrackersAgree(f) && IsPair(a, b)
    requires a.offset >= f.compactedUntil && b.offset >= f.compactedUntil
    ensures TrackersAgree(Step(Step(f, a), b))
  {
    PairStep(f, a, b);
    ReopenSnoc(f.messages, if IsToolMessage(a) then a.event.message else b.event.message);
  }

  /** Logs in which every finish is paired with the adjacent tool message of the
      same call and every start repeats a call that is already open. */
  ghost predicate Paired(entries: seq<LogEntry>)
    decreases |entries|
  {
    var n := |entries|;
    || n == 0
    || (n >= 2 && IsPair(entries[n - 2], entries[n - 1]) && Paired(entries[..n - 2]))
    || (KeepsAgreement(Replay(EMPTY_FOLD, entries[..n - 1]), entries[n - 1]) && Paired(entries[..n - 1]))
  }

  lemma {:induction false} PairAtTheEnd(log: seq<LogEntry>, n: nat)
    requires n + 2 <= |log| && IsPair(log[n], log[n + 1])
    requires TrackersAgree(Replay(EMPTY_FOLD, log[..n]))
    requires Replay(EMPTY_FOLD, log[..n]).compactedUntil <= log[n].offset <= log[n + 1].offset
    ensures TrackersAgree(Replay(EMPTY_FOLD, log[..n + 2]))
  {
    assert log[..n + 1] == log[..n] + [log[n]] && log[..n + 2] == log[..n + 1] + [log[n + 1]];
    ReplaySnoc(EMPTY_FOLD, log[..n], log[n]);
    ReplaySnoc(EMPTY_FOLD, log[..n + 1], log[n + 1]);
    PairKeepsAgreement(Replay(EMPTY_FOLD, log[..n]), log[n], log[n + 1]);
  }

  lemma {:induction false} SingleAtTheEnd(log: seq<LogEntry>, n: nat)
    requires n < |log| && TrackersAgree(Replay(EMPTY_FOLD, log[..n]))
    requires KeepsAgreement(Replay(EMPTY_FOLD, log[..n]), log[n])
    requires Replay(EMPTY_FOLD, log[..n]).compactedUntil <= log[n].offset
    ensures TrackersAgree(Replay(EMPTY_FOLD, log[..n + 1]))
  {
    assert log[..n + 1] == log[..n] + [log[n]];
    ReplaySnoc(EMPTY_FOLD, log[..n], log[n]);
    StepKeepsAgreementIff(Replay(EMPTY_FOLD, log[..n]), log[n]);
  }

  /** An honest front of an ordered log never skips what follows it. */
  lemma {:induction false} FrontNeverSkips(log: seq<LogEntry>, n: nat)
    requires Ordered(log) && Honest(log) && n < |log|
    ensures Replay(EMPTY_FOLD, log[..n]).compactedUntil <= log[n].offset
    ensures n + 1 < |log| ==> log[n].offset <= log[n + 1].offset
  {
    HonestNeverSkips(log[..n]);
  }

  lemma PairedPrefix(log: seq<LogEntry>, n: nat)
    requires 0 < n <= |log| && Paired(log[..n])
    ensures
      || (n >= 2 && IsPair(log[n - 2], log[n - 1]) && Paired(log[..n - 2]))
      || (KeepsAgreement(Replay(EMPTY_FOLD, log[..n - 1]), log[n - 1]) && Paired(log[..n - 1]))
  {
    var front := log[..n];
    assert n >= 2 ==> front[..n - 2] == log[..n - 2] && front[n - 2] == log[n - 2];
    assert front[..n - 1] == log[..n - 1] && front[n - 1] == log[n - 1];
  }

  lemma {:induction false} PairedPrefixAgrees(log: seq<LogEntry>, n: nat)
    requires n <= |log| && Ordered(log) && Honest(log) && Paired(log[..n])
    ensures TrackersAgree(Replay(EMPTY_FOLD, log[..n]))
  {
    if n > 0 {
      PairedPrefix(log, n);
      if n >= 2 && IsPair(log[n - 2], log[n - 1]) && Paired(log[..n - 2]) {
        FrontNeverSkips(log, n - 2);
        PairedPrefixAgrees(log, n - 2);
        PairAtTheEnd(log, n - 2);
      } else {
        FrontNeverSkips(log, n - 1);
        PairedPrefixAgrees(log, n - 1);
        SingleAtTheEnd(log, n - 1);
      }
    }
  }

  /** On paired, honest logs the two independent trackers agree. */
  lemma {:induction false} PairedLogsAgree(entries: seq<LogEntry>)
    requires Ordered(entries) && Honest(entries) && Paired(entries)
    ensures TrackersAgree(Replay(EMPTY_FOLD, entries))
  {
    assert entries[..|entries|] == entries;
    PairedPrefixAgrees(entries, |entries|);
  }

  /** So a checkpoint at such a cut loses nothing at all: messages, summary and
      open calls agree with the full replay, whatever comes after. */
  lemma {:induction false} CheckpointKeepsEverything(pre: seq<LogEntry>, post: seq<LogEntry>, k: u64)
    requires Ordered(pre) && Honest(pre) && Paired(pre)
    requires forall i :: 0 <= i < |pre| ==> pre[i].offset < k
    requires Continues(post, k)
    ensures Prompt(pre + post, [CheckpointOf(pre, k)]) == Prompt(pre + post, [])
  {
    var f, cp := Replay(EMPTY_FOLD, pre), CheckpointOf(pre, k);
    HonestNeverSkips(pre);
    PairedLogsAgree(pre);
    ReplaySkips(StartFrom(cp), pre);
    ReplayAppend(EMPTY_FOLD, pre, post);
    ReplayAppend(StartFrom(cp), pre, post);
    AlikeFromK(StartFrom(cp), f, post, k);
  }

  /** A cut of a paired log leaves a paired log, unless it falls between the two
      entries of a pair. */
  lemma {:induction false} CutOfPairedLog(log: seq<LogEntry>, c: nat)
    requires Paired(log) && c <= |log|
    ensures Paired(log[..c]) || (0 < c < |log| && IsPair(log[c - 1], log[c]))
    decreases |log|
  {
    var n := |log|;
    if c == n {
      assert log[..n] == log;
    } else if n >= 2 && IsPair(log[n - 2], log[n - 1]) && Paired(log[..n - 2]) {
      if c <= n - 2 {
        CutOfPairedLog(log[..n - 2], c);
        assert log[..n - 2][..c] == log[..c];
      }
    } else {
      CutOfPairedLog(log[..n - 1], c);
      assert log[..n - 1][..c] == log[..c];
    }
  }

  /** `k` lies between the entries before the cut and those after it. */
  ghost predicate CutsAt(log: seq<LogEntry>, c: nat, k: u64) {
    && c <= |log| && (c > 0 ==> log[c - 1].offset < k) && (c < |log| ==> k <= log[c].offset)
  }

  lemma CutFits(log: seq<LogEntry>, c: nat, k: u64)
    requires Ordered(log) && Honest(log) && CutsAt(log, c, k)
    ensures Ordered(log[..c]) && Honest(log[..c]) && Continues(log[c..], k)
    ensures forall i :: 0 <= i < c ==> log[..c][i].offset < k
  {
    var post := log[c..];
    forall i | 0 <= i < |post| ensures post[i].offset >= k {
      assert i > 0 ==> log[c].offset < log[c + i].offset;
    }
  }

  lemma {:induction false} CutKeepsEverything(log: seq<LogEntry>, c: nat, k: u64)
    requires Ordered(log) && Honest(log) && CutsAt(log, c, k) && Paired(log[..c])
    ensures Prompt(log[..c] + log[c..], [CheckpointOf(log[..c], k)]) == Prompt(log[..c] + log[c..], [])
  {
    CutFits(log, c, k);
    CheckpointKeepsEverything(log[..c], log[c..], k);
  }

  /** So an honest, paired log can be checkpointed at every cut that splits no pair,
      with nothing lost: messages, summary and open calls. */
  lemma {:induction false} EveryCutKeepsEverything(log: seq<LogEntry>, c: nat, k: u64)
    requires Ordered(log) && Honest(log) && Paired(log)
    requires CutsAt(log, c, k) && !(0 < c < |log| && IsPair(log[c - 1], log[c]))
    ensures Prompt(log, [CheckpointOf(log[..c], k)]) == Prompt(log, [])
  {
    CutOfPairedLog(log, c);
    CutKeepsEverything(log, c, k);
    assert log == log[..c] + log[c..];
  }

  /** Every continuation keeps everything, open calls included, exactly when no checkpoint
      that took effect reaches beyond `k` and, at the cut, the prompt's open calls are
      those its messages alone would give. */
  lemma {:induction false} CheckpointKeepsEverythingIff(pre: seq<LogEntry>, k: u64)
    requires forall i :: 0 <= i < |pre| ==> pre[i].offset < k
    ensures (forall post :: Continues(post, k) ==>
               Prompt(pre + post, [CheckpointOf(pre, k)]) == Prompt(pre + post, []))
       <==> !OverReaches(pre, k) && Prompt(pre, []).openToolCalls == Reopen(Prompt(pre, []).messages)
  {
    var f, cp := Replay(EMPTY_FOLD, pre), CheckpointOf(pre, k);
    CheckpointSoundIff(pre, k);
    CompactsWithinIff(pre, k);
    ReplaySkips(StartFrom(cp), pre);
    if forall post :: Continues(post, k) ==> Prompt(pre + post, [cp]) == Prompt(pre + post, []) {
      assert Continues([], k) && pre + [] == pre;
      assert forall post :: Continues(post, k) ==> SameText(Prompt(pre + post, [cp]), Prompt(pre + post, []));
    }
    if f.compactedUntil <= k && TrackersAgree(f) {
      forall post | Continues(post, k) ensures Prompt(pre + post, [cp]) == Prompt(pre + post, []) {
        ReplayAppend(EMPTY_FOLD, pre, post);
        ReplayAppend(StartFrom(cp), pre, post);
        AlikeFromK(StartFrom(cp), f, post, k);
      }
    }
  }

  /** A log with an over-reaching checkpoint: cut at 1, it loses a later message. */
  lemma {:induction false} OverReachExample()
    ensures var pre := [LogEntry(0, CheckpointCreated(SessionCheckpoint(5, None, [])))];
      var post := [LogEntry(1, MessageAppended(User([])))];
      && Continues(post, 1) && OverReaches(pre, 1)
      && Prompt(pre + post, []).messages == []
      && Prompt(pre + post, [CheckpointOf(pre, 1)]).messages == [User([])]
  {
    var at, e := LogEntry(0, CheckpointCreated(SessionCheckpoint(5, None, []))), LogEntry(1, MessageAppended(User([])));
    assert [at][0] == at && !Skipped([at], 0);
    ReplayOne(EMPTY_FOLD, at);
    ReplaySnoc(EMPTY_FOLD, [at], e);
    var f := StartFrom(CheckpointOf([at], 1));
    ReplayOne(f, at);
    ReplaySnoc(f, [at], e);
  }

  /** A log whose trackers differ: a call that no message asks for. A checkpoint at the
      cut forgets that it is open. */
  lemma {:induction false} StrayStartExample(call: ToolCall)
    ensures var pre := [LogEntry(0, ToolCallStarted(call))];
      && Prompt(pre, []).openToolCalls == [call]
      && Prompt(pre + [], [CheckpointOf(pre, 1)]).openToolCalls == []
  {
    var e := LogEntry(0, ToolCallStarted(call));
    ReplayOne(EMPTY_FOLD, e);
    ReplayOne(StartFrom(CheckpointOf([e], 1)), e);
    assert [e] + [] == [e];
  }
}
