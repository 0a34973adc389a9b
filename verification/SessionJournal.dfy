/** The event-sourced conversation journal: an append-only log of offset-stamped
    events, and the projection that folds it into the prompt. */
module SessionJournal {
  import opened Prelude
  import opened Messages

  datatype ToolResult = ToolResult(
    callId: string, toolName: string, output: string, isError: bool, value: Option<Json>)

  datatype CompactionBoundary =
    | Microcompact(tokensFreed: nat)
    | Autocompact(groupsDropped: nat, tokensFreed: nat)
    | FullCompact(summaryChars: nat, tokensFreed: nat)

  datatype SessionCheckpoint = SessionCheckpoint(
    compactedUntilOffset: u64, summary: Option<string>, preservedMessages: seq<Message>)

  datatype SessionEvent =
    | InputReceived(input: string)
    | MessageAppended(message: Message)
    | ToolCallStarted(call: ToolCall)
    | ToolCallFinished(result: ToolResult)
    | CheckpointCreated(checkpoint: SessionCheckpoint)
    | BoundaryRecorded(boundary: CompactionBoundary)

  datatype LogEntry = LogEntry(offset: u64, event: SessionEvent)

  datatype PromptProjection = PromptProjection(
    summary: Option<string>, messages: seq<Message>, openToolCalls: seq<ToolCall>)

  // ---- Open tool calls ----

  predicate HasId(calls: seq<ToolCall>, id: string) {
    exists i :: 0 <= i < |calls| && calls[i].id == id
  }

  /** Opens a call unless one with its id is open already. */
  function OpenOne(open: seq<ToolCall>, call: ToolCall): seq<ToolCall> {
    if HasId(open, call.id) then open else open + [call]
  }

  function OpenAll(open: seq<ToolCall>, calls: seq<ToolCall>): seq<ToolCall> {
    if calls == [] then open
    else OpenOne(OpenAll(open, calls[..|calls| - 1]), calls[|calls| - 1])
  }

  /** Drops every call with the given id, keeping the order of the others. */
  function Close(open: seq<ToolCall>, id: string): seq<ToolCall> {
    if open == [] then []
    else (if open[0].id == id then [] else [open[0]]) + Close(open[1..], id)
  }

  /** The message-driven tracker: assistant messages open, tool messages close. */
  function Reopen(messages: seq<Message>): seq<ToolCall> {
    if messages == [] then []
    else
      var last := messages[|messages| - 1];
      var open := OpenAll(Reopen(messages[..|messages| - 1]), last.ToolCalls());
      if last.Tool? then Close(open, last.toolCallId) else open
  }

  // ---- The projection ----

  /** The four variables the projection carries through the log. */
  datatype Fold = Fold(
    messages: seq<Message>, openCalls: seq<ToolCall>, summary: Option<string>, compactedUntil: u64)

  const EMPTY_FOLD := Fold([], [], None, 0)

  function StartFrom(cp: SessionCheckpoint): Fold {
    Fold(cp.preservedMessages, Reopen(cp.preservedMessages), cp.summary, cp.compactedUntilOffset)
  }

  /** One log entry applied to the projection; entries below the compaction
      offset are skipped. */
  function Step(f: Fold, e: LogEntry): Fold {
    if e.offset < f.compactedUntil then f
    else
      match e.event
      case MessageAppended(m) =>
        f.(messages := f.messages + [m], openCalls := OpenAll(f.openCalls, m.ToolCalls()))
      case ToolCallStarted(call) => f.(openCalls := OpenOne(f.openCalls, call))
      case ToolCallFinished(result) => f.(openCalls := Close(f.openCalls, result.callId))
      case CheckpointCreated(cp) => StartFrom(cp)
      case InputReceived(_) => f
      case BoundaryRecorded(_) => f
  }

  function Replay(f: Fold, entries: seq<LogEntry>): Fold {
    if entries == [] then f
    else Step(Replay(f, entries[..|entries| - 1]), entries[|entries| - 1])
  }

  /** Only the last checkpoint of the list is used. */
  function StartState(checkpoints: seq<SessionCheckpoint>): Fold {
    if checkpoints == [] then EMPTY_FOLD else StartFrom(checkpoints[|checkpoints| - 1])
  }

  function Project(f: Fold): PromptProjection {
    PromptProjection(f.summary, f.messages, f.openCalls)
  }

  /** What `BuildPrompt` computes. */
  function Prompt(entries: seq<LogEntry>, checkpoints: seq<SessionCheckpoint>): PromptProjection {
    Project(Replay(StartState(checkpoints), entries))
  }

  // ---- Offsets ----

  ghost predicate Ordered(entries: seq<LogEntry>) {
    forall i, j :: 0 <= i < j < |entries| ==> entries[i].offset < entries[j].offset
  }

  function SaturatingSucc(offset: u64): u64 {
    if offset == U64_MAX then U64_MAX else offset + 1
  }

  /** The next offset of a journal restored from these entries. */
  function NextAfter(entries: seq<LogEntry>): u64 {
    if entries == [] then 0 else SaturatingSucc(entries[|entries| - 1].offset)
  }

  /** The entries that recording `events` appends. */
  function Recorded(next: u64, events: seq<SessionEvent>): (r: seq<LogEntry>)
    requires next + |events| <= U64_MAX
    ensures |r| == |events|
    ensures forall i :: 0 <= i < |r| ==> r[i] == LogEntry(next + i, events[i])
  {
    if events == [] then []
    else Recorded(next, events[..|events| - 1]) + [LogEntry(next + |events| - 1, events[|events| - 1])]
  }

  function KeepFrom(entries: seq<LogEntry>, offset: u64): seq<LogEntry> {
    if entries == [] then []
    else (if entries[0].offset >= offset then [entries[0]] else []) + KeepFrom(entries[1..], offset)
  }

  /** What every journal built by `New`, `Record` and snipping satisfies: offsets
      strictly increase and the next one follows the last. */
  ghost predicate ValidLog(entries: seq<LogEntry>, next: u64) {
    && Ordered(entries)
    && next == NextAfter(entries)
    && (entries != [] ==> entries[|entries| - 1].offset < next)
  }

  method ReopenToolCalls(messages: seq<Message>) returns (open: seq<ToolCall>)
    ensures open == Reopen(messages)
  {
    open := [];
    for i := 0 to |messages|
      invariant open == Reopen(messages[..i])
    {
      assert messages[..i + 1][..i] == messages[..i];
      open := OpenCalls(open, messages[i].ToolCalls());
      if messages[i].Tool? {
        open := Close(open, messages[i].toolCallId);
      }
    }
    assert messages[..|messages|] == messages;
  }

  method OpenCalls(before: seq<ToolCall>, calls: seq<ToolCall>) returns (open: seq<ToolCall>)
    ensures open == OpenAll(before, calls)
  {
    open := before;
    for i := 0 to |calls|
      invariant open == OpenAll(before, calls[..i])
    {
      assert calls[..i + 1][..i] == calls[..i];
      if !HasId(open, calls[i].id) {
        open := open + [calls[i]];
      }
    }
    assert calls[..|calls|] == calls;
  }

  class Journal {
    var entries: seq<LogEntry>
    var nextOffset: u64

    ghost predicate Valid()
      reads this
    {
      ValidLog(entries, nextOffset)
    }

    constructor New()
      ensures Valid() && entries == [] && nextOffset == 0
    {
      entries, nextOffset := [], 0;
    }

    /** Restores a journal. The caller keeps the entries in order. */
    constructor FromEntries(restored: seq<LogEntry>)
      ensures entries == restored && nextOffset == NextAfter(restored)
      ensures restored == [] ==> nextOffset == 0
      ensures restored != [] ==> var last := restored[|restored| - 1].offset;
        nextOffset == if last < 0xFFFF_FFFF_FFFF_FFFF then last + 1 else 0xFFFF_FFFF_FFFF_FFFF
      ensures Ordered(restored) && (restored != [] ==> restored[|restored| - 1].offset < U64_MAX) <==> Valid()
    {
      entries := restored;
      nextOffset := if restored == [] then 0 else SaturatingSucc(restored[|restored| - 1].offset);
    }

    /** Appends an event under the next offset. The offset counter overflows at
        its maximum, so the call needs room for one more. */
    method Record(event: SessionEvent) returns (offset: u64)
      requires nextOffset < U64_MAX
      modifies this
      ensures offset == old(nextOffset) && nextOffset == old(nextOffset) + 1
      ensures entries == old(entries) + Recorded(old(nextOffset), [event])
      ensures old(Valid()) ==> Valid()
    {
      offset := nextOffset;
      nextOffset := nextOffset + 1;
      entries := entries + [LogEntry(offset, event)];
    }

    /** All entries at or after the offset, found by their position in the
        ordered log. */
    function EntriesSince(offset: u64): (since: seq<LogEntry>)
      requires Ordered(entries)
      reads this
      ensures since == KeepFrom(entries, offset)
    {
      KeepFromIsSuffix(entries, offset);
      entries[FirstAtOrAfter(entries, offset)..]
    }

    /** The current prompt, from the log and the last of the checkpoints. */
    method BuildPrompt(checkpoints: seq<SessionCheckpoint>) returns (prompt: PromptProjection)
      ensures prompt == Prompt(entries, checkpoints)
    {
      var messages: seq<Message>, openToolCalls: seq<ToolCall> := [], [];
      var summary: Option<string> := None;
      var compactedUntil: u64 := 0;
      if checkpoints != [] {
        var last := checkpoints[|checkpoints| - 1];
        compactedUntil, summary, messages :=
          last.compactedUntilOffset, last.summary, last.preservedMessages;
        openToolCalls := ReopenToolCalls(messages);
      }
      for i := 0 to |entries|
        invariant Fold(messages, openToolCalls, summary, compactedUntil)
               == Replay(StartState(checkpoints), entries[..i])
      {
        assert entries[..i + 1][..i] == entries[..i];
        var entry := entries[i];
        if entry.offset < compactedUntil {
          continue;
        }
        match entry.event {
          case MessageAppended(message) =>
            openToolCalls := OpenCalls(openToolCalls, message.ToolCalls());
            messages := messages + [message];
          case ToolCallStarted(call) =>
            if !HasId(openToolCalls, call.id) {
              openToolCalls := openToolCalls + [call];
            }
          case ToolCallFinished(result) =>
            openToolCalls := Close(openToolCalls, result.callId);
          case CheckpointCreated(checkpoint) =>
            compactedUntil, summary, messages :=
              checkpoint.compactedUntilOffset, checkpoint.summary, checkpoint.preservedMessages;
            openToolCalls := ReopenToolCalls(messages);
          case InputReceived(_) =>
          case BoundaryRecorded(_) =>
        }
      }
      assert entries[..|entries|] == entries;
      prompt := PromptProjection(summary, messages, openToolCalls);
    }
  }

  function FirstAtOrAfter(entries: seq<LogEntry>, offset: u64): (k: nat)
    ensures k <= |entries|
    ensures k < |entries| ==> entries[k].offset >= offset
    ensures forall i :: 0 <= i < k ==> entries[i].offset < offset
  {
    if entries == [] || entries[0].offset >= offset then 0
    else 1 + FirstAtOrAfter(entries[1..], offset)
  }

  /** In an ordered log the entries from an offset on are a suffix. */
  lemma {:induction false} KeepFromIsSuffix(entries: seq<LogEntry>, offset: u64)
    requires Ordered(entries)
    ensures KeepFrom(entries, offset) == entries[FirstAtOrAfter(entries, offset)..]
  {
    if entries != [] {
      KeepFromIsSuffix(entries[1..], offset);
      if entries[0].offset >= offset && |entries| > 1 {
        assert FirstAtOrAfter(entries[1..], offset) == 0;
      }
    }
  }
}
