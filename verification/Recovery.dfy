/** Recovery helpers: snipping old entries, building compaction checkpoints, and
    when snipping cannot be noticed. */
module Recovery {
  import opened Prelude
  import opened Messages
  import opened SessionJournal
  import opened JournalTheorems

  /** Drops every entry below the offset and rebuilds the journal from the rest.
      An empty journal is left alone. */
  method SnipBeforeOffset(journal: Journal, offset: u64) returns (removed: nat)
    modifies journal
    ensures journal.entries == KeepFrom(old(journal.entries), offset)
    ensures removed == |old(journal.entries)| - |journal.entries|
    ensures old(journal.entries) == [] ==> journal.nextOffset == old(journal.nextOffset)
    ensures old(journal.entries) != [] ==> journal.nextOffset == NextAfter(journal.entries)
    ensures old(journal.Valid()) ==> journal.Valid()
    ensures old(journal.Valid()) && journal.entries != [] ==> journal.nextOffset == old(journal.nextOffset)
  {
    var before := journal.entries;
    if |before| == 0 {
      return 0;
    }
    KeepFromLength(before, offset);
    var kept: seq<LogEntry> := [];
    for i := 0 to |before|
      invariant kept == KeepFrom(before[..i], offset)
    {
      KeepFromAppend(before[..i], [before[i]], offset);
      assert before[..i + 1] == before[..i] + [before[i]];
      if before[i].offset >= offset {
        kept := kept + [before[i]];
      }
    }
    assert before[..|before|] == before;
    removed := |before| - |kept|;
    var rebuilt := new Journal.FromEntries(kept);
    journal.entries, journal.nextOffset := rebuilt.entries, rebuilt.nextOffset;
    if ValidLog(before, old(journal.nextOffset)) {
      KeepFromIsSuffix(before, offset);
    }
  }

  function BuildCompactionCheckpoint(
      untilOffset: u64, summary: string, preserved: seq<Message>): SessionCheckpoint
  {
    SessionCheckpoint(untilOffset, Some(summary), preserved)
  }

  lemma {:induction false} KeepFromLength(entries: seq<LogEntry>, offset: u64)
    ensures |KeepFrom(entries, offset)| <= |entries|
  {
    if entries != [] {
      KeepFromLength(entries[1..], offset);
    }
  }

  lemma {:induction false} KeepFromAppend(a: seq<LogEntry>, b: seq<LogEntry>, offset: u64)
    ensures KeepFrom(a + b, offset) == KeepFrom(a, offset) + KeepFrom(b, offset)
  {
    if a == [] {
      assert a + b == b;
    } else {
      KeepFromAppend(a[1..], b, offset);
      var head := if a[0].offset >= offset then [a[0]] else [];
      var rest, more := KeepFrom(a[1..], offset), KeepFrom(b, offset);
      assert (a + b)[0] == a[0] && (a + b)[1..] == a[1..] + b;
      assert head + (rest + more) == (head + rest) + more;
    }
  }

  /** Dropping skipped entries from the front changes nothing. */
  lemma {:induction false} ReplayIgnoresOld(f: Fold, entries: seq<LogEntry>, more: seq<LogEntry>, offset: u64)
    requires Ordered(entries) && offset <= f.compactedUntil
    ensures Replay(f, entries + more) == Replay(f, KeepFrom(entries, offset) + more)
  {
    var k := FirstAtOrAfter(entries, offset);
    KeepFromIsSuffix(entries, offset);
    assert entries + more == entries[..k] + (entries[k..] + more);
    ReplayAppend(f, entries[..k], entries[k..] + more);
    ReplaySkips(f, entries[..k]);
  }

  /** Every further sequence of events gives the snipped and the original
      journal the same prompt from checkpoint `cp`. */
  ghost predicate SnipInvisible(entries: seq<LogEntry>, next: u64, offset: u64, cp: SessionCheckpoint) {
    var kept := KeepFrom(entries, offset);
    forall events: seq<SessionEvent> ::
      next + |events| <= U64_MAX && NextAfter(kept) + |events| <= U64_MAX ==>
        Prompt(kept + Recorded(NextAfter(kept), events), [cp])
        == Prompt(entries + Recorded(next, events), [cp])
  }

  /** Snipping a non-empty journal no deeper than the checkpoint compacts cannot
      be noticed, now or ever, exactly when an entry survives: when none does the
      offset counter restarts at 0, below the compaction offset, and later events
      are lost. (The other two cases are counters so close to their maximum that
      no later event could show.) */
  lemma {:induction false} SnipInvisibleIff(
      entries: seq<LogEntry>, next: u64, offset: u64, cp: SessionCheckpoint)
    requires ValidLog(entries, next) && entries != []
    requires offset <= cp.compactedUntilOffset
    ensures SnipInvisible(entries, next, offset, cp) <==>
            entries[|entries| - 1].offset >= offset
            || cp.compactedUntilOffset == U64_MAX || next == U64_MAX
  {
    KeepFromIsSuffix(entries, offset);
    if entries[|entries| - 1].offset >= offset {
      SurvivorKeepsPrompt(entries, next, offset, cp);
    } else {
      assert KeepFrom(entries, offset) == [];
      if cp.compactedUntilOffset == U64_MAX || next == U64_MAX {
        NothingCanShow(entries, next, offset, cp);
      } else {
        SnippedJournalLosesEvents(entries, next, offset, cp);
      }
    }
  }

  lemma {:induction false} SurvivorKeepsPrompt(
      entries: seq<LogEntry>, next: u64, offset: u64, cp: SessionCheckpoint)
    requires ValidLog(entries, next) && entries != []
    requires offset <= cp.compactedUntilOffset && entries[|entries| - 1].offset >= offset
    ensures SnipInvisible(entries, next, offset, cp)
  {
    var kept := KeepFrom(entries, offset);
    KeepFromIsSuffix(entries, offset);
    assert NextAfter(kept) == next;
    forall events: seq<SessionEvent> | next + |events| <= U64_MAX
      ensures Prompt(kept + Recorded(next, events), [cp]) == Prompt(entries + Recorded(next, events), [cp])
    {
      ReplayIgnoresOld(StartFrom(cp), entries, Recorded(next, events), offset);
    }
  }

  /** Old entries never show through the checkpoint. */
  lemma {:induction false} OnlyNewEntriesShow(
      entries: seq<LogEntry>, later: seq<LogEntry>, cp: SessionCheckpoint)
    requires forall i :: 0 <= i < |entries| ==> entries[i].offset < cp.compactedUntilOffset
    ensures Prompt(entries + later, [cp]) == Project(Replay(StartFrom(cp), later))
  {
    ReplayAppend(StartFrom(cp), entries, later);
    ReplaySkips(StartFrom(cp), entries);
  }

  lemma {:induction false} NothingShows(
      entries: seq<LogEntry>, next: u64, events: seq<SessionEvent>, cp: SessionCheckpoint)
    requires next + |events| <= U64_MAX
    requires forall i :: 0 <= i < |entries| ==> entries[i].offset < cp.compactedUntilOffset
    requires cp.compactedUntilOffset == U64_MAX || events == []
    ensures Prompt(entries + Recorded(next, events), [cp]) == Project(StartFrom(cp))
  {
    OnlyNewEntriesShow(entries, Recorded(next, events), cp);
    ReplaySkips(StartFrom(cp), Recorded(next, events));
  }

  lemma {:induction false} NothingCanShow(
      entries: seq<LogEntry>, next: u64, offset: u64, cp: SessionCheckpoint)
    requires ValidLog(entries, next) && entries != [] && KeepFrom(entries, offset) == []
    requires forall i :: 0 <= i < |entries| ==> entries[i].offset < offset <= cp.compactedUntilOffset
    requires cp.compactedUntilOffset == U64_MAX || next == U64_MAX
    ensures SnipInvisible(entries, next, offset, cp)
  {
    forall events: seq<SessionEvent> | next + |events| <= U64_MAX && 0 + |events| <= U64_MAX
      ensures Prompt([] + Recorded(0, events), [cp]) == Prompt(entries + Recorded(next, events), [cp])
    {
      NothingShows([], 0, events, cp);
      NothingShows(entries, next, events, cp);
    }
  }

  /** A run of empty user messages. */
  ghost function Chatter(count: nat): (events: seq<SessionEvent>)
    ensures |events| == count
  {
    if count == 0 then [] else Chatter(count - 1) + [MessageAppended(User([]))]
  }

  /** Chatter that stops just past the compaction offset leaves one message. */
  lemma {:induction false} LateChatterShows(f: Fold, next: u64, count: nat)
    requires next + count + 1 <= U64_MAX && f.compactedUntil <= next + count
    requires count > 0 ==> f.compactedUntil == next + count
    ensures Replay(f, Recorded(next, Chatter(count + 1))).messages == f.messages + [User([])]
  {
    var early, shown := Recorded(next, Chatter(count)), LogEntry(next + count, MessageAppended(User([])));
    assert Chatter(count + 1)[..count] == Chatter(count);
    assert Recorded(next, Chatter(count + 1)) == early + [shown];
    ReplaySkips(f, early);
    ReplaySnoc(f, early, shown);
  }

  /** The witness: enough further messages reach past the compaction offset in
      the original journal, but not in the one whose counter restarted. */
  lemma {:induction false} SnippedJournalLosesEvents(
      entries: seq<LogEntry>, next: u64, offset: u64, cp: SessionCheckpoint)
    requires ValidLog(entries, next) && entries != [] && KeepFrom(entries, offset) == []
    requires forall i :: 0 <= i < |entries| ==> entries[i].offset < offset <= cp.compactedUntilOffset
    requires next < U64_MAX && cp.compactedUntilOffset < U64_MAX
    ensures !SnipInvisible(entries, next, offset, cp)
  {
    assert entries[|entries| - 1].offset < offset;
    var count: nat := Max(cp.compactedUntilOffset, next) - next;
    var events := Chatter(count + 1);
    OnlyNewEntriesShow([], Recorded(0, events), cp);
    OnlyNewEntriesShow(entries, Recorded(next, events), cp);
    ReplaySkips(StartFrom(cp), Recorded(0, events));
    LateChatterShows(StartFrom(cp), next, count);
    var snipped, original :=
      Prompt([] + Recorded(0, events), [cp]), Prompt(entries + Recorded(next, events), [cp]);
    assert snipped.messages == cp.preservedMessages;
    assert original.messages == cp.preservedMessages + [User([])];
  }

  lemma {:induction false} SuffixStaysHonest(entries: seq<LogEntry>, k: nat)
    requires k <= |entries| && Ordered(entries) && Honest(entries)
    ensures Ordered(entries[k..]) && Honest(entries[k..])
  {
    var rest := entries[k..];
    forall i | 0 <= i < |rest| && rest[i].event.CheckpointCreated?
      ensures rest[i].event.checkpoint.compactedUntilOffset <= rest[i].offset + 1
    {
      assert rest[i] == entries[k + i];
    }
  }

  /** Below a recorded checkpoint the log can be cut away altogether: the full
      replay of an honest journal, and of all its continuations, is unchanged. */
  lemma {:induction false} SnipBelowRecordedCheckpoint(
      before: seq<LogEntry>, at: LogEntry, after: seq<LogEntry>, offset: u64)
    requires at.event.CheckpointCreated? && offset <= at.offset
    requires Ordered(before + [at] + after) && Honest(before + [at] + after)
    ensures Prompt(KeepFrom(before + [at] + after, offset), []) == Prompt(before + [at] + after, [])
  {
    var whole := before + [at] + after;
    assert whole[|before|] == at;
    ReplayRestartsAtCheckpoint(before, at, after);
    KeepFromIsSuffix(whole, offset);
    var k := FirstAtOrAfter(whole, offset);
    SuffixStaysHonest(whole, k);
    SliceAcross(before, at, after, k);
    ReplayRestartsAtCheckpoint(before[k..], at, after);
  }

  lemma {:induction false} SliceAcross(before: seq<LogEntry>, at: LogEntry, after: seq<LogEntry>, k: nat)
    requires k <= |before|
    ensures (before + [at] + after)[k..] == before[k..] + [at] + after
  {
  }

  /** Honest entries below `next` never push the compaction offset beyond it. */
  lemma {:induction false} StaysBelow(f: Fold, entries: seq<LogEntry>, next: u64)
    requires f.compactedUntil <= next && Honest(entries)
    requires forall i :: 0 <= i < |entries| ==> entries[i].offset < next
    ensures Replay(f, entries).compactedUntil <= next
  {
    if entries != [] {
      StaysBelow(f, entries[..|entries| - 1], next);
    }
  }

  /** Recording a checkpoint restarts the projection there, whatever offset it compacts up
      to, and whether it is found in the log or passed in again. */
  lemma {:induction false} RecordedCheckpointTakesOver(
      entries: seq<LogEntry>, next: u64,
      until: u64, summary: string, preserved: seq<Message>, later: seq<LogEntry>)
    requires ValidLog(entries, next) && Honest(entries)
    ensures var cp := BuildCompactionCheckpoint(until, summary, preserved);
      var log := entries + [LogEntry(next, CheckpointCreated(cp))] + later;
      var start := Fold(preserved, Reopen(preserved), Some(summary), until);
      && Prompt(log, []) == Project(Replay(start, later))
      && Prompt(log, [cp]) == Project(Replay(start, later))
      && (later == [] ==> Prompt(log, []) == PromptProjection(Some(summary), preserved, Reopen(preserved)))
  {
    var cp := BuildCompactionCheckpoint(until, summary, preserved);
    var at := LogEntry(next, CheckpointCreated(cp));
    AllBelowNext(entries, next);
    StaysBelow(EMPTY_FOLD, entries, next);
    ReplayRecorded(EMPTY_FOLD, entries, at, later);
    ReplayRecorded(StartFrom(cp), entries, at, later);
    if until <= next {
      StaysBelow(StartFrom(cp), entries, next);
    } else {
      ReplaySkips(StartFrom(cp), entries);
    }
  }

  lemma AllBelowNext(entries: seq<LogEntry>, next: u64)
    requires ValidLog(entries, next)
    ensures forall i :: 0 <= i < |entries| ==> entries[i].offset < next
  {
    if entries != [] {
      var last := |entries| - 1;
      assert forall i :: 0 <= i < last ==> entries[i].offset < entries[last].offset;
    }
  }

  lemma {:induction false} ReplayRecorded(f: Fold, a: seq<LogEntry>, e: LogEntry, b: seq<LogEntry>)
    ensures Replay(f, a + [e] + b) == Replay(Step(Replay(f, a), e), b)
  {
    ReplayAppend(f, a + [e], b);
    ReplaySnoc(f, a, e);
  }

  // ---- Recording and snipping in any order ----

  datatype JournalOp = RecordEvent(event: SessionEvent) | Snip(offset: u64)

  datatype LogState = LogState(entries: seq<LogEntry>, next: u64)

  /** One operation; `None` where the offset counter would overflow. */
  function Perform(st: LogState, op: JournalOp): Option<LogState> {
    match op
    case RecordEvent(event) =>
      if st.next == U64_MAX then None
      else Some(LogState(st.entries + [LogEntry(st.next, event)], st.next + 1))
    case Snip(offset) =>
      if st.entries == [] then Some(st)
      else
        var kept := KeepFrom(st.entries, offset);
        Some(LogState(kept, NextAfter(kept)))
  }

  function PerformAll(st: LogState, ops: seq<JournalOp>): Option<LogState> {
    if ops == [] then Some(st)
    else
      var before := PerformAll(st, ops[..|ops| - 1]);
      if before.None? then None else Perform(before.value, ops[|ops| - 1])
  }

  ghost predicate Valid(st: LogState) {
    ValidLog(st.entries, st.next)
  }

  lemma {:induction false} PerformKeepsValid(st: LogState, op: JournalOp)
    requires Valid(st) && Perform(st, op).Some?
    ensures Valid(Perform(st, op).value)
  {
    AllBelowNext(st.entries, st.next);
    if op.Snip? {
      KeepFromIsSuffix(st.entries, op.offset);
    }
  }

  /** However records and snips alternate, however deep they cut, the journal stays valid:
      offsets strictly increase and the next one follows the last. */
  lemma {:induction false} AlwaysValid(st: LogState, ops: seq<JournalOp>)
    requires Valid(st) && PerformAll(st, ops).Some?
    ensures Valid(PerformAll(st, ops).value)
  {
    if ops != [] {
      AlwaysValid(st, ops[..|ops| - 1]);
      PerformKeepsValid(PerformAll(st, ops[..|ops| - 1]).value, ops[|ops| - 1]);
    }
  }

  /** The run that never snips. */
  function OnlyRecords(ops: seq<JournalOp>): seq<JournalOp> {
    if ops == [] then []
    else OnlyRecords(ops[..|ops| - 1]) + (if ops[|ops| - 1].RecordEvent? then [ops[|ops| - 1]] else [])
  }

  /** A snip no deeper than `limit` that leaves an entry, if there was one. */
  ghost predicate GentleSnip(st: LogState, op: JournalOp, limit: u64) {
    op.Snip? ==> op.offset <= limit && (st.entries == [] || st.entries[|st.entries| - 1].offset >= op.offset)
  }

  ghost predicate Gentle(st: LogState, ops: seq<JournalOp>, limit: u64) {
    ops == [] ||
    (var front := ops[..|ops| - 1];
     Gentle(st, front, limit) && PerformAll(st, front).Some? &&
     GentleSnip(PerformAll(st, front).value, ops[|ops| - 1], limit))
  }

  /** The snipped journal is the full one without the entries below `m`. */
  ghost predicate SuffixFrom(snipped: LogState, full: LogState, m: u64) {
    && snipped.next == full.next && snipped.entries == KeepFrom(full.entries, m)
    && (full.entries == [] ==> m == 0)
    && (full.entries != [] ==> full.entries[|full.entries| - 1].offset >= m)
  }

  lemma {:induction false} KeepFromTwice(entries: seq<LogEntry>, a: u64, b: u64)
    ensures KeepFrom(KeepFrom(entries, a), b) == KeepFrom(entries, if a >= b then a else b)
  {
    if entries != [] {
      var first, rest := [entries[0]], entries[1..];
      KeepFromTwice(rest, a, b);
      var head := if entries[0].offset >= a then first else [];
      KeepFromAppend(head, KeepFrom(rest, a), b);
      assert KeepFrom(entries, a) == head + KeepFrom(rest, a);
      assert first[1..] == [] && KeepFrom(first, b) == if entries[0].offset >= b then first else [];
    }
  }

  /** An ordered journal cut below its last entry still ends in that entry. */
  lemma {:induction false} SuffixKeepsLast(snipped: LogState, full: LogState, m: u64)
    requires Valid(full) && SuffixFrom(snipped, full, m)
    ensures snipped.entries == [] <==> full.entries == []
    ensures full.entries != [] ==>
      snipped.entries[|snipped.entries| - 1] == full.entries[|full.entries| - 1]
  {
    KeepFromIsSuffix(full.entries, m);
  }

  lemma {:induction false} RecordKeepsSuffix(snipped: LogState, full: LogState, m: u64, op: JournalOp)
    requires Valid(full) && SuffixFrom(snipped, full, m) && op.RecordEvent? && Perform(full, op).Some?
    ensures Perform(snipped, op).Some? && SuffixFrom(Perform(snipped, op).value, Perform(full, op).value, m)
  {
    var e := LogEntry(full.next, op.event);
    KeepFromAppend(full.entries, [e], m);
    assert [e][1..] == [] && KeepFrom([e], m) == [e];
  }

  lemma {:induction false} SnipKeepsSuffix(snipped: LogState, full: LogState, m: u64, op: JournalOp, limit: u64)
      returns (after: u64)
    requires Valid(full) && SuffixFrom(snipped, full, m) && m <= limit
    requires op.Snip? && GentleSnip(snipped, op, limit)
    ensures after <= limit && SuffixFrom(Perform(snipped, op).value, full, after)
  {
    SuffixKeepsLast(snipped, full, m);
    if snipped.entries == [] {
      after := m;
    } else {
      after := if m >= op.offset then m else op.offset;
      KeepFromTwice(full.entries, m, op.offset);
      SuffixKeepsLast(LogState(KeepFrom(full.entries, after), full.next), full, after);
    }
  }

  /** Along every such run the snipped journal stays a suffix of the one never snipped,
      with the same next offset. */
  lemma {:induction false} SnippedIsSuffix(st: LogState, ops: seq<JournalOp>, limit: u64) returns (m: u64)
    requires Valid(st) && Gentle(st, ops, limit) && PerformAll(st, ops).Some?
    ensures PerformAll(st, OnlyRecords(ops)).Some? && m <= limit
    ensures Valid(PerformAll(st, OnlyRecords(ops)).value)
    ensures SuffixFrom(PerformAll(st, ops).value, PerformAll(st, OnlyRecords(ops)).value, m)
  {
    if ops == [] {
      m := 0;
      KeepFromZero(st.entries);
    } else {
      var front, op := ops[..|ops| - 1], ops[|ops| - 1];
      m := SnippedIsSuffix(st, front, limit);
      var snipped, full := PerformAll(st, front).value, PerformAll(st, OnlyRecords(front)).value;
      if op.RecordEvent? {
        assert (OnlyRecords(front) + [op])[..|OnlyRecords(front)|] == OnlyRecords(front);
        RecordKeepsSuffix(snipped, full, m, op);
        PerformKeepsValid(full, op);
      } else {
        assert OnlyRecords(ops) == OnlyRecords(front);
        m := SnipKeepsSuffix(snipped, full, m, op, limit);
      }
    }
  }

  lemma {:induction false} KeepFromZero(entries: seq<LogEntry>)
    ensures KeepFrom(entries, 0) == entries
  {
    if entries != [] {
      KeepFromZero(entries[1..]);
    }
  }

  /** The same prompt from the checkpoint after any further events. */
  ghost predicate LookAlike(a: LogState, b: LogState, cp: SessionCheckpoint) {
    forall events: seq<SessionEvent> :: a.next + |events| <= U64_MAX && b.next + |events| <= U64_MAX ==>
      Prompt(a.entries + Recorded(a.next, events), [cp]) == Prompt(b.entries + Recorded(b.next, events), [cp])
  }

  lemma LookAlikeBoth(k: LogState, a: LogState, b: LogState, cp: SessionCheckpoint)
    requires a.next == b.next && LookAlike(a, b, cp)
    ensures LookAlike(k, a, cp) <==> LookAlike(k, b, cp)
  {
  }

  /** So through the checkpoint nobody can tell that anything was snipped: after any mix of
      records and such snips, and after any further events, the prompt is that of the
      journal that was never snipped. */
  lemma {:induction false} GentleSnipsInvisible(st: LogState, ops: seq<JournalOp>, cp: SessionCheckpoint)
    requires Valid(st) && Gentle(st, ops, cp.compactedUntilOffset) && PerformAll(st, ops).Some?
    ensures PerformAll(st, OnlyRecords(ops)).Some?
    ensures var snipped, full := PerformAll(st, ops).value, PerformAll(st, OnlyRecords(ops)).value;
      snipped.next == full.next && LookAlike(snipped, full, cp)
  {
    var m := SnippedIsSuffix(st, ops, cp.compactedUntilOffset);
    SuffixLooksFull(PerformAll(st, ops).value, PerformAll(st, OnlyRecords(ops)).value, m, cp);
  }

  /** And this is exact: after such a run, one more snip that is no deeper than the
      checkpoint can be noticed some day, compared with the journal never snipped, unless
      it leaves an entry (or a counter is at its maximum). */
  lemma {:induction false} NextSnipInvisibleIff(
      st: LogState, ops: seq<JournalOp>, offset: u64, cp: SessionCheckpoint)
    requires Valid(st) && Gentle(st, ops, cp.compactedUntilOffset) && PerformAll(st, ops).Some?
    requires offset <= cp.compactedUntilOffset && PerformAll(st, ops).value.entries != []
    ensures PerformAll(st, OnlyRecords(ops)).Some?
    ensures var snipped, full := PerformAll(st, ops).value, PerformAll(st, OnlyRecords(ops)).value;
      LookAlike(Perform(snipped, Snip(offset)).value, full, cp)
      <==> snipped.entries[|snipped.entries| - 1].offset >= offset
           || cp.compactedUntilOffset == U64_MAX || snipped.next == U64_MAX
  {
    var m := SnippedIsSuffix(st, ops, cp.compactedUntilOffset);
    var snipped, full := PerformAll(st, ops).value, PerformAll(st, OnlyRecords(ops)).value;
    AlwaysValid(st, ops);
    SnipOfSuffixIff(snipped, full, m, offset, cp);
  }

  lemma {:induction false} SnipOfSuffixIff(
      snipped: LogState, full: LogState, m: u64, offset: u64, cp: SessionCheckpoint)
    requires Valid(snipped) && Valid(full) && SuffixFrom(snipped, full, m) && snipped.entries != []
    requires m <= cp.compactedUntilOffset && offset <= cp.compactedUntilOffset
    ensures LookAlike(Perform(snipped, Snip(offset)).value, full, cp)
      <==> snipped.entries[|snipped.entries| - 1].offset >= offset
           || cp.compactedUntilOffset == U64_MAX || snipped.next == U64_MAX
  {
    SuffixLooksFull(snipped, full, m, cp);
    OneSnipInvisibleIff(snipped, offset, cp);
    LookAlikeBoth(Perform(snipped, Snip(offset)).value, snipped, full, cp);
  }

  lemma {:induction false} OneSnipInvisibleIff(st: LogState, offset: u64, cp: SessionCheckpoint)
    requires Valid(st) && st.entries != [] && offset <= cp.compactedUntilOffset
    ensures LookAlike(Perform(st, Snip(offset)).value, st, cp)
      <==> st.entries[|st.entries| - 1].offset >= offset
           || cp.compactedUntilOffset == U64_MAX || st.next == U64_MAX
  {
    SnipInvisibleIff(st.entries, st.next, offset, cp);
    SnipLooks(st, offset, cp);
  }

  lemma SnipLooks(st: LogState, offset: u64, cp: SessionCheckpoint)
    requires st.entries != []
    ensures SnipInvisible(st.entries, st.next, offset, cp) <==> LookAlike(Perform(st, Snip(offset)).value, st, cp)
  {
  }

  lemma {:induction false} SuffixLooksFull(snipped: LogState, full: LogState, m: u64, cp: SessionCheckpoint)
    requires Valid(full) && SuffixFrom(snipped, full, m) && m <= cp.compactedUntilOffset
    ensures LookAlike(snipped, full, cp)
  {
    forall events: seq<SessionEvent> | full.next + |events| <= U64_MAX
      ensures Prompt(snipped.entries + Recorded(snipped.next, events), [cp])
           == Prompt(full.entries + Recorded(full.next, events), [cp])
    {
      ReplayIgnoresOld(StartFrom(cp), full.entries, Recorded(full.next, events), m);
    }
  }
}
