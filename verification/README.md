# The conversation-state kernel, verified

behest keeps an agent's conversation as data: a journal of events, a stored
history that is compacted and trimmed to fit a token budget, a byte stream from
the provider that becomes tool calls, and guards that stop an agent from spawning
or looping without end. This project models that kernel in Dafny and proves what
the pieces promise, over every input, every run and every schedule.

| file | subject |
|---|---|
| `Prelude.dfy`, `Messages.dfy` | options, machine words, weighted sums; messages and tool calls |
| `SessionJournal.dfy`, `JournalTheorems.dfy` | the event-sourced journal, its prompt projection, and checkpoints against the full replay |
| `Recovery.dfy` | snipping old entries, and when it cannot be noticed |
| `SseFraming.dfy`, `SseReading.dfy`, `SseTheorems.dfy`, `SseRoundTrip.dfy` | the incremental event-stream parser: what it reads position by position, against a one-shot reading, and against a printer |
| `ToolCallStream.dfy`, `ToolCallTheorems.dfy` | tool calls assembled twice from one stream, by index and by id |
| `HistoryFilter.dfy`, `TokenTrim.dfy` | the compaction-aware history filter and the token trim |
| `Budget.dfy`, `Compaction.dfy` | token thresholds and pressure; dropping the oldest groups of messages |
| `SubEngine.dfy`, `FanOut.dfy` | the tree of sub-agent engines, sequentially and under concurrency |
| `QuotaWindow.dfy` | the sliding-window creation quota |
| `DoomLoop.dfy` | detection of repeated calls and cycles |
| `EventStore.dfy` | the replayable event log and resumable paging |

Objects that update their fields are classes whose methods are proved equal to a
specification function of the old state; loops are loops. The theorems are about
those functions.

## What was learned about the code

- A checkpoint at offset `k` is as good as the full replay, for every continuation
  of the log, exactly when no recorded checkpoint that took effect before `k`
  compacts beyond `k`; one that was itself skipped does no harm
  (`CheckpointSoundIff`, `OverReachExample`). The open calls survive too exactly
  when the two open-call trackers agree at the cut: one closes on the finish event,
  the other on the tool message (`CheckpointKeepsEverythingIff`,
  `StrayStartExample`).
- Snipping every entry restarts the offset counter at 0, below the compaction
  offset, and later events are then lost. `SnipInvisibleIff` gives the exact
  condition for one snip, `GentleSnipsInvisible` and `NextSnipInvisibleIff` for any
  mix of records and snips.
- The stream parser answers "nothing yet" both for an incomplete block and for a
  complete block without data, and gives up at the end of the stream after two such
  answers. Text may be cut anywhere exactly when no two neighbouring blocks without
  data come before a block with data (`ChunkIndependentIff`, `LossyGapExample`).
- The parser trims all leading white space of a data line, where section 9.2.6 of
  the WHATWG HTML standard drops one space (`RoundTripIff`). It accepts `CR CR` as
  the end of a block but does not split lines at a bare CR (`CrOnlyBreaksIff`).
- The adapter and the runtime assemble the same calls exactly when every named call
  has its id and name no later than its first text (`AssembliesAgreeIff`). If the id never
  comes the adapter completes a call under a made-up id (`call_0`) that the runtime
  does not have (`MissingIdExample`); text sent before the start is kept by the
  adapter and dropped by the runtime (`EarlyFragmentExample`); and a fragment
  without an id is announced under the made-up id, which corrupts another call if
  that one really has it (`StrayFragmentExample`).
- A chunk that carries a finish reason is read for nothing else: text or tool-call
  fragments inside it are dropped (`ToolCallStream.OpenAiStreamState.ParseChunkEvent`).
- An answer that ends for another reason than its tool calls leaves the calls in the
  adapter, unannounced, although the accumulated message has them (`AnswerEnds`).
- The history filter keeps everything from the tail start exactly when the tail
  starts no later than the first ordinary record after the compaction
  (`TailKeptIff`). It needs no assumption that the two flags of a record are
  exclusive.
- A comment in the token trim speaks of keeping the system message; the code keeps
  the longest fitting suffix and nothing else.
- The documentation of `autocompact` names the effective window as its limit; the
  code, and the model, use the compact threshold. Its branch for "nothing dropped"
  cannot be reached, which `Compaction.Conversation.Autocompact` proves.
- The percentage of the window in use is exact for all token counts exactly when a
  hundred windows fit the machine word (`PercentExactIff`).
- Unless a limit is zero, with `n` creations in flight the total can exceed its limit
  by exactly `n - 1`, whatever the live limit, and the live count can reach exactly the smaller of the
  two limits plus `n - 1`; so the live limit itself holds exactly when that is
  within it (`LiveLimitHoldsIff`, `TotalLimitHoldsIff`). The live counter is shared
  by the whole tree, although its documentation speaks of one parent.
- A cycle is reported after `cycle_repetitions + 1` rounds: the configured number
  counts the rounds after the first (`CheckCycle`, `DetectedInTime`).

## Model

| member | source | states |
|---|---|---|
| `SessionJournal.Journal.New` | behest-core/src/journal.rs:170-175 | an empty journal starts at offset 0 and is valid |
| `SessionJournal.Journal.FromEntries` | behest-core/src/journal.rs:182-191 | a restored journal continues after its last entry (saturating), and is valid exactly for ordered entries below the maximal offset |
| `SessionJournal.Journal.Record` | behest-core/src/journal.rs:194-204 | appends the event under the next offset, changes nothing else, keeps offsets strictly increasing |
| `SessionJournal.Journal.EntriesSince` | behest-core/src/journal.rs:229-233 | in an ordered journal the suffix found by position is every entry at or after the offset |
| `SessionJournal.Journal.BuildPrompt` | behest-core/src/journal.rs:253-309 | the loop over the log computes the fold from the last checkpoint |
| `SessionJournal.ReopenToolCalls` | behest-core/src/journal.rs:439-457 | the loop computes the message-driven tracker: assistant messages open, tool messages close |
| `JournalTheorems.AssistantOpens` | behest-core/src/journal.rs:275-282 | an appended assistant message adds to the open calls, in order, exactly its calls whose id is neither open nor earlier in the message |
| `JournalTheorems.OtherMessagesOpenNothing` | behest-core/src/journal.rs:275-282 | no other appended message changes the open calls |
| `JournalTheorems.StartAndFinish` | behest-core/src/journal.rs:283-290 | a start opens its call unless the id is open; a finish removes every call of its id and keeps the others in order |
| `JournalTheorems.SilentEntries` | behest-core/src/journal.rs:270-299 | skipped entries, inputs and boundaries leave no trace |
| `JournalTheorems.CheckpointReplaces` | behest-core/src/journal.rs:291-297 | a checkpoint in the log replaces messages, summary, open calls and offset |
| `JournalTheorems.ReopenAssistant` | behest-core/src/journal.rs:439-449 | the message-driven tracker opens the calls of an assistant message in the same way |
| `JournalTheorems.ReopenOthers` | behest-core/src/journal.rs:450-453 | it closes every call a tool message answers; system and user messages change nothing |
| `JournalTheorems.LastCheckpointCounts` | behest-core/src/journal.rs:254-266 | only the last checkpoint passed in counts, and without later entries the prompt is its summary, its messages and their open calls |
| `JournalTheorems.OpenCallIdsAreDistinct` | behest-core/src/journal.rs:253-309 | whatever the log and checkpoints, no open call id appears twice in the prompt |
| `JournalTheorems.ReplayMeaning` | behest-core/src/journal.rs:270-299 | between checkpoints: messages are exactly the appended ones in order, the summary stays, and an id is open iff it was opened with no later finish |
| `JournalTheorems.OpenCallsMeaning` | behest-core/src/journal.rs:273-290 | between checkpoints the open calls are, with contents and in order, the calls opened and never finished since |
| `JournalTheorems.HonestNeverSkips` | behest-core/src/journal.rs:270-274 | in an ordered log whose checkpoints compact at most just past themselves, the compaction offset never passes the end of the log |
| `JournalTheorems.ReplayRestartsAtCheckpoint` | behest-core/src/journal.rs:291-297 | a recorded checkpoint erases everything projected before it |
| `JournalTheorems.PromptAfterLastCheckpoint` | behest-core/src/journal.rs:253-309 | the whole prompt of a log in terms of its last checkpoint and the events after it: messages, summary, and the list of open calls itself |
| `JournalTheorems.CheckpointSoundIff` | behest-core/src/journal.rs:253-309 | the checkpoint that preserves the projection of the entries before `k` gives the same messages and summary as the full replay, for every continuation, iff no checkpoint among those entries that took effect reaches beyond `k` |
| `JournalTheorems.CompactsWithinIff` | behest-core/src/journal.rs:270-297 | reads the compaction offset off the log: it is within `k` iff no checkpoint that was not itself skipped reaches beyond `k` |
| `JournalTheorems.OverReachExample` | behest-core/src/journal.rs:291-297 | a log with such a checkpoint, and the message the two prompts disagree on |
| `JournalTheorems.CheckpointSound` | behest-core/src/journal.rs:253-309 | the promised case: logs with honest checkpoints can be cut anywhere |
| `JournalTheorems.StepKeepsAgreementIff` | behest-core/src/journal.rs:273-297 | exactly which single events keep the event-driven and the message-driven open calls equal |
| `JournalTheorems.PairKeepsAgreement` | behest-core/src/journal.rs:288-290 | a finish next to the tool message of its call, in either order, keeps them equal |
| `JournalTheorems.PairedLogsAgree` | behest-core/src/journal.rs:439-457 | on logs built of such pairs and agreement-keeping events the two trackers agree |
| `JournalTheorems.CutOfPairedLog` | behest-core/src/journal.rs:273-296 | every cut of such a log is such a log, unless it falls between the two entries of a pair |
| `JournalTheorems.CheckpointKeepsEverything` | behest-core/src/journal.rs:253-309 | a checkpoint of such a log loses nothing, open calls included, whatever comes after |
| `JournalTheorems.EveryCutKeepsEverything` | behest-core/src/journal.rs:253-309 | such a log can be checkpointed at every cut that splits no pair |
| `JournalTheorems.CheckpointKeepsEverythingIff` | behest-core/src/journal.rs:253-309 | for all continuations everything is kept iff no checkpoint that took effect reaches beyond `k` and the open calls of the prompt at the cut are those its messages alone give |
| `JournalTheorems.StrayStartExample` | behest-core/src/journal.rs:283-287 | a log where they are not: a started call no message asks for is forgotten by the checkpoint |
| `Recovery.SnipBeforeOffset` | behest-core/src/recovery.rs:142-158 | keeps exactly the entries at or after the offset, counts the removed, and keeps the next offset when an entry survives |
| `Recovery.ReplayIgnoresOld` | behest-core/src/recovery.rs:142-158 | dropping entries below the compaction offset changes no replay, now or after any further entries |
| `Recovery.SnipInvisibleIff` | behest-core/src/recovery.rs:142-158 | snipping no deeper than a checkpoint compacts is invisible under every further sequence of events iff an entry survives (or a counter is at its maximum) |
| `Recovery.SnippedJournalLosesEvents` | behest-core/src/recovery.rs:142-158 | when none survives, some sequence of events is lost |
| `Recovery.SnipBelowRecordedCheckpoint` | behest-core/src/recovery.rs:142-158 | below a recorded checkpoint the log can be cut away without changing the full replay |
| `Recovery.RecordedCheckpointTakesOver` | behest-core/src/recovery.rs:170-180 | recording a built checkpoint, whatever offset it compacts up to, restarts the projection from the given summary and messages, whether it is found in the log or passed in as well |
| `Recovery.AlwaysValid` | behest-core/src/recovery.rs:142-158 | under every mix of records and snips offsets strictly increase and the next one follows the last |
| `Recovery.GentleSnipsInvisible` | behest-core/src/recovery.rs:142-158 | after any mix of records and snips that go no deeper than the checkpoint and leave an entry, and after any further events, the prompt is that of the journal never snipped |
| `Recovery.NextSnipInvisibleIff` | behest-core/src/recovery.rs:142-158 | after such a run one more snip stays invisible for all further events iff it leaves an entry (or a counter is at its maximum) |
| `SseFraming.FindEventBoundary` | behest-adapter-openai/src/sse.rs:109-131 | the scan finds the first block end |
| `SseFraming.ParseEventBlock` | behest-adapter-openai/src/sse.rs:142-163 | the line loop computes the last event name and the joined data lines; no data line, no event |
| `SseReading.BoundaryByPosition` | behest-adapter-openai/src/sse.rs:109-131 | a block ends behind the first blank line, of one of three kinds |
| `SseReading.LinesArePieces` | behest-adapter-openai/src/sse.rs:146 | the lines of a block are its pieces between line feeds, without a carriage return in front of one |
| `SseReading.DataByPosition` | behest-adapter-openai/src/sse.rs:149-151 | the data values are what follows `data:` on every line that begins with it, in order |
| `SseReading.EventByPosition` | behest-adapter-openai/src/sse.rs:147-148 | the event name is on the last line that begins with `event:` |
| `SseReading.TrimByPosition` | behest-adapter-openai/src/sse.rs:148 | trimming leaves what lies between the outermost characters that are not white space |
| `SseReading.TrimStartByPosition` | behest-adapter-openai/src/sse.rs:150 | trimming in front cuts at the first of them |
| `SseReading.WhitespaceTable` | behest-adapter-openai/src/sse.rs:148-150 | white space is a fixed set of code points |
| `SseReading.SplitByPosition` | behest-adapter-openai/src/sse.rs:160 | splitting a text at its line feeds, position by position |
| `SseReading.JoinThenSplit` | behest-adapter-openai/src/sse.rs:160 | the data of an event splits back into its data values |
| `SseFraming.SseStream.constructor` | behest-adapter-openai/src/sse.rs:50-59 | a stream starts with an empty buffer |
| `SseFraming.SseStream.ExtractEvent` | behest-adapter-openai/src/sse.rs:98-103 | takes the first complete block off the buffer and parses it |
| `SseFraming.SseStream.PollNext` | behest-adapter-openai/src/sse.rs:67-96 | the polling loop computes one poll: extract, else read on, and once more at the end of the stream |
| `SseFraming.Poll` | behest-adapter-openai/src/sse.rs:67-96 | every poll uses up input or buffer, so polling ends |
| `SseTheorems.BoundaryStable` | behest-adapter-openai/src/sse.rs:109-131 | a boundary found in a buffer stays the first one however the buffer grows, even if it ends inside a delimiter |
| `SseTheorems.PollTakesBlocks` | behest-adapter-openai/src/sse.rs:67-96 | without a lossy gap each poll takes a prefix of the remaining blocks and reports exactly their events |
| `SseTheorems.EmittedIsWhole` | behest-adapter-openai/src/sse.rs:67-96 | polling to the end gives the events of the whole remaining text |
| `SseTheorems.ChunkIndependentIff` | behest-adapter-openai/src/sse.rs:67-107 | all chunkings (with pauses and failures) give the events of the whole text iff it has no lossy gap |
| `SseTheorems.EmittedNoMore` | behest-adapter-openai/src/sse.rs:67-107 | under every chunking, lossy or not, no event comes out that the whole text does not have room for |
| `SseRoundTrip.LossyGapExample` | behest-adapter-openai/src/sse.rs:98-103 | a text whose cuts matter: two empty blocks before one with data |
| `SseTheorems.DataInEveryBlockIsEnough` | behest-adapter-openai/src/sse.rs:67-107 | the common case: every complete block carries data |
| `SseRoundTrip.PrintedBoundary` | behest-adapter-openai/src/sse.rs:109-131 | a printed block is the first block of any text it begins, with LF and with CR LF |
| `SseRoundTrip.PrintedParses` | behest-adapter-openai/src/sse.rs:142-163 | a printed block parses to its payload with lines trimmed in front and the name trimmed |
| `SseRoundTrip.DecodePrinted` | behest-adapter-openai/src/sse.rs:67-163 | under every chunking the printed payloads come back in order, so trimmed |
| `SseRoundTrip.RoundTripIff` | behest-adapter-openai/src/sse.rs:98-163 | decoding undoes printing iff no line starts with white space and the name is trimmed |
| `SseRoundTrip.LinesRoundTripIff` | behest-adapter-openai/src/sse.rs:98-163 | line by line: names and lines of the payloads come back, under every chunking, iff nothing is trimmed |
| `SseRoundTrip.CrOnlyBreaksIff` | behest-adapter-openai/src/sse.rs:67-163 | with bare CR line ends, under every chunking, decoding undoes printing iff every payload is the unnamed single empty line |
| `SseRoundTrip.CrBoundary` | behest-adapter-openai/src/sse.rs:109-131 | although the block boundary is found where it was printed |
| `ToolCallStream.OpenAiStreamState.constructor` | behest-adapter-openai/src/chat.rs:192-200 | an empty state |
| `ToolCallStream.OpenAiStreamState.CompletedToolCalls` | behest-adapter-openai/src/chat.rs:202-236 | returns the calls of the state and empties it |
| `ToolCallStream.OpenAiStreamState.ConvertToolCallDeltas` | behest-adapter-openai/src/chat.rs:331-377 | state and events are those of the deltas applied one by one |
| `ToolCallStream.OpenAiStreamState.ConvertDelta` | behest-adapter-openai/src/chat.rs:337-373 | one delta: note id and name, announce a start once, gather arguments |
| `ToolCallStream.OpenAiStreamState.ParseChunkEvent` | behest-adapter-openai/src/chat.rs:259-312 | a line that is no chunk gives an error and changes nothing; a finishing chunk completes the calls and says nothing else |
| `ToolCallTheorems.FinishByWord` | behest-adapter-openai/src/chat.rs:276-297 | by the word sent: "tool_calls" announces every completed call in order and the end and empties the state; "stop", "length", "content_filter" and any other text only say their end |
| `ToolCallTheorems.ContinuingChunk` | behest-adapter-openai/src/chat.rs:272-311 | an unfinished chunk gives its text, if any, and then the events of its deltas |
| `ToolCallTheorems.DeltaByPart` | behest-adapter-openai/src/chat.rs:339-365 | what one delta changes in the state, part by part; without an index it speaks of index 0 |
| `ToolCallTheorems.EventsByPart` | behest-adapter-openai/src/chat.rs:347-373 | the events of one delta: the start when id and name are first both there, then the fragment |
| `ToolCallStream.SortedIsSorted` | behest-adapter-openai/src/chat.rs:202-214 | the indices of completion: every key once, strictly increasing |
| `ToolCallTheorems.IndicesAreIndependent` | behest-adapter-openai/src/chat.rs:331-377 | what is known of an index depends on the deltas of that index only |
| `ToolCallTheorems.InterleavingDoesNotMatter` | behest-adapter-openai/src/chat.rs:202-236 | streams with the same deltas per index complete to the same calls, however interleaved |
| `ToolCallTheorems.StateMeaning` | behest-adapter-openai/src/chat.rs:331-377 | per index: the last id, the last name, the fragments joined in order |
| `ToolCallTheorems.CompletedMeaning` | behest-adapter-openai/src/chat.rs:202-236 | completion gives one call per named index, in index order, with arguments parsed from the joined fragments |
| `ToolCallTheorems.CompletedCallIsRead` | behest-adapter-openai/src/chat.rs:214-227 | every completed call has the last id sent or a made-up one, the last name, and for arguments what the reader makes of the joined fragments, or null |
| `ToolCallTheorems.DecimalReadsBack` | behest-adapter-openai/src/chat.rs:218-222 | a made-up id ends in the index, in decimal digits |
| `ToolCallTheorems.FallbackIdsDiffer` | behest-adapter-openai/src/chat.rs:364-369 | ids made up for different indices differ |
| `ToolCallTheorems.StartedAtMostOnce` | behest-adapter-openai/src/chat.rs:344-362 | between completions each index is announced at most once, and the announced are those marked started |
| `ToolCallStream.StreamAccumulator.constructor` | behest-runtime/src/accumulator.rs:22-24 | an empty accumulator |
| `ToolCallStream.StreamAccumulator.AppendText` | behest-runtime/src/accumulator.rs:27-29 | feeds a text event |
| `ToolCallStream.StreamAccumulator.StartToolCall` | behest-runtime/src/accumulator.rs:32-41 | feeds a start event; a repeated id starts over |
| `ToolCallStream.StreamAccumulator.AppendToolArguments` | behest-runtime/src/accumulator.rs:44-48 | feeds an arguments event; an unknown id changes nothing |
| `ToolCallStream.StreamAccumulator.ToolCalls` | behest-runtime/src/accumulator.rs:59-68 | every gathered call once, with the name gathered under its id and for arguments what the reader makes of the text, or null |
| `ToolCallStream.StreamAccumulator.ToMessage` | behest-runtime/src/accumulator.rs:76-95 | an assistant message with exactly those calls, and the text if there is any |
| `ToolCallStream.StreamAccumulator.Clear` | behest-runtime/src/accumulator.rs:98-101 | forgets everything |
| `ToolCallTheorems.RunKeepsLink` | behest-runtime/src/run_loop.rs:735-775 | along every stream with stable and distinct ids, arriving in any order, the accumulator holds the started calls, lacking exactly the text that came before the start |
| `ToolCallTheorems.AssembliesAgreeIff` | behest-runtime/src/accumulator.rs:44-68 | on every such stream both sides end with the same ids, names and joined texts iff every named index got its id and name, and no text before them |
| `ToolCallTheorems.AgreeForEveryReaderIff` | behest-runtime/src/accumulator.rs:59-68 | the calls with arguments read as JSON agree, for every reader, under the same condition |
| `ToolCallTheorems.MissingIdExample` | behest-adapter-openai/src/chat.rs:202-236 | a name without an id: the adapter completes a call the runtime does not have |
| `ToolCallTheorems.EarlyFragmentExample` | behest-runtime/src/accumulator.rs:44-48 | a fragment before the name: the adapter keeps it, the runtime drops it |
| `ToolCallTheorems.StrayFragmentExample` | behest-adapter-openai/src/chat.rs:364-369 | a made-up id that another call really has: its text lands in that call |
| `ToolCallTheorems.ProviderIsStable` | behest-adapter-openai/src/chat.rs:331-377 | streams whose first delta per index carries id and name, with distinct unchanging ids, are stable |
| `ToolCallTheorems.ProviderIsWhole` | behest-adapter-openai/src/chat.rs:331-377 | and all their named indices are whole |
| `ToolCallTheorems.ProviderStreamsAgree` | behest-runtime/src/accumulator.rs:32-68 | for those, under any interleaving, both sides end with the same calls, ids, names and arguments |
| `ToolCallTheorems.UnfinishedRun` | behest-runtime/src/run_loop.rs:735-775 | over the chunks of an unfinished answer text and calls accumulate side by side |
| `ToolCallTheorems.AnswerAgrees` | behest-runtime/src/run_loop.rs:735-782 | a whole answer, whatever word ends it: the accumulated message has exactly the calls of the adapter and all the text |
| `ToolCallTheorems.AnswerEnds` | behest-adapter-openai/src/chat.rs:276-297 | only an answer that ends with "tool_calls" announces its calls and empties the adapter; after any other end the adapter still holds them |
| `HistoryFilter.FindLatestPair` | behest-runtime/src/context.rs:373-395 | the backward scan finds the last compaction request followed by a summary, with the end of its summary run, or reports that there is none |
| `HistoryFilter.LatestPairIsUnique` | behest-runtime/src/context.rs:373-395 | there is only one such pair |
| `HistoryFilter.CollectTail` | behest-runtime/src/context.rs:451-459 | the ordinary records from the tail start to the compaction request |
| `HistoryFilter.ApplyCompactionFilter` | behest-runtime/src/context.rs:368-468 | the filter computes the declarative filtered history |
| `HistoryFilter.UnfilteredHistories` | behest-runtime/src/context.rs:395-407 | without a finished compaction, or without a named tail, the history comes back as it is |
| `HistoryFilter.SummaryStandsInFront` | behest-runtime/src/context.rs:427-448 | the summary text, between its tags, stands in front as a system message with the session of the request and the time of the summary |
| `HistoryFilter.RestStays` | behest-runtime/src/context.rs:450-466 | behind it come, in order and once, exactly the ordinary records between the tail start and the request and everything from the first ordinary record behind the summaries on |
| `HistoryFilter.FilterIsIdempotent` | behest-runtime/src/context.rs:368-468 | filtering a filtered history changes nothing, whatever ids the checkpoints get |
| `HistoryFilter.FilteredHasNoPair` | behest-runtime/src/context.rs:368-468 | after filtering no finished compaction is left iff the compaction named a tail |
| `HistoryFilter.KeptRecords` | behest-runtime/src/context.rs:409-466 | the ordinary records that survive: in order and once, those from the tail start on, or from the first one after the compaction if that is earlier |
| `HistoryFilter.FilterConserves` | behest-runtime/src/context.rs:368-468 | apart from markers the whole output is the checkpoint, if the summary has a text, and then exactly those records |
| `HistoryFilter.TailKeptIff` | behest-runtime/src/context.rs:409-466 | they are exactly those from the tail start on iff the tail starts no later than that |
| `HistoryFilter.LateTailExample` | behest-runtime/src/context.rs:409-466 | a history whose tail starts later than that |
| `TokenTrim.TrimByTokens` | behest-runtime/src/context.rs:477-512 | the backward walk, early exit included, computes the recursive trim |
| `TokenTrim.TrimmedIsLongestFit` | behest-runtime/src/context.rs:477-512 | the trim is the longest suffix within the budget, or the last record alone, and only that |
| `TokenTrim.TrimsCompose` | behest-runtime/src/context.rs:477-512 | trimming twice is trimming once by the smaller budget |
| `TokenTrim.PromptHistoryIsStable` | behest-runtime/src/context.rs:165-171 | filter then trim is idempotent, for every history |
| `TokenTrim.LatestOfSuffix` | behest-runtime/src/context.rs:373-395 | dropping records in front keeps the latest compaction pair, or leaves none |
| `Budget.ThresholdsNeverCross` | behest-core/src/budget.rs:196-238 | for every budget 1 <= warning <= compact <= blocking <= effective window, and the prompt keeps its minimum |
| `Budget.NewBudgets` | behest-core/src/budget.rs:92-98 | a new budget has the given reservation, a window of at least a thousand and the default buffers |
| `Budget.ReservedExactly` | behest-core/src/budget.rs:206-211 | the reservation honoured is the given one, cut to what half the window, up to 8000 tokens, leaves; a window of one or none reserves nothing |
| `Budget.BuffersAreHonoured` | behest-core/src/budget.rs:196-238 | the exact window and thresholds: reservation and buffers are taken in full, or cut to their share of the window |
| `Budget.AllLevelsReachable` | behest-core/src/budget.rs:92-98 | with default buffers the chain is strict and each level begins exactly at its threshold |
| `Budget.PressureIsMonotone` | behest-core/src/budget.rs:242-278 | more tokens never mean less pressure or more room |
| `Budget.FlagsFollowPressure` | behest-core/src/budget.rs:242-278 | the flags and percentages never contradict the level |
| `Budget.BlockingMeansNoRoom` | behest-core/src/budget.rs:138-143 | nothing remains before blocking iff the level is blocking |
| `Budget.PercentExactIff` | behest-core/src/budget.rs:242-256 | the reported percentage is exact for all token counts iff a hundred windows fit the machine word |
| `Budget.HugeWindowExample` | behest-core/src/budget.rs:242-256 | a full window of the largest size is reported as one percent used |
| `Compaction.SplitIntoGroups` | behest-memory/src/compaction.rs:278-296 | the groups cover all indices once, in order, with a user message only at a start |
| `Compaction.CountKept` | behest-memory/src/compaction.rs:232-250 | taking groups from the newest back stops at the earliest group from which everything fits, or at the last group |
| `Compaction.Conversation.Autocompact` | behest-memory/src/compaction.rs:209-271 | nothing changes within the limit or with one group; otherwise at least one group goes, the longest fitting run of whole groups stays, and the report counts groups and weight exactly |
| `Compaction.KeepPointIsUnique` | behest-memory/src/compaction.rs:232-259 | there is only one place to cut |
| `Compaction.AutocompactSettles` | behest-memory/src/compaction.rs:209-271 | the result of a second call on the result of a first: nothing changes, nothing is reported dropped |
| `Compaction.AutocompactTwice` | behest-memory/src/compaction.rs:209-271 | the same over two calls on one conversation |
| `Compaction.CompactCandidates` | behest-memory/src/compaction.rs:313-318 | the candidates and the recent messages together are the conversation |
| `Compaction.Conversation.ApplySummary` | behest-memory/src/compaction.rs:387-419 | one message stands for exactly the candidates; the recent messages stay; the report counts them |
| `SubEngine.Engine.Root` | behest-core/src/sub_engine.rs:266-275 | a root has the given journal, the default configuration, depth 0 and fresh counters at 0 |
| `SubEngine.Engine.CreateSubEngine` | behest-core/src/sub_engine.rs:351-389 | undisturbed, a child exists iff all three bounds allow it, one deeper, with an empty journal and the given configuration, on the same counters; a refusal changes nothing |
| `SubEngine.Engine.CanCreateChild` | behest-core/src/sub_engine.rs:328-335 | answers exactly whether creation would succeed |
| `SubEngine.Engine.Drop` | behest-core/src/sub_engine.rs:423-431 | gives back one live child, except for the root |
| `FanOut.StepKeepsInv` | behest-core/src/sub_engine.rs:351-389 | every atomic step of every call and every drop keeps the counting invariant |
| `FanOut.FanOutBound` | behest-core/src/sub_engine.rs:351-389 | under every schedule with at most `n` calls in flight the total stays within its limit plus `n - 1`, the live count within the smaller of both limits plus `n - 1`, and depth is exact |
| `FanOut.LiveBoundIsReached` | behest-core/src/sub_engine.rs:351-389 | the live bound is reached, for all limits of at least one |
| `FanOut.TotalBoundIsReached` | behest-core/src/sub_engine.rs:351-389 | so is the total bound, whatever the live limit: children come and go first |
| `FanOut.NothingIsCreated` | behest-core/src/sub_engine.rs:351-389 | with a limit of zero no schedule ever creates an engine |
| `FanOut.LiveLimitHoldsIff` | behest-core/src/sub_engine.rs:351-389 | the live limit holds under every schedule iff nothing can be created or the smaller limit plus `n - 1` is within it |
| `FanOut.TotalLimitHoldsIff` | behest-core/src/sub_engine.rs:351-389 | the total limit holds under every schedule iff nothing can be created or `n` is one |
| `FanOut.DropsNeverUnderflow` | behest-core/src/sub_engine.rs:423-431 | no drop takes the live counter below zero, in any order |
| `FanOut.QuiescentCounts` | behest-core/src/sub_engine.rs:316-324 | with nothing in flight the counters are the undropped and the ever created engines below the root |
| `FanOut.UndisturbedCall` | behest-core/src/sub_engine.rs:351-389 | an uninterrupted call in the step model does what the sequential method does |
| `QuotaWindow.Quota.constructor` | behest-core/src/sub_engine.rs:87-93 | an empty window |
| `QuotaWindow.Quota.EvictExpired` | behest-core/src/sub_engine.rs:144-154 | forgets exactly the times before the cutoff |
| `QuotaWindow.EvictByPosition` | behest-core/src/sub_engine.rs:144-154 | what is kept are exactly the times no older than the window, in order |
| `QuotaWindow.Quota.ActiveCount` | behest-core/src/sub_engine.rs:110-113 | counts what is left; the narrowing cast loses nothing |
| `QuotaWindow.Quota.Check` | behest-core/src/sub_engine.rs:118-122 | the remaining quota; the saturating subtraction never saturates |
| `QuotaWindow.Quota.Record` | behest-core/src/sub_engine.rs:129-136 | accepts iff fewer than the limit are left after eviction, and records then only |
| `QuotaWindow.Quota.Reset` | behest-core/src/sub_engine.rs:139-141 | forgets all times |
| `QuotaWindow.ListIsAcceptedSince` | behest-core/src/sub_engine.rs:144-154 | the lazily evicted list is always the accepted times since the last cutoff |
| `QuotaWindow.RecordFromAccepted` | behest-core/src/sub_engine.rs:129-136 | a creation is accepted iff fewer than the limit were accepted inside the window |
| `QuotaWindow.LooksNeverMatter` | behest-core/src/sub_engine.rs:110-136 | leaving out every check and count changes no outcome |
| `QuotaWindow.SlidingWindow` | behest-core/src/sub_engine.rs:109-154 | over every run with a clock that never goes back, every closed interval of one window holds at most the limit of accepted creations |
| `DoomLoop.DoomLoopDetector.CheckConsecutiveDuplicate` | behest-runtime/src/doom_loop.rs:215-237 | fires iff the last calls, as many as the threshold, are the same |
| `DoomLoop.DoomLoopDetector.PatternRepeats` | behest-runtime/src/doom_loop.rs:263-278 | the nested loops decide whether all rounds equal the first |
| `DoomLoop.RoundsArePeriod` | behest-runtime/src/doom_loop.rs:263-278 | all rounds equal the first iff the end of the history has the period |
| `DoomLoop.DoomLoopDetector.CheckCycle` | behest-runtime/src/doom_loop.rs:240-296 | reports the least length in range with which the history cycles, or that there is none |
| `DoomLoop.DoomLoopDetector.RecordAndCheck` | behest-runtime/src/doom_loop.rs:197-212 | records the call; reports iff there is a loop, duplicates first; disabled, does nothing |
| `DoomLoop.DoomLoopDetector.Clear` | behest-runtime/src/doom_loop.rs:299-301 | forgets the history |
| `DoomLoop.DetectedCycleIsUnique` | behest-runtime/src/doom_loop.rs:240-296 | only one length can be reported |
| `DoomLoop.DetectedInTime` | behest-runtime/src/doom_loop.rs:197-296 | a history periodic from `p` on is reported once it has length `p + L * (R + 1)`, and from then on |
| `DoomLoop.RepeatedInTime` | behest-runtime/src/doom_loop.rs:215-237 | one call repeated as often as the threshold is reported |
| `EventStore.MemoryRuntimeEventStore.constructor` | behest-runtime/src/event_store.rs:108-110 | an empty store |
| `EventStore.MemoryRuntimeEventStore.Append` | behest-runtime/src/event_store.rs:115-151 | stamps the event with the next number and the session of its run, and stores it |
| `EventStore.MemoryRuntimeEventStore.ListAfter` | behest-runtime/src/event_store.rs:153-175 | the first events after the given number, none for an unknown run |
| `EventStore.LogOfRun` | behest-runtime/src/event_store.rs:115-151 | however appends interleave, a run's log is exactly its own events numbered 1, 2, 3, ... |
| `EventStore.NumberedSessions` | behest-runtime/src/event_store.rs:123-128 | each event carries the session of the latest start before or at it |
| `EventStore.PageAdvances` | behest-runtime/src/event_store.rs:153-175 | a page moves the consumer on by the limit, or to the end |
| `EventStore.PagingIsExact` | behest-runtime/src/event_store.rs:153-175 | under every interleaving of appends and pages the consumer has a prefix of the log: every event once, in order |
| `EventStore.EmptyPageMeansDone` | behest-runtime/src/event_store.rs:153-175 | a page is empty iff the consumer has everything |
| `EventStore.PagingFinishes` | behest-runtime/src/event_store.rs:153-175 | as many pages as events are missing suffice |

## Left out

- SessionJournal.Journal.Record: needs room for one more offset; the overflow of the 64-bit counter is not modelled. Timestamps of entries are dropped, and the binary search of `entries_since` is modelled as the first position at or after the offset.
- Recovery: the three `inject_*` helpers record one fixed user message each, so `Record` covers them; their texts are not modelled.
- SseFraming.SseStream.PollNext: chunks are text cut at character boundaries; the lossy decoding of a character split between chunks is not modelled. The provider id of a transport error is reduced to a code.
- The same parser in the Anthropic adapter, and the filter for `[DONE]` events.
- ToolCallStream.OpenAiStreamState.ParseChunkEvent: JSON decoding is a parameter (a partial function), and the provider error is one value. Indices are unbounded.
- ToolCallStream.StreamAccumulator.ToolCalls: the order of a hash map is any order.
- ToolCallTheorems.AssembliesAgreeIff: streams whose ids or names change, or are shared by two indices, are not characterised; there the two sides follow different calls. A made-up id that another index really has is excluded for a fragment without an id.
- ToolCallTheorems.AgreeForEveryReaderIff: readers that reject the empty text, as JSON does.
- HistoryFilter.ApplyCompactionFilter: a record holds the fields the filter reads and one text for its content; the id of the checkpoint message is a parameter.
- TokenTrim.TrimByTokens: the token estimate of a record is any function, and sums are unbounded.
- Compaction.Conversation.Autocompact: the token estimate of a message is any function, and sums are unbounded.
- Compaction.Conversation.ApplySummary: the message built from the summary text is a parameter, and the flag saying whether the summary tags were found is left out. `microcompact` rewrites tool output text and is not modelled.
- Budget.New: custom buffers are covered by the theorems over all budgets; the constructor that takes them has no logic.
- FanOut.FanOutBound: steps interleave on a single memory; loads under relaxed ordering may in principle be staler than that. Counters are integers, which agrees with 32-bit counters as long as the proved bound fits 32 bits.
- QuotaWindow.SlidingWindow: runs without `reset`, which forgets accepted creations on purpose. Instants count from the start of the clock.
- DoomLoop: fingerprints are opaque; hashing and argument canonicalisation are not modelled, and index products are unbounded.
- EventStore.MemoryRuntimeEventStore.Append: event ids and emission times are left out, sequence numbers are unbounded, and the lock makes each call one step.
- The context pipeline's adapters and cache breakpoints, the run loop around the accumulator, HTTP, provider wire conversion, storage back ends, registries and the run state table: wiring, or tables whose members state themselves.
