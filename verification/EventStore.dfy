/** The replayable event log: per-run sequence numbers, the session each event
    belongs to, and resumable paging. */
module EventStore {
  import opened Prelude

  type RunId = nat
  type SessionId = nat

  datatype AgentEvent =
    | RunStarted(runId: RunId, sessionId: SessionId)
    | Other(runId: RunId, payload: string)

  datatype Envelope = Envelope(sequence: nat, runId: RunId, sessionId: Option<SessionId>, event: AgentEvent)

  /** Everything behind the one lock. */
  datatype StoreState = StoreState(
    events: map<RunId, seq<Envelope>>, sequences: map<RunId, nat>, sessions: map<RunId, Option<SessionId>>)

  const EMPTY_STORE := StoreState(map[], map[], map[])

  function Get<V>(m: map<RunId, V>, run: RunId, default: V): V {
    if run in m then m[run] else default
  }

  function SessionFor(st: StoreState, event: AgentEvent): Option<SessionId> {
    if event.RunStarted? then Some(event.sessionId) else Get(st.sessions, event.runId, None)
  }

  function Stamped(st: StoreState, event: AgentEvent): Envelope {
    Envelope(Get(st.sequences, event.runId, 0) + 1, event.runId, SessionFor(st, event), event)
  }

  function Appended(st: StoreState, event: AgentEvent): StoreState {
    var run := event.runId;
    StoreState(
      st.events[run := Get(st.events, run, []) + [Stamped(st, event)]],
      st.sequences[run := Get(st.sequences, run, 0) + 1],
      if event.RunStarted? then st.sessions[run := Some(event.sessionId)] else st.sessions)
  }

  function After(log: seq<Envelope>, afterSeq: Option<nat>): seq<Envelope> {
    if log == [] then []
    else
      After(log[..|log| - 1], afterSeq) +
      (if afterSeq.None? || log[|log| - 1].sequence > afterSeq.value then [log[|log| - 1]] else [])
  }

  function Take(log: seq<Envelope>, limit: nat): seq<Envelope> {
    if |log| <= limit then log else log[..limit]
  }

  function Log(st: StoreState, run: RunId): seq<Envelope> {
    Get(st.events, run, [])
  }

  class MemoryRuntimeEventStore {
    var events: map<RunId, seq<Envelope>>
    var sequences: map<RunId, nat>
    var sessions: map<RunId, Option<SessionId>>

    ghost function Value(): StoreState
      reads this
    {
      StoreState(events, sequences, sessions)
    }

    constructor ()
      ensures Value() == EMPTY_STORE
    {
      events, sequences, sessions := map[], map[], map[];
    }

    method Append(event: AgentEvent) returns (envelope: Envelope)
      modifies this
      ensures envelope == Stamped(old(Value()), event)
      ensures Value() == Appended(old(Value()), event)
    {
      var run := event.runId;
      var sessionId: Option<SessionId>;
      if event.RunStarted? {
        sessions := sessions[run := Some(event.sessionId)];
        sessionId := Some(event.sessionId);
      } else {
        sessionId := if run in sessions then sessions[run] else None;
      }
      var nextSeq := (if run in sequences then sequences[run] else 0) + 1;
      sequences := sequences[run := nextSeq];
      envelope := Envelope(nextSeq, run, sessionId, event);
      events := events[run := (if run in events then events[run] else []) + [envelope]];
    }

    method ListAfter(run: RunId, afterSeq: Option<nat>, limit: nat) returns (page: seq<Envelope>)
      ensures page == Take(After(Log(Value(), run), afterSeq), limit)
    {
      if run !in events {
        return [];
      }
      page := Take(After(events[run], afterSeq), limit);
    }
  }

  // ---- What the log of a run is ----

  function AppendAll(events: seq<AgentEvent>): StoreState {
    if events == [] then EMPTY_STORE else Appended(AppendAll(events[..|events| - 1]), events[|events| - 1])
  }

  /** The events of one run, in order. */
  ghost function OfRun(events: seq<AgentEvent>, run: RunId): seq<AgentEvent> {
    if events == [] then []
    else
      OfRun(events[..|events| - 1], run) +
      (if events[|events| - 1].runId == run then [events[|events| - 1]] else [])
  }

  /** The session of the last start among these events. */
  ghost function LatestSession(events: seq<AgentEvent>): Option<SessionId> {
    if events == [] then None
    else
      var last := events[|events| - 1];
      if last.RunStarted? then Some(last.sessionId) else LatestSession(events[..|events| - 1])
  }

  /** The envelopes a run's own events must get. */
  ghost function Numbered(own: seq<AgentEvent>, run: RunId): (log: seq<Envelope>)
    ensures |log| == |own|
    ensures forall k :: 0 <= k < |log| ==>
      log[k].sequence == k + 1 && log[k].runId == run && log[k].event == own[k]
  {
    if own == [] then []
    else
      Numbered(own[..|own| - 1], run) + [Envelope(|own|, run, LatestSession(own), own[|own| - 1])]
  }

  lemma AppendedAt(st: StoreState, event: AgentEvent, run: RunId)
    ensures var t, own := Appended(st, event), event.runId == run;
      && Log(t, run) == (if own then Log(st, run) + [Stamped(st, event)] else Log(st, run))
      && Get(t.sequences, run, 0) == Get(st.sequences, run, 0) + (if own then 1 else 0)
      && Get(t.sessions, run, None) == (if own then SessionFor(st, event) else Get(st.sessions, run, None))
  {
  }

  lemma NumberedSnoc(own: seq<AgentEvent>, event: AgentEvent, run: RunId)
    ensures var all := own + [event];
      && Numbered(all, run) == Numbered(own, run) + [Envelope(|own| + 1, run, LatestSession(all), event)]
      && LatestSession(all) == if event.RunStarted? then Some(event.sessionId) else LatestSession(own)
  {
    assert (own + [event])[..|own|] == own;
  }

  /** The store holds exactly the run's own events. */
  ghost predicate Holds(st: StoreState, own: seq<AgentEvent>, run: RunId) {
    && Log(st, run) == Numbered(own, run)
    && Get(st.sequences, run, 0) == |own|
    && Get(st.sessions, run, None) == LatestSession(own)
  }

  lemma {:induction false} AppendedHolds(st: StoreState, own: seq<AgentEvent>, event: AgentEvent, run: RunId)
    requires Holds(st, own, run)
    ensures Holds(Appended(st, event), if event.runId == run then own + [event] else own, run)
  {
    AppendedAt(st, event, run);
    if event.runId == run {
      NumberedSnoc(own, event, run);
      assert Stamped(st, event).sessionId == LatestSession(own + [event]);
    }
  }

  /** However appends to different runs interleave, the log of a run holds exactly its
      own events, numbered 1, 2, 3 and so on without gaps, each with the session of the
      run's latest start. */
  lemma {:induction false} LogOfRun(events: seq<AgentEvent>, run: RunId)
    ensures Holds(AppendAll(events), OfRun(events, run), run)
  {
    if events != [] {
      var front, event := events[..|events| - 1], events[|events| - 1];
      LogOfRun(front, run);
      AppendedHolds(AppendAll(front), OfRun(front, run), event, run);
      assert OfRun(events, run) == if event.runId == run then OfRun(front, run) + [event] else OfRun(front, run);
    }
  }

  /** Each envelope carries the session of the latest start up to its own event. */
  lemma {:induction false} NumberedSessions(own: seq<AgentEvent>, run: RunId, k: nat)
    requires k < |own|
    ensures Numbered(own, run)[k].sessionId == LatestSession(own[..k + 1])
  {
    var n := |own| - 1;
    if k < n {
      NumberedSessions(own[..n], run, k);
      assert own[..n][..k + 1] == own[..k + 1];
    } else {
      assert own[..k + 1] == own;
    }
  }

  // ---- Paging ----

  /** Numbered 1, 2, 3 and so on. */
  ghost predicate Gapless(log: seq<Envelope>) {
    forall k :: 0 <= k < |log| ==> log[k].sequence == k + 1
  }

  lemma {:induction false} AfterNumbered(log: seq<Envelope>, seen: nat)
    requires Gapless(log)
    ensures After(log, Some(seen)) == if seen <= |log| then log[seen..] else []
  {
    if log != [] {
      AfterNumbered(log[..|log| - 1], seen);
    }
  }

  lemma {:induction false} AfterNothing(log: seq<Envelope>)
    ensures After(log, None) == log
  {
    if log != [] {
      AfterNothing(log[..|log| - 1]);
    }
  }

  /** A consumer of one run pages through its log while anybody appends. */
  datatype Op = Append(event: AgentEvent) | Page(limit: nat)

  datatype Progress = Progress(appended: seq<AgentEvent>, received: seq<Envelope>, lastPage: seq<Envelope>)

  /** The consumer asks for what follows the last sequence number it saw. */
  function Cursor(received: seq<Envelope>): Option<nat> {
    if received == [] then None else Some(received[|received| - 1].sequence)
  }

  function Act(p: Progress, op: Op, run: RunId): Progress {
    match op
    case Append(event) => p.(appended := p.appended + [event])
    case Page(limit) =>
      var page := Take(After(Log(AppendAll(p.appended), run), Cursor(p.received)), limit);
      p.(received := p.received + page, lastPage := page)
  }

  function ActAll(ops: seq<Op>, run: RunId): Progress {
    if ops == [] then Progress([], [], []) else Act(ActAll(ops[..|ops| - 1], run), ops[|ops| - 1], run)
  }

  ghost predicate InStep(p: Progress, run: RunId) {
    var log := Log(AppendAll(p.appended), run);
    |p.received| <= |log| && p.received == log[..|p.received|]
  }

  /** A consumer in step asks for exactly what it has not seen. */
  lemma {:induction false} CursorIsRight(p: Progress, run: RunId)
    requires InStep(p, run)
    ensures var log := Log(AppendAll(p.appended), run);
      After(log, Cursor(p.received)) == log[|p.received|..]
  {
    var own := OfRun(p.appended, run);
    LogOfRun(p.appended, run);
    if p.received == [] {
      AfterNothing(Numbered(own, run));
    } else {
      AfterNumbered(Numbered(own, run), |p.received|);
    }
  }

  lemma TakeFrom(log: seq<Envelope>, seen: nat, limit: nat)
    requires seen <= |log|
    ensures Take(log[seen..], limit) == log[seen..Min(seen + limit, |log|)]
    ensures log[..seen] + Take(log[seen..], limit) == log[..Min(seen + limit, |log|)]
  {
  }

  /** One page moves the consumer forward by the limit, or to the end of the log. */
  lemma {:induction false} PageAdvances(p: Progress, limit: nat, run: RunId)
    requires InStep(p, run)
    ensures var log, q := Log(AppendAll(p.appended), run), Act(p, Page(limit), run);
      && q.appended == p.appended
      && InStep(q, run) && |q.received| == Min(|p.received| + limit, |log|)
      && q.lastPage == q.received[|p.received|..]
  {
    CursorIsRight(p, run);
    TakeFrom(Log(AppendAll(p.appended), run), |p.received|, limit);
  }

  lemma {:induction false} AppendKeepsStep(p: Progress, event: AgentEvent, run: RunId)
    requires InStep(p, run)
    ensures InStep(Act(p, Append(event), run), run)
  {
    assert (p.appended + [event])[..|p.appended|] == p.appended;
    AppendedAt(AppendAll(p.appended), event, run);
  }

  /** Under every interleaving of appends and pages, what the consumer has received is
      a prefix of the run's log: every event once, in order, none skipped. */
  lemma {:induction false} PagingIsExact(ops: seq<Op>, run: RunId)
    ensures InStep(ActAll(ops, run), run)
  {
    if ops == [] {
      LogOfRun([], run);
    } else {
      var front, op := ops[..|ops| - 1], ops[|ops| - 1];
      PagingIsExact(front, run);
      match op {
        case Append(event) => AppendKeepsStep(ActAll(front, run), event, run);
        case Page(limit) => PageAdvances(ActAll(front, run), limit, run);
      }
    }
  }

  /** A page of positive limit is empty exactly when the consumer has everything. */
  lemma {:induction false} EmptyPageMeansDone(ops: seq<Op>, limit: nat, run: RunId)
    requires limit >= 1
    ensures var p := ActAll(ops, run);
      Act(p, Page(limit), run).lastPage == [] <==> p.received == Log(AppendAll(p.appended), run)
  {
    PagingIsExact(ops, run);
    PageAdvances(ActAll(ops, run), limit, run);
  }

  ghost function Pages(p: Progress, count: nat, limit: nat, run: RunId): Progress {
    if count == 0 then p else Act(Pages(p, count - 1, limit, run), Page(limit), run)
  }

  ghost predicate AtLeast(p: Progress, count: nat, run: RunId) {
    InStep(p, run) && |p.received| >= Min(count, |Log(AppendAll(p.appended), run)|)
  }

  lemma {:induction false} PageGains(p: Progress, count: nat, limit: nat, run: RunId)
    requires limit >= 1 && AtLeast(p, count, run)
    ensures AtLeast(Act(p, Page(limit), run), count + 1, run)
  {
    PageAdvances(p, limit, run);
  }

  lemma {:induction false} PagesAdvance(p: Progress, count: nat, limit: nat, run: RunId)
    requires limit >= 1 && InStep(p, run)
    ensures AtLeast(Pages(p, count, limit, run), |p.received| + count, run)
  {
    if count > 0 {
      PagesAdvance(p, count - 1, limit, run);
      PageGains(Pages(p, count - 1, limit, run), |p.received| + count - 1, limit, run);
    }
  }

  lemma {:induction false} PagesAppendNothing(p: Progress, count: nat, limit: nat, run: RunId)
    ensures Pages(p, count, limit, run).appended == p.appended
  {
    if count > 0 {
      PagesAppendNothing(p, count - 1, limit, run);
    }
  }

  /** And it gets everything: as many pages as events are missing always suffice. */
  lemma {:induction false} PagingFinishes(ops: seq<Op>, count: nat, limit: nat, run: RunId)
    requires limit >= 1
    requires var p := ActAll(ops, run);
      |p.received| + count >= |Log(AppendAll(p.appended), run)|
    ensures var p := ActAll(ops, run);
      Pages(p, count, limit, run).received == Log(AppendAll(p.appended), run)
  {
    PagingIsExact(ops, run);
    PagesAdvance(ActAll(ops, run), count, limit, run);
    PagesAppendNothing(ActAll(ops, run), count, limit, run);
  }
}
