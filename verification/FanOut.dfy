/** Fan-out under concurrency: creating a child is two loads and two additions on
    shared counters, and the steps of several calls interleave with each other and
    with drops in every possible order. */
module FanOut {
  import opened Prelude
  import opened SubEngine

  /** How far a call has come: depth checked, live count read and below its limit,
      total read and below its limit, live count raised, total raised. */
  datatype Phase = Begun | SawLive | SawTotal | AddedLive | AddedTotal

  datatype Call = Call(parent: nat, phase: Phase)

  datatype EngineInfo = EngineInfo(depth: u32, dropped: bool)

  /** Engine 0 is the root. */
  datatype System = System(live: int, total: int, engines: map<nat, EngineInfo>, calls: map<nat, Call>)

  datatype Action =
    | Begin(call: nat, parent: nat)
    | LoadLive(call: nat)
    | LoadTotal(call: nat)
    | AddLive(call: nat)
    | AddTotal(call: nat)
    | Return(call: nat, child: nat)
    | DropEngine(engine: nat)

  const ROOT := EngineInfo(0, false)
  const INITIAL := System(0, 0, map[0 := ROOT], map[])

  function Advance(s: System, call: nat, phase: Phase): System
    requires call in s.calls
  {
    s.(calls := s.calls[call := s.calls[call].(phase := phase)])
  }

  function End(s: System, call: nat): System {
    s.(calls := s.calls - {call})
  }

  predicate At(s: System, call: nat, phase: Phase) {
    call in s.calls && s.calls[call].phase == phase
  }

  /** One atomic step; `None` if the action is not possible. At most `n` calls are in
      flight across the tree. A drop need not wait for the engine's own calls, which
      allows more schedules than the language does. */
  function Next(s: System, a: Action, b: SubagentBounds, n: nat): Option<System> {
    match a
    case Begin(call, parent) =>
      if call in s.calls || parent !in s.engines || s.engines[parent].dropped || |s.calls| >= n then None
      else if s.engines[parent].depth >= b.maxChildDepth then Some(s)
      else Some(s.(calls := s.calls[call := Call(parent, Begun)]))
    case LoadLive(call) =>
      if !At(s, call, Begun) then None
      else if s.live >= b.maxLiveChildren then Some(End(s, call))
      else Some(Advance(s, call, SawLive))
    case LoadTotal(call) =>
      if !At(s, call, SawLive) then None
      else if s.total >= b.maxTotalDescendants then Some(End(s, call))
      else Some(Advance(s, call, SawTotal))
    case AddLive(call) =>
      if !At(s, call, SawTotal) then None
      else Some(Advance(s, call, AddedLive).(live := s.live + 1))
    case AddTotal(call) =>
      if !At(s, call, AddedLive) then None
      else Some(Advance(s, call, AddedTotal).(total := s.total + 1))
    case Return(call, child) =>
      if !At(s, call, AddedTotal) || child in s.engines || s.calls[call].parent !in s.engines
         || s.engines[s.calls[call].parent].depth == U32_MAX then None
      else
        var depth := s.engines[s.calls[call].parent].depth + 1;
        Some(End(s, call).(engines := s.engines[child := EngineInfo(depth, false)]))
    case DropEngine(engine) =>
      if engine !in s.engines || s.engines[engine].dropped then None
      else
        var info := s.engines[engine];
        Some(s.(engines := s.engines[engine := info.(dropped := true)],
                live := if info.depth > 0 then s.live - 1 else s.live))
  }

  /** Every schedule, from the root alone. */
  function Run(schedule: seq<Action>, b: SubagentBounds, n: nat): Option<System> {
    if schedule == [] then Some(INITIAL)
    else
      var before := Run(schedule[..|schedule| - 1], b, n);
      if before.None? then None else Next(before.value, schedule[|schedule| - 1], b, n)
  }

  // ---- Counting ----

  ghost function InPhase(calls: map<nat, Call>, phases: set<Phase>): set<nat> {
    set c | c in calls && calls[c].phase in phases
  }

  ghost function Undropped(engines: map<nat, EngineInfo>): set<nat> {
    set e | e in engines && engines[e].depth > 0 && !engines[e].dropped
  }

  ghost function Descendants(engines: map<nat, EngineInfo>): set<nat> {
    set e | e in engines && engines[e].depth > 0
  }

  /** What every reachable state satisfies: the counters count engines and calls,
      and calls past a check leave room below the limit. */
  ghost predicate Inv(s: System, b: SubagentBounds, n: nat) {
    && s.live == |Undropped(s.engines)| + |InPhase(s.calls, {AddedLive, AddedTotal})|
    && s.total == |Descendants(s.engines)| + |InPhase(s.calls, {AddedTotal})|
    && |s.calls| <= n
    && s.live + |InPhase(s.calls, {SawLive, SawTotal})| <= b.maxLiveChildren + n - 1
    && s.total + |InPhase(s.calls, {SawTotal, AddedLive})| <= b.maxTotalDescendants + n - 1
    && (forall e :: e in s.engines ==> s.engines[e].depth <= b.maxChildDepth)
    && (forall c :: c in s.calls ==>
          s.calls[c].parent in s.engines && s.engines[s.calls[c].parent].depth < b.maxChildDepth)
  }

  function One(b: bool): nat {
    if b then 1 else 0
  }

  lemma {:induction false} PhaseSize(calls: map<nat, Call>, phases: set<Phase>)
    ensures |InPhase(calls, phases)| <= |calls|
  {
    var part := InPhase(calls, phases);
    assert part <= calls.Keys;
    assert calls.Keys == part + (calls.Keys - part);
  }

  lemma SizeWithout(s: set<nat>, x: nat)
    ensures |s - {x}| == |s| - One(x in s)
  {
  }

  lemma OthersUnmoved(calls: map<nat, Call>, c: nat, call: Call, phases: set<Phase>)
    ensures InPhase(calls[c := call], phases) - {c} == InPhase(calls, phases) - {c}
  {
  }

  lemma {:induction false} PutCall(calls: map<nat, Call>, c: nat, call: Call, phases: set<Phase>)
    ensures |InPhase(calls[c := call], phases)|
         == |InPhase(calls, phases)| - One(c in calls && calls[c].phase in phases) + One(call.phase in phases)
  {
    SizeWithout(InPhase(calls, phases), c);
    SizeWithout(InPhase(calls[c := call], phases), c);
    OthersUnmoved(calls, c, call, phases);
  }

  lemma {:induction false} EndCall(calls: map<nat, Call>, c: nat, phases: set<Phase>)
    requires c in calls
    ensures |InPhase(calls - {c}, phases)| == |InPhase(calls, phases)| - One(calls[c].phase in phases)
    ensures |calls - {c}| == |calls| - 1
  {
    SizeWithout(InPhase(calls, phases), c);
    assert InPhase(calls - {c}, phases) == InPhase(calls, phases) - {c};
    assert (calls - {c}).Keys == calls.Keys - {c};
  }

  lemma {:induction false} MoveCall(s: System, c: nat, phase: Phase)
    requires c in s.calls
    ensures |Advance(s, c, phase).calls| == |s.calls|
    ensures Advance(s, c, phase).calls.Keys == s.calls.Keys
  {
    assert Advance(s, c, phase).calls.Keys == s.calls.Keys;
  }

  ghost predicate Counted(s: System, t: System, c: nat, from: Phase, to: Phase, phases: set<Phase>) {
    |InPhase(t.calls, phases)| == |InPhase(s.calls, phases)| - One(from in phases) + One(to in phases)
  }

  /** A call that moves on changes the four counts the invariant uses accordingly. */
  lemma {:induction false} MoveCounts(s: System, c: nat, from: Phase, to: Phase)
    requires At(s, c, from)
    ensures var t := Advance(s, c, to);
      && |t.calls| == |s.calls|
      && Counted(s, t, c, from, to, {AddedLive, AddedTotal}) && Counted(s, t, c, from, to, {AddedTotal})
      && Counted(s, t, c, from, to, {SawLive, SawTotal}) && Counted(s, t, c, from, to, {SawTotal, AddedLive})
  {
    MoveCall(s, c, to);
    var call := s.calls[c].(phase := to);
    PutCall(s.calls, c, call, {AddedLive, AddedTotal});
    PutCall(s.calls, c, call, {AddedTotal});
    PutCall(s.calls, c, call, {SawLive, SawTotal});
    PutCall(s.calls, c, call, {SawTotal, AddedLive});
  }

  ghost predicate Left(s: System, t: System, from: Phase, phases: set<Phase>) {
    |InPhase(t.calls, phases)| == |InPhase(s.calls, phases)| - One(from in phases)
  }

  lemma {:induction false} EndCounts(s: System, c: nat, from: Phase)
    requires At(s, c, from)
    ensures var t := End(s, c);
      && |t.calls| == |s.calls| - 1
      && Left(s, t, from, {AddedLive, AddedTotal}) && Left(s, t, from, {AddedTotal})
      && Left(s, t, from, {SawLive, SawTotal}) && Left(s, t, from, {SawTotal, AddedLive})
  {
    EndCall(s.calls, c, {AddedLive, AddedTotal});
    EndCall(s.calls, c, {AddedTotal});
    EndCall(s.calls, c, {SawLive, SawTotal});
    EndCall(s.calls, c, {SawTotal, AddedLive});
  }

  // ---- Every step keeps the invariant ----

  lemma {:induction false} BeginKeeps(s: System, call: nat, parent: nat, b: SubagentBounds, n: nat)
    requires Inv(s, b, n) && Next(s, Begin(call, parent), b, n).Some?
    ensures Inv(Next(s, Begin(call, parent), b, n).value, b, n)
  {
    var begun := Call(parent, Begun);
    assert s.calls[call := begun].Keys == s.calls.Keys + {call};
    PutCall(s.calls, call, begun, {AddedLive, AddedTotal});
    PutCall(s.calls, call, begun, {AddedTotal});
    PutCall(s.calls, call, begun, {SawLive, SawTotal});
    PutCall(s.calls, call, begun, {SawTotal, AddedLive});
  }

  lemma {:induction false} LoadsKeep(s: System, call: nat, from: Phase, to: Phase, b: SubagentBounds, n: nat)
    requires Inv(s, b, n) && At(s, call, from)
    requires (from == Begun && to == SawLive) || (from == SawLive && to == SawTotal)
    ensures Inv(End(s, call), b, n)
    ensures from == Begun && s.live < b.maxLiveChildren ==> Inv(Advance(s, call, to), b, n)
    ensures from == SawLive && s.total < b.maxTotalDescendants ==> Inv(Advance(s, call, to), b, n)
  {
    EndCounts(s, call, from);
    MoveCounts(s, call, from, to);
    var t := Advance(s, call, to);
    PhaseSize(t.calls, {SawLive, SawTotal});
    PhaseSize(t.calls, {SawTotal, AddedLive});
  }

  lemma {:induction false} AddsKeep(s: System, call: nat, b: SubagentBounds, n: nat)
    requires Inv(s, b, n) && call in s.calls
    ensures At(s, call, SawTotal) ==> Inv(Advance(s, call, AddedLive).(live := s.live + 1), b, n)
    ensures At(s, call, AddedLive) ==> Inv(Advance(s, call, AddedTotal).(total := s.total + 1), b, n)
  {
    if At(s, call, SawTotal) {
      MoveCounts(s, call, SawTotal, AddedLive);
    }
    if At(s, call, AddedLive) {
      MoveCounts(s, call, AddedLive, AddedTotal);
    }
  }

  lemma {:induction false} ReturnKeeps(s: System, call: nat, child: nat, b: SubagentBounds, n: nat)
    requires Inv(s, b, n) && Next(s, Return(call, child), b, n).Some?
    ensures Inv(Next(s, Return(call, child), b, n).value, b, n)
  {
    var t := Next(s, Return(call, child), b, n).value;
    EndCounts(s, call, AddedTotal);
    assert Undropped(t.engines) == Undropped(s.engines) + {child};
    assert Descendants(t.engines) == Descendants(s.engines) + {child};
  }

  lemma {:induction false} DropKeeps(s: System, engine: nat, b: SubagentBounds, n: nat)
    requires Inv(s, b, n) && Next(s, DropEngine(engine), b, n).Some?
    ensures Inv(Next(s, DropEngine(engine), b, n).value, b, n)
    ensures s.engines[engine].depth > 0 ==> s.live >= 1
  {
    var t := Next(s, DropEngine(engine), b, n).value;
    if s.engines[engine].depth > 0 {
      assert engine in Undropped(s.engines);
      assert Undropped(t.engines) == Undropped(s.engines) - {engine};
    } else {
      assert Undropped(t.engines) == Undropped(s.engines);
    }
    assert Descendants(t.engines) == Descendants(s.engines);
  }

  lemma {:induction false} StepKeepsInv(s: System, a: Action, b: SubagentBounds, n: nat)
    requires Inv(s, b, n) && Next(s, a, b, n).Some?
    ensures Inv(Next(s, a, b, n).value, b, n)
  {
    match a {
      case Begin(call, parent) => BeginKeeps(s, call, parent, b, n);
      case LoadLive(call) => LoadsKeep(s, call, Begun, SawLive, b, n);
      case LoadTotal(call) => LoadsKeep(s, call, SawLive, SawTotal, b, n);
      case AddLive(call) => AddsKeep(s, call, b, n);
      case AddTotal(call) => AddsKeep(s, call, b, n);
      case Return(call, child) => ReturnKeeps(s, call, child, b, n);
      case DropEngine(engine) => DropKeeps(s, engine, b, n);
    }
  }

  lemma {:induction false} RunKeepsInv(schedule: seq<Action>, b: SubagentBounds, n: nat)
    requires n >= 1 && Run(schedule, b, n).Some?
    ensures Inv(Run(schedule, b, n).value, b, n)
  {
    if schedule == [] {
      assert Undropped(INITIAL.engines) == {} && Descendants(INITIAL.engines) == {};
    } else {
      RunKeepsInv(schedule[..|schedule| - 1], b, n);
      StepKeepsInv(Run(schedule[..|schedule| - 1], b, n).value, schedule[|schedule| - 1], b, n);
    }
  }

  // ---- The theorems ----

  /** Calls that raised only the live counter, and those that raised both. */
  lemma PhasesSplit(calls: map<nat, Call>)
    ensures |InPhase(calls, {AddedLive, AddedTotal})| == |InPhase(calls, {AddedLive})| + |InPhase(calls, {AddedTotal})|
    ensures |InPhase(calls, {SawTotal, AddedLive})| >= |InPhase(calls, {AddedLive})|
  {
    var live, total := InPhase(calls, {AddedLive}), InPhase(calls, {AddedTotal});
    assert InPhase(calls, {AddedLive, AddedTotal}) == live + total && live !! total;
    SubsetSize(live, InPhase(calls, {SawTotal, AddedLive}));
  }

  /** Under every schedule with at most `n` calls in flight no counter goes below zero,
      the total stays below its limit plus `n`, the live count below the smaller of both
      limits plus `n`, and the depth limit is exact. With one call at a time all limits
      are. */
  lemma {:induction false} FanOutBound(schedule: seq<Action>, b: SubagentBounds, n: nat)
    requires n >= 1 && Run(schedule, b, n).Some?
    ensures var s := Run(schedule, b, n).value;
      && 0 <= s.live <= Min(b.maxLiveChildren, b.maxTotalDescendants) + n - 1
      && 0 <= s.total <= b.maxTotalDescendants + n - 1
      && (forall e :: e in s.engines ==> s.engines[e].depth <= b.maxChildDepth)
  {
    RunKeepsInv(schedule, b, n);
    var s := Run(schedule, b, n).value;
    PhasesSplit(s.calls);
    SubsetSize(Undropped(s.engines), Descendants(s.engines));
  }

  /** No drop underflows, in whatever order engines are dropped, parents before
      children included. */
  lemma {:induction false} DropsNeverUnderflow(schedule: seq<Action>, b: SubagentBounds, n: nat, engine: nat)
    requires n >= 1 && Run(schedule, b, n).Some?
    requires Next(Run(schedule, b, n).value, DropEngine(engine), b, n).Some?
    requires Run(schedule, b, n).value.engines[engine].depth > 0
    ensures Run(schedule, b, n).value.live >= 1
  {
    RunKeepsInv(schedule, b, n);
    DropKeeps(Run(schedule, b, n).value, engine, b, n);
  }

  /** With nothing in flight the live counter is the number of undropped engines
      below the root, and the total the number ever created. */
  lemma {:induction false} QuiescentCounts(schedule: seq<Action>, b: SubagentBounds, n: nat)
    requires n >= 1 && Run(schedule, b, n).Some? && Run(schedule, b, n).value.calls == map[]
    ensures var s := Run(schedule, b, n).value;
      s.live == |Undropped(s.engines)| && s.total == |Descendants(s.engines)|
  {
    RunKeepsInv(schedule, b, n);
    var s := Run(schedule, b, n).value;
    assert InPhase(s.calls, {AddedLive, AddedTotal}) == {} && InPhase(s.calls, {AddedTotal}) == {};
  }

  ghost function RunFrom(s: System, actions: seq<Action>, b: SubagentBounds, n: nat): Option<System> {
    if actions == [] then Some(s)
    else
      var before := RunFrom(s, actions[..|actions| - 1], b, n);
      if before.None? then None else Next(before.value, actions[|actions| - 1], b, n)
  }

  lemma {:induction false} RunFromOne(s: System, a: Action, b: SubagentBounds, n: nat)
    ensures RunFrom(s, [a], b, n) == Next(s, a, b, n)
  {
    assert [a][..0] == [];
  }

  lemma {:induction false} RunFromAppend(s: System, x: seq<Action>, y: seq<Action>, b: SubagentBounds, n: nat)
    requires RunFrom(s, x, b, n).Some?
    ensures RunFrom(s, x + y, b, n) == RunFrom(RunFrom(s, x, b, n).value, y, b, n)
    decreases |y|
  {
    if y == [] {
      assert x + y == x;
    } else {
      assert (x + y)[..|x + y| - 1] == x + y[..|y| - 1];
      RunFromAppend(s, x, y[..|y| - 1], b, n);
    }
  }

  lemma {:induction false} RunIsRunFrom(schedule: seq<Action>, b: SubagentBounds, n: nat)
    ensures Run(schedule, b, n) == RunFrom(INITIAL, schedule, b, n)
  {
    if schedule != [] {
      RunIsRunFrom(schedule[..|schedule| - 1], b, n);
    }
  }

  // ---- The bounds are reached ----

  /** The root and children `1..k`, all alive or all dropped. */
  ghost function Kids(k: nat, dropped: bool): (engines: map<nat, EngineInfo>)
    ensures forall e :: e in engines <==> 0 <= e <= k
    ensures engines[0] == ROOT
    ensures k > 0 ==> engines[k] == EngineInfo(1, dropped)
  {
    if k == 0 then map[0 := ROOT] else Kids(k - 1, dropped)[k := EngineInfo(1, dropped)]
  }

  /** All children alive. */
  ghost function Family(k: nat): System {
    System(k, k, Kids(k, false), map[])
  }

  /** All children dropped: only the total remembers them. */
  ghost function Departed(k: nat): System {
    System(0, k, Kids(k, true), map[])
  }

  /** Calls `0..m`, all past both checks. */
  ghost function WaitingCalls(m: nat): (calls: map<nat, Call>)
    ensures forall c :: c in calls <==> 0 <= c < m
    ensures forall c :: 0 <= c < m ==> calls[c] == Call(0, SawTotal)
    ensures |calls| == m
  {
    if m == 0 then map[] else WaitingCalls(m - 1)[m - 1 := Call(0, SawTotal)]
  }

  /** The first `done` of them have raised both counters. */
  ghost function DoneCalls(m: nat, done: nat): (calls: map<nat, Call>)
    requires done <= m
    ensures forall c :: c in calls <==> 0 <= c < m
    ensures forall c :: done <= c < m ==> calls[c] == Call(0, SawTotal)
  {
    if done == 0 then WaitingCalls(m) else DoneCalls(m, done - 1)[done - 1 := Call(0, AddedTotal)]
  }

  /** A quiet tree with `m` calls of the root added, `done` of them through. */
  ghost function Crowded(quiet: System, m: nat, done: nat): System
    requires done <= m
  {
    System(quiet.live + done, quiet.total + done, quiet.engines, DoneCalls(m, done))
  }

  /** Nothing in flight, and the root may have one more child. */
  ghost predicate HasRoom(s: System, b: SubagentBounds) {
    && s.calls == map[] && 0 in s.engines && s.engines[0] == ROOT
    && b.maxChildDepth >= 1 && s.live < b.maxLiveChildren && s.total < b.maxTotalDescendants
  }

  lemma {:induction false} RunFromSnoc(s: System, x: seq<Action>, t: System, a: Action, b: SubagentBounds, n: nat)
    requires RunFrom(s, x, b, n) == Some(t)
    ensures RunFrom(s, x + [a], b, n) == Next(t, a, b, n)
  {
    RunFromAppend(s, x, [a], b, n);
    RunFromOne(t, a, b, n);
  }

  lemma Overwrite(calls: map<nat, Call>, c: nat, x: Call, y: Call)
    ensures calls[c := x][c := y] == calls[c := y]
    ensures c !in calls ==> calls[c := x] - {c} == calls
  {
  }

  ghost function With(s: System, c: nat, parent: nat, phase: Phase): System {
    s.(calls := s.calls[c := Call(parent, phase)])
  }

  lemma {:induction false} Advanced(s: System, c: nat, parent: nat, from: Phase, to: Phase)
    requires c !in s.calls
    ensures Advance(With(s, c, parent, from), c, to) == With(s, c, parent, to)
    ensures End(With(s, c, parent, from), c) == s
  {
    Overwrite(s.calls, c, Call(parent, from), Call(parent, to));
  }

  /** A call by an engine that may have children. */
  ghost predicate CanBegin(s: System, c: nat, parent: nat, b: SubagentBounds, n: nat) {
    && c !in s.calls && parent in s.engines && !s.engines[parent].dropped
    && |s.calls| < n && s.engines[parent].depth < b.maxChildDepth
  }

  lemma {:induction false} LiveCheck(s: System, c: nat, parent: nat, b: SubagentBounds, n: nat)
    requires CanBegin(s, c, parent, b, n)
    ensures RunFrom(s, [Begin(c, parent), LoadLive(c)], b, n)
         == Some(if s.live < b.maxLiveChildren then With(s, c, parent, SawLive) else s)
  {
    RunFromOne(s, Begin(c, parent), b, n);
    RunFromSnoc(s, [Begin(c, parent)], With(s, c, parent, Begun), LoadLive(c), b, n);
    assert [Begin(c, parent)] + [LoadLive(c)] == [Begin(c, parent), LoadLive(c)];
    Advanced(s, c, parent, Begun, SawLive);
  }

  lemma {:induction false} TotalCheck(s: System, c: nat, parent: nat, b: SubagentBounds, n: nat)
    requires CanBegin(s, c, parent, b, n) && s.live < b.maxLiveChildren
    ensures RunFrom(s, [Begin(c, parent), LoadLive(c), LoadTotal(c)], b, n)
         == Some(if s.total < b.maxTotalDescendants then With(s, c, parent, SawTotal) else s)
  {
    LiveCheck(s, c, parent, b, n);
    RunFromSnoc(s, [Begin(c, parent), LoadLive(c)], With(s, c, parent, SawLive), LoadTotal(c), b, n);
    assert [Begin(c, parent), LoadLive(c)] + [LoadTotal(c)] == [Begin(c, parent), LoadLive(c), LoadTotal(c)];
    Advanced(s, c, parent, SawLive, SawTotal);
  }

  ghost function Raised(s: System): System {
    s.(live := s.live + 1, total := s.total + 1)
  }

  lemma {:induction false} BothAdditions(s: System, c: nat, b: SubagentBounds, n: nat)
    requires At(s, c, SawTotal)
    ensures RunFrom(s, [AddLive(c), AddTotal(c)], b, n) == Some(Raised(Advance(s, c, AddedTotal)))
  {
    var s1 := Advance(s, c, AddedLive).(live := s.live + 1);
    RunFromOne(s, AddLive(c), b, n);
    RunFromSnoc(s, [AddLive(c)], s1, AddTotal(c), b, n);
    assert [AddLive(c)] + [AddTotal(c)] == [AddLive(c), AddTotal(c)];
    Overwrite(s.calls, c, s1.calls[c], s.calls[c].(phase := AddedTotal));
  }

  lemma {:induction false} UpToTheAdditions(s: System, c: nat, parent: nat, b: SubagentBounds, n: nat)
    requires CanBegin(s, c, parent, b, n) && s.live < b.maxLiveChildren && s.total < b.maxTotalDescendants
    ensures RunFrom(s, [Begin(c, parent), LoadLive(c), LoadTotal(c)] + [AddLive(c), AddTotal(c)], b, n)
         == Some(Raised(With(s, c, parent, AddedTotal)))
  {
    TotalCheck(s, c, parent, b, n);
    RunFromAppend(s, [Begin(c, parent), LoadLive(c), LoadTotal(c)], [AddLive(c), AddTotal(c)], b, n);
    BothAdditions(With(s, c, parent, SawTotal), c, b, n);
    Advanced(s, c, parent, SawTotal, AddedTotal);
  }

  lemma {:induction false} WholeCall(s: System, c: nat, parent: nat, child: nat, b: SubagentBounds, n: nat)
    requires CanBegin(s, c, parent, b, n) && child !in s.engines
    requires s.live < b.maxLiveChildren && s.total < b.maxTotalDescendants
    ensures RunFrom(s, CallSteps(c, parent, child, Admitted), b, n) ==
      Some(Raised(s).(engines := s.engines[child := EngineInfo(s.engines[parent].depth + 1, false)]))
  {
    var steps := [Begin(c, parent), LoadLive(c), LoadTotal(c)] + [AddLive(c), AddTotal(c)];
    UpToTheAdditions(s, c, parent, b, n);
    RunFromSnoc(s, steps, Raised(With(s, c, parent, AddedTotal)), Return(c, child), b, n);
    assert steps + [Return(c, child)] == CallSteps(c, parent, child, Admitted);
    Advanced(s, c, parent, AddedTotal, AddedTotal);
  }

  lemma {:induction false} Chain(
      s: System, x: seq<Action>, t: System, y: seq<Action>, u: System, b: SubagentBounds, n: nat)
    requires RunFrom(s, x, b, n) == Some(t) && RunFrom(t, y, b, n) == Some(u)
    ensures RunFrom(s, x + y, b, n) == Some(u)
  {
    RunFromAppend(s, x, y, b, n);
  }

  /** One more child of the root, alive. */
  ghost function WithChild(s: System, child: nat): System {
    System(s.live + 1, s.total + 1, s.engines[child := EngineInfo(1, false)], map[])
  }

  lemma {:induction false} OneMoreChild(s: System, child: nat, b: SubagentBounds, n: nat)
      returns (steps: seq<Action>)
    requires HasRoom(s, b) && child !in s.engines && n >= 1
    ensures RunFrom(s, steps, b, n) == Some(WithChild(s, child))
  {
    WholeCall(s, 0, 0, child, b, n);
    steps := CallSteps(0, 0, child, Admitted);
  }

  /** One more child of the root, already dropped. */
  ghost function WithDeparted(s: System, child: nat): System {
    System(s.live, s.total + 1, s.engines[child := EngineInfo(1, true)], map[])
  }

  lemma ChildDeparts(s: System, child: nat, b: SubagentBounds, n: nat)
    ensures Next(WithChild(s, child), DropEngine(child), b, n) == Some(WithDeparted(s, child))
  {
    var engines := WithChild(s, child).engines;
    assert engines[child := EngineInfo(1, true)] == s.engines[child := EngineInfo(1, true)];
  }

  lemma {:induction false} OneMoreDeparted(s: System, child: nat, b: SubagentBounds, n: nat)
      returns (steps: seq<Action>)
    requires HasRoom(s, b) && child !in s.engines && n >= 1
    ensures RunFrom(s, steps, b, n) == Some(WithDeparted(s, child))
  {
    var creation := OneMoreChild(s, child, b, n);
    ChildDeparts(s, child, b, n);
    RunFromSnoc(s, creation, WithChild(s, child), DropEngine(child), b, n);
    steps := creation + [DropEngine(child)];
  }

  /** Create `k` children one after the other. */
  lemma {:induction false} GrowFamily(k: nat, b: SubagentBounds, n: nat) returns (schedule: seq<Action>)
    requires n >= 1 && b.maxChildDepth >= 1 && k <= b.maxLiveChildren && k <= b.maxTotalDescendants
    ensures RunFrom(INITIAL, schedule, b, n) == Some(Family(k))
  {
    if k == 0 {
      schedule := [];
    } else {
      var before := GrowFamily(k - 1, b, n);
      var steps := OneMoreChild(Family(k - 1), k, b, n);
      Chain(INITIAL, before, Family(k - 1), steps, Family(k), b, n);
      schedule := before + steps;
    }
  }

  /** Create `k` children and drop each at once. */
  lemma {:induction false} LetDepart(k: nat, b: SubagentBounds, n: nat) returns (schedule: seq<Action>)
    requires n >= 1 && b.maxChildDepth >= 1 && 0 < b.maxLiveChildren && k <= b.maxTotalDescendants
    ensures RunFrom(INITIAL, schedule, b, n) == Some(Departed(k))
  {
    if k == 0 {
      schedule := [];
    } else {
      var before := LetDepart(k - 1, b, n);
      var steps := OneMoreDeparted(Departed(k - 1), k, b, n);
      Chain(INITIAL, before, Departed(k - 1), steps, Departed(k), b, n);
      schedule := before + steps;
    }
  }

  lemma {:induction false} OneWaits(quiet: System, c: nat, b: SubagentBounds, n: nat) returns (steps: seq<Action>)
    requires HasRoom(quiet, b) && c < n
    ensures RunFrom(Crowded(quiet, c, 0), steps, b, n) == Some(Crowded(quiet, c + 1, 0))
  {
    TotalCheck(Crowded(quiet, c, 0), c, 0, b, n);
    steps := [Begin(c, 0), LoadLive(c), LoadTotal(c)];
  }

  /** Let `m` calls of the root pass both checks. */
  lemma {:induction false} CallsPileUp(quiet: System, m: nat, b: SubagentBounds, n: nat)
      returns (schedule: seq<Action>)
    requires HasRoom(quiet, b) && m <= n
    ensures RunFrom(quiet, schedule, b, n) == Some(Crowded(quiet, m, 0))
  {
    if m == 0 {
      schedule := [];
    } else {
      var before := CallsPileUp(quiet, m - 1, b, n);
      var steps := OneWaits(quiet, m - 1, b, n);
      Chain(quiet, before, Crowded(quiet, m - 1, 0), steps, Crowded(quiet, m, 0), b, n);
      schedule := before + steps;
    }
  }

  lemma {:induction false} OneGoesThrough(
      start: System, before: seq<Action>, quiet: System, m: nat, done: nat, b: SubagentBounds, n: nat)
      returns (schedule: seq<Action>)
    requires done < m && RunFrom(start, before, b, n) == Some(Crowded(quiet, m, done))
    ensures RunFrom(start, schedule, b, n) == Some(Crowded(quiet, m, done + 1))
  {
    BothAdditions(Crowded(quiet, m, done), done, b, n);
    Chain(start, before, Crowded(quiet, m, done),
      [AddLive(done), AddTotal(done)], Crowded(quiet, m, done + 1), b, n);
    schedule := before + [AddLive(done), AddTotal(done)];
  }

  /** Let `done` of them raise both counters. */
  lemma {:induction false} CallsGoThrough(
      start: System, before: seq<Action>, quiet: System, m: nat, done: nat, b: SubagentBounds, n: nat)
      returns (schedule: seq<Action>)
    requires done <= m && RunFrom(start, before, b, n) == Some(Crowded(quiet, m, 0))
    ensures RunFrom(start, schedule, b, n) == Some(Crowded(quiet, m, done))
  {
    if done == 0 {
      schedule := before;
    } else {
      var most := CallsGoThrough(start, before, quiet, m, done - 1, b, n);
      schedule := OneGoesThrough(start, most, quiet, m, done - 1, b, n);
    }
  }

  /** From every quiet tree with room, `n` calls can overshoot together. */
  lemma {:induction false} AllOvershoot(before: seq<Action>, quiet: System, b: SubagentBounds, n: nat)
      returns (schedule: seq<Action>)
    requires RunFrom(INITIAL, before, b, n) == Some(quiet) && HasRoom(quiet, b)
    ensures Run(schedule, b, n) == Some(Crowded(quiet, n, n))
  {
    var pile := CallsPileUp(quiet, n, b, n);
    Chain(INITIAL, before, quiet, pile, Crowded(quiet, n, 0), b, n);
    schedule := CallsGoThrough(INITIAL, before + pile, quiet, n, n, b, n);
    RunIsRunFrom(schedule, b, n);
  }

  /** Bounds that allow any child at all. */
  predicate Admits(b: SubagentBounds) {
    b.maxChildDepth >= 1 && b.maxLiveChildren >= 1 && b.maxTotalDescendants >= 1
  }

  /** The live bound is the least one: a family just below the smaller limit, then `n`
      calls at once. */
  lemma {:induction false} LiveBoundIsReached(b: SubagentBounds, n: nat)
    requires n >= 1 && Admits(b)
    ensures exists schedule :: (
      && Run(schedule, b, n).Some?
      && Run(schedule, b, n).value.live == Min(b.maxLiveChildren, b.maxTotalDescendants) + n - 1)
  {
    var k := Min(b.maxLiveChildren, b.maxTotalDescendants) - 1;
    var before := GrowFamily(k, b, n);
    var schedule := AllOvershoot(before, Family(k), b, n);
  }

  /** So is the total bound, whatever the live limit: children come and go until one is
      left to create, then `n` calls at once. */
  lemma {:induction false} TotalBoundIsReached(b: SubagentBounds, n: nat)
    requires n >= 1 && Admits(b)
    ensures exists schedule :: (
      && Run(schedule, b, n).Some?
      && Run(schedule, b, n).value.total == b.maxTotalDescendants + n - 1)
  {
    var k := b.maxTotalDescendants - 1;
    var before := LetDepart(k, b, n);
    var schedule := AllOvershoot(before, Departed(k), b, n);
  }

  /** What stays true when a limit is zero: nobody gets past its check. */
  ghost predicate Barren(s: System, b: SubagentBounds) {
    && s.live == 0 && s.total == 0
    && (forall e :: e in s.engines ==> s.engines[e].depth == 0)
    && (forall c :: c in s.calls ==>
          && b.maxChildDepth > 0
          && (s.calls[c].phase == Begun || (s.calls[c].phase == SawLive && b.maxLiveChildren > 0)))
  }

  lemma {:induction false} StaysBarren(s: System, a: Action, b: SubagentBounds, n: nat)
    requires !Admits(b) && Barren(s, b) && Next(s, a, b, n).Some?
    ensures Barren(Next(s, a, b, n).value, b)
  {
  }

  lemma {:induction false} NothingIsCreated(schedule: seq<Action>, b: SubagentBounds, n: nat)
    requires !Admits(b) && Run(schedule, b, n).Some?
    ensures Barren(Run(schedule, b, n).value, b)
  {
    if schedule != [] {
      NothingIsCreated(schedule[..|schedule| - 1], b, n);
      StaysBarren(Run(schedule[..|schedule| - 1], b, n).value, schedule[|schedule| - 1], b, n);
    }
  }

  /** The live limit holds under every schedule exactly for these bounds: nothing can be
      created, or the smaller limit leaves room for the calls in flight. */
  lemma {:induction false} LiveLimitHoldsIff(b: SubagentBounds, n: nat)
    requires n >= 1
    ensures (forall schedule :: Run(schedule, b, n).Some? ==> Run(schedule, b, n).value.live <= b.maxLiveChildren)
       <==> !Admits(b) || Min(b.maxLiveChildren, b.maxTotalDescendants) + n - 1 <= b.maxLiveChildren
  {
    if Admits(b) {
      LiveBoundIsReached(b, n);
    }
    forall schedule | Run(schedule, b, n).Some?
      ensures Run(schedule, b, n).value.live <=
        if Admits(b) then Min(b.maxLiveChildren, b.maxTotalDescendants) + n - 1 else 0
    {
      if Admits(b) {
        FanOutBound(schedule, b, n);
      } else {
        NothingIsCreated(schedule, b, n);
      }
    }
  }

  /** The total limit holds under every schedule exactly with one call at a time, or when
      nothing can be created. */
  lemma {:induction false} TotalLimitHoldsIff(b: SubagentBounds, n: nat)
    requires n >= 1
    ensures (forall schedule :: Run(schedule, b, n).Some? ==> Run(schedule, b, n).value.total <= b.maxTotalDescendants)
       <==> !Admits(b) || n == 1
  {
    if Admits(b) {
      TotalBoundIsReached(b, n);
    }
    forall schedule | Run(schedule, b, n).Some?
      ensures Run(schedule, b, n).value.total <= if Admits(b) then b.maxTotalDescendants + n - 1 else 0
    {
      if Admits(b) {
        FanOutBound(schedule, b, n);
      } else {
        NothingIsCreated(schedule, b, n);
      }
    }
  }

  // ---- One call alone ----

  /** The first steps of a call: all six, or those up to the failing check. */
  function CallSteps(call: nat, parent: nat, child: nat, outcome: Admission): seq<Action> {
    match outcome
    case Admitted =>
      [Begin(call, parent), LoadLive(call), LoadTotal(call), AddLive(call), AddTotal(call), Return(call, child)]
    case Refused(MaxDepthExceeded(_, _)) => [Begin(call, parent)]
    case Refused(MaxChildrenExceeded(_)) => [Begin(call, parent), LoadLive(call)]
    case Refused(MaxDescendantsExceeded(_, _)) => [Begin(call, parent), LoadLive(call), LoadTotal(call)]
  }

  /** A call nobody disturbs does what the sequential method does: its outcome is that
      of the three checks, and only a success changes anything. */
  lemma {:induction false} UndisturbedCall(
      s: System, call: nat, parent: nat, child: nat, b: SubagentBounds, n: nat, live: u32, total: u32)
    requires n >= 1 && s.calls == map[] && parent in s.engines && !s.engines[parent].dropped && child !in s.engines
    requires s.live == live && s.total == total
    ensures var depth := s.engines[parent].depth;
      var outcome := Admit(depth, live, total, b);
      RunFrom(s, CallSteps(call, parent, child, outcome), b, n) ==
      if outcome.Refused? then Some(s)
      else Some(System(live + 1, total + 1, s.engines[child := EngineInfo(depth + 1, false)], map[]))
  {
    if s.engines[parent].depth >= b.maxChildDepth {
      RunFromOne(s, Begin(call, parent), b, n);
    } else if live >= b.maxLiveChildren {
      LiveCheck(s, call, parent, b, n);
    } else if total >= b.maxTotalDescendants {
      TotalCheck(s, call, parent, b, n);
    } else {
      WholeCall(s, call, parent, child, b, n);
    }
  }
}
