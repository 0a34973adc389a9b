/** Sub-agent engines: a tree of engines sharing two counters, with bounds checked
    before a child is created. */
module SubEngine {
  import opened Prelude
  import SessionJournal

  datatype SubagentBounds = SubagentBounds(maxChildDepth: u32, maxLiveChildren: u32, maxTotalDescendants: u32)

  datatype SubagentError =
    | MaxDepthExceeded(max: u32, current: u32)
    | MaxChildrenExceeded(max: u32)
    | MaxDescendantsExceeded(max: u32, current: u32)

  datatype Admission = Admitted | Refused(error: SubagentError)

  /** The three checks, in their order. */
  function Admit(depth: u32, live: u32, total: u32, b: SubagentBounds): Admission {
    if depth >= b.maxChildDepth then Refused(MaxDepthExceeded(b.maxChildDepth, depth))
    else if live >= b.maxLiveChildren then Refused(MaxChildrenExceeded(b.maxLiveChildren))
    else if total >= b.maxTotalDescendants then Refused(MaxDescendantsExceeded(b.maxTotalDescendants, total))
    else Admitted
  }

  /** Atomic counters wrap around. (An addition never does: it follows a check against a
      limit of the same width.) */
  function FetchSub(x: u32): u32 {
    if x == 0 then U32_MAX else x - 1
  }

  /** Shared by every engine of a tree. */
  class Counters {
    var liveChildren: u32
    var totalDescendants: u32

    constructor ()
      ensures liveChildren == 0 && totalDescendants == 0
    {
      liveChildren, totalDescendants := 0, 0;
    }
  }

  datatype SubEngineConfig = SubEngineConfig(
    allowedTools: Option<seq<string>>, systemPrompt: Option<string>, maxTurns: nat)

  const DEFAULT_CONFIG := SubEngineConfig(None, None, 0)

  class Engine {
    const journal: SessionJournal.Journal
    const config: SubEngineConfig
    const bounds: SubagentBounds
    const depth: u32
    const counters: Counters

    constructor Root(journal: SessionJournal.Journal, bounds: SubagentBounds)
      ensures this.journal == journal && config == SubEngineConfig(None, None, 0) && this.bounds == bounds && depth == 0
      ensures fresh(counters) && counters.liveChildren == 0 && counters.totalDescendants == 0
    {
      this.journal, config, this.bounds, depth := journal, DEFAULT_CONFIG, bounds, 0;
      counters := new Counters();
    }

    constructor Child(
        journal: SessionJournal.Journal, config: SubEngineConfig,
        bounds: SubagentBounds, depth: u32, counters: Counters)
      ensures this.journal == journal && this.config == config
      ensures this.bounds == bounds && this.depth == depth && this.counters == counters
    {
      this.journal, this.config := journal, config;
      this.bounds, this.depth, this.counters := bounds, depth, counters;
    }

    /** Undisturbed by other threads: the child exists exactly if all bounds allow
        it, and only then are the counters touched. */
    method CreateSubEngine(config: SubEngineConfig) returns (child: Engine?, outcome: Admission)
      modifies counters
      ensures outcome == Admit(depth, old(counters.liveChildren), old(counters.totalDescendants), bounds)
      ensures depth >= bounds.maxChildDepth ==> outcome == Refused(MaxDepthExceeded(bounds.maxChildDepth, depth))
      ensures depth < bounds.maxChildDepth && old(counters.liveChildren) >= bounds.maxLiveChildren ==>
        outcome == Refused(MaxChildrenExceeded(bounds.maxLiveChildren))
      ensures (depth < bounds.maxChildDepth && old(counters.liveChildren) < bounds.maxLiveChildren
               && old(counters.totalDescendants) >= bounds.maxTotalDescendants) ==>
        outcome == Refused(MaxDescendantsExceeded(bounds.maxTotalDescendants, old(counters.totalDescendants)))
      ensures outcome.Refused? ==> child == null && unchanged(counters)
      ensures outcome.Admitted? ==>
        && child != null && fresh(child)
        && fresh(child.journal) && child.journal.entries == [] && child.journal.nextOffset == 0
        && child.config == config && child.depth == depth + 1 && child.bounds == bounds && child.counters == counters
        && counters.liveChildren == old(counters.liveChildren) + 1 <= bounds.maxLiveChildren
        && counters.totalDescendants == old(counters.totalDescendants) + 1 <= bounds.maxTotalDescendants
    {
      if depth >= bounds.maxChildDepth {
        return null, Refused(MaxDepthExceeded(bounds.maxChildDepth, depth));
      }
      var currentChildren := counters.liveChildren;
      if currentChildren >= bounds.maxLiveChildren {
        return null, Refused(MaxChildrenExceeded(bounds.maxLiveChildren));
      }
      var currentTotal := counters.totalDescendants;
      if currentTotal >= bounds.maxTotalDescendants {
        return null, Refused(MaxDescendantsExceeded(bounds.maxTotalDescendants, currentTotal));
      }
      counters.liveChildren := counters.liveChildren + 1;
      counters.totalDescendants := counters.totalDescendants + 1;
      var journal := new SessionJournal.Journal.New();
      child := new Engine.Child(journal, config, bounds, depth + 1, counters);
      outcome := Admitted;
    }

    method CanCreateChild() returns (ok: bool)
      ensures ok <==> Admit(depth, counters.liveChildren, counters.totalDescendants, bounds) == Admitted
    {
      var depthOk := depth < bounds.maxChildDepth;
      var childrenOk := counters.liveChildren < bounds.maxLiveChildren;
      var totalOk := counters.totalDescendants < bounds.maxTotalDescendants;
      ok := depthOk && childrenOk && totalOk;
    }

    /** Only engines below the root were counted. */
    method Drop()
      modifies counters`liveChildren
      ensures depth == 0 ==> unchanged(counters)
      ensures depth > 0 && old(counters.liveChildren) > 0 ==>
        counters.liveChildren == old(counters.liveChildren) - 1
      ensures depth > 0 && old(counters.liveChildren) == 0 ==> counters.liveChildren == 0xFFFF_FFFF
    {
      if depth > 0 {
        counters.liveChildren := FetchSub(counters.liveChildren);
      }
    }
  }
}
