/** The compaction-aware history filter: find the latest finished compaction, drop
    what it summarised, keep the tail and everything later. */
module HistoryFilter {
  import opened Prelude

  type Uuid = nat

  datatype Role = System | User | Assistant | Tool

  datatype CompactionMeta = CompactionMeta(
    tailStartId: Option<Uuid>, previousCompactionId: Option<Uuid>, summaryText: Option<string>)

  /** The fields the filter looks at; it copies records whole. */
  datatype MessageRecord = MessageRecord(
    id: Uuid, sessionId: Uuid, role: Role, text: string, createdAt: nat,
    isCompaction: bool, isSummary: bool, compactionMeta: Option<CompactionMeta>)

  predicate IsMarker(r: MessageRecord) {
    r.isCompaction || r.isSummary
  }

  // ---- The latest finished compaction ----

  /** A compaction request at `c` answered by summaries up to `s`. */
  ghost predicate IsPair(rs: seq<MessageRecord>, c: nat, s: nat) {
    && c < s < |rs| && rs[c].isCompaction
    && (forall j :: c < j <= s ==> rs[j].isSummary)
    && (s + 1 < |rs| ==> !rs[s + 1].isSummary)
  }

  /** The pair of the last compaction request that a summary follows. */
  ghost predicate IsLatestPair(rs: seq<MessageRecord>, c: nat, s: nat) {
    && IsPair(rs, c, s)
    && (forall d :: c < d && d + 1 < |rs| ==> !(rs[d].isCompaction && rs[d + 1].isSummary))
  }

  ghost predicate NoPair(rs: seq<MessageRecord>) {
    forall c :: 0 <= c && c + 1 < |rs| ==> !(rs[c].isCompaction && rs[c + 1].isSummary)
  }

  datatype Found = NotFound | Pair(compaction: nat, summary: nat)

  /** The backward scan: a summary is remembered until an ordinary record, and
      paired with the first compaction request met before that. */
  method FindLatestPair(rs: seq<MessageRecord>) returns (found: Found)
    ensures found.NotFound? ==> NoPair(rs)
    ensures found.Pair? ==> IsLatestPair(rs, found.compaction, found.summary)
  {
    var summaryIdx: Option<nat> := None;
    var compactionIdx: Option<nat> := None;
    var i := |rs|;
    while i > 0
      invariant 0 <= i <= |rs| && compactionIdx.None?
      invariant summaryIdx.None? ==> (i < |rs| ==> !rs[i].isSummary)
      invariant summaryIdx.Some? ==>
        && i <= summaryIdx.value < |rs|
        && (forall j :: i <= j <= summaryIdx.value ==> rs[j].isSummary)
        && (summaryIdx.value + 1 < |rs| ==> !rs[summaryIdx.value + 1].isSummary)
      invariant forall d :: i <= d && d + 1 < |rs| ==> !(rs[d].isCompaction && rs[d + 1].isSummary)
    {
      i := i - 1;
      var rec := rs[i];
      if rec.isSummary && summaryIdx.None? {
        summaryIdx := Some(i);
      } else if rec.isCompaction && compactionIdx.None? && summaryIdx.Some? {
        compactionIdx := Some(i);
        return Pair(i, summaryIdx.value);
      } else if !rec.isSummary && !rec.isCompaction && summaryIdx.Some? {
        summaryIdx := None;
      }
    }
    found := NotFound;
  }

  lemma {:induction false} LatestPairIsUnique(rs: seq<MessageRecord>, c: nat, s: nat, d: nat, t: nat)
    requires IsLatestPair(rs, c, s) && IsLatestPair(rs, d, t)
    ensures c == d && s == t
  {
    assert rs[c + 1].isSummary && rs[d + 1].isSummary;
  }

  // ---- The filtered history ----

  /** The first record with the given id, or none. */
  function PositionOf(rs: seq<MessageRecord>, id: Uuid): (p: Option<nat>)
    ensures p.Some? ==> p.value < |rs| && rs[p.value].id == id
    ensures forall j :: 0 <= j < (if p.Some? then p.value else |rs|) ==> rs[j].id != id
  {
    if rs == [] then None
    else if rs[0].id == id then Some(0)
    else
      var rest := PositionOf(rs[1..], id);
      if rest.Some? then Some(rest.value + 1) else None
  }

  /** The first ordinary record from `from` on, or the end. */
  function NextOrdinary(rs: seq<MessageRecord>, from: nat): (k: nat)
    requires from <= |rs|
    ensures from <= k <= |rs|
    ensures forall j :: from <= j < k ==> IsMarker(rs[j])
    ensures k < |rs| ==> !IsMarker(rs[k])
    decreases |rs| - from
  {
    if from == |rs| || !IsMarker(rs[from]) then from else NextOrdinary(rs, from + 1)
  }

  /** The ordinary records, in order. */
  function Ordinary(rs: seq<MessageRecord>): seq<MessageRecord> {
    if rs == [] then []
    else Ordinary(rs[..|rs| - 1]) + (if IsMarker(rs[|rs| - 1]) then [] else [rs[|rs| - 1]])
  }

  const CHECKPOINT_OPEN := "<conversation-checkpoint>\n<summary>\n"
  const CHECKPOINT_CLOSE := "\n</summary>\n</conversation-checkpoint>"

  /** The synthetic system message that stands for the compacted head. */
  function Checkpoint(rs: seq<MessageRecord>, c: nat, s: nat, freshId: Uuid): (front: seq<MessageRecord>)
    requires c < |rs| && s < |rs|
    ensures |front| <= 1 && forall j :: 0 <= j < |front| ==> front[j].role.System? && !IsMarker(front[j])
  {
    var meta := rs[s].compactionMeta;
    if meta.Some? && meta.value.summaryText.Some? then
      [MessageRecord(freshId, rs[c].sessionId, System,
         CHECKPOINT_OPEN + meta.value.summaryText.value + CHECKPOINT_CLOSE,
         rs[s].createdAt, false, false, None)]
    else []
  }

  function TailStartId(r: MessageRecord): Option<Uuid> {
    if r.compactionMeta.Some? then r.compactionMeta.value.tailStartId else None
  }

  /** The ordinary records kept in front of the compaction request. */
  function RetainedTail(rs: seq<MessageRecord>, start: Option<nat>, c: nat): seq<MessageRecord>
    requires c <= |rs| && (start.Some? ==> start.value < |rs|)
  {
    if start.Some? && start.value < c then Ordinary(rs[start.value..c]) else []
  }

  /** The filtered history without the checkpoint. */
  function Body(rs: seq<MessageRecord>, start: Option<nat>, c: nat, s: nat): seq<MessageRecord>
    requires c < s < |rs| && (start.Some? ==> start.value < |rs|)
  {
    RetainedTail(rs, start, c) + rs[NextOrdinary(rs, s + 1)..]
  }

  ghost function Latest(rs: seq<MessageRecord>): Found {
    if exists c: nat, s: nat :: IsLatestPair(rs, c, s)
    then var c: nat, s: nat :| IsLatestPair(rs, c, s); Pair(c, s)
    else NotFound
  }

  /** The history filtered by the compaction at `c` summarised up to `s`. */
  function FilteredBy(rs: seq<MessageRecord>, freshId: Uuid, c: nat, s: nat): seq<MessageRecord>
    requires c < s < |rs|
  {
    match TailStartId(rs[c])
    case None => rs
    case Some(id) => Checkpoint(rs, c, s, freshId) + Body(rs, PositionOf(rs, id), c, s)
  }

  /** What the filter returns; `freshId` is the id of the checkpoint message. */
  ghost function Filtered(rs: seq<MessageRecord>, freshId: Uuid): seq<MessageRecord> {
    match Latest(rs)
    case NotFound => rs
    case Pair(c, s) => FilteredBy(rs, freshId, c, s)
  }

  lemma {:induction false} LatestIsPair(rs: seq<MessageRecord>, c: nat, s: nat)
    requires IsLatestPair(rs, c, s)
    ensures Latest(rs) == Pair(c, s)
  {
    var d, t := Latest(rs).compaction, Latest(rs).summary;
    LatestPairIsUnique(rs, c, s, d, t);
  }

  lemma {:induction false} LatestIsNone(rs: seq<MessageRecord>)
    requires NoPair(rs)
    ensures Latest(rs) == NotFound
  {
    assert forall c: nat, s: nat :: IsPair(rs, c, s) ==>
        c + 1 < |rs| && rs[c].isCompaction && rs[c + 1].isSummary;
  }

  /** The records from the tail start up to the compaction request. */
  method CollectTail(rs: seq<MessageRecord>, start: Option<nat>, c: nat) returns (tail: seq<MessageRecord>)
    requires c <= |rs| && (start.Some? ==> start.value < |rs|)
    ensures tail == RetainedTail(rs, start, c)
  {
    tail := [];
    if start.Some? && start.value < c {
      var from := start.value;
      for i := from to c
        invariant tail == Ordinary(rs[from..i])
      {
        assert rs[from..i + 1][..i - from] == rs[from..i];
        if !IsMarker(rs[i]) {
          tail := tail + [rs[i]];
        }
      }
    }
  }

  /** The filter once the scan has found its pair. */
  method FilterBy(rs: seq<MessageRecord>, freshId: Uuid, c: nat, s: nat) returns (out: seq<MessageRecord>)
    requires c < s < |rs|
    ensures out == FilteredBy(rs, freshId, c, s)
  {
    var tailStartId := TailStartId(rs[c]);
    if tailStartId.None? {
      return rs;
    }
    var tailIdx := PositionOf(rs, tailStartId.value);
    var compactEnd := NextOrdinary(rs, s + 1);
    var tail := CollectTail(rs, tailIdx, c);
    out := Checkpoint(rs, c, s, freshId) + (tail + rs[compactEnd..]);
  }

  method ApplyCompactionFilter(rs: seq<MessageRecord>, freshId: Uuid) returns (out: seq<MessageRecord>)
    ensures out == Filtered(rs, freshId)
  {
    if rs == [] {
      LatestIsNone(rs);
      return rs;
    }
    var found := FindLatestPair(rs);
    if found.NotFound? {
      LatestIsNone(rs);
      return rs;
    }
    LatestIsPair(rs, found.compaction, found.summary);
    out := FilterBy(rs, freshId, found.compaction, found.summary);
  }

  // ---- Laws ----

  lemma {:induction false} OrdinaryAppend(a: seq<MessageRecord>, b: seq<MessageRecord>)
    ensures Ordinary(a + b) == Ordinary(a) + Ordinary(b)
    decreases |b|
  {
    if b == [] {
      assert a + b == a;
    } else {
      assert (a + b)[..|a + b| - 1] == a + b[..|b| - 1];
      OrdinaryAppend(a, b[..|b| - 1]);
    }
  }

  lemma {:induction false} AllMarkers(rs: seq<MessageRecord>)
    requires forall j :: 0 <= j < |rs| ==> IsMarker(rs[j])
    ensures Ordinary(rs) == []
  {
    if rs != [] {
      AllMarkers(rs[..|rs| - 1]);
    }
  }

  lemma {:induction false} OrdinaryHasNoMarkers(rs: seq<MessageRecord>)
    ensures forall j :: 0 <= j < |Ordinary(rs)| ==> !IsMarker(Ordinary(rs)[j])
  {
    if rs != [] {
      OrdinaryHasNoMarkers(rs[..|rs| - 1]);
    }
  }

  lemma {:induction false} OrdinaryOfOrdinary(rs: seq<MessageRecord>)
    requires forall j :: 0 <= j < |rs| ==> !IsMarker(rs[j])
    ensures Ordinary(rs) == rs
  {
    if rs != [] {
      OrdinaryOfOrdinary(rs[..|rs| - 1]);
    }
  }

  /** Records without a finished compaction, put after records that are ordinary,
      have none either. */
  lemma {:induction false} NoPairAcross(front: seq<MessageRecord>, rs: seq<MessageRecord>, k: nat, c: nat)
    requires forall j :: 0 <= j < |front| ==> !IsMarker(front[j])
    requires c < k <= |rs|
    requires forall d :: c < d && d + 1 < |rs| ==> !(rs[d].isCompaction && rs[d + 1].isSummary)
    ensures NoPair(front + rs[k..])
  {
    var out := front + rs[k..];
    forall d | 0 <= d && d + 1 < |out| ensures !(out[d].isCompaction && out[d + 1].isSummary) {
      if d < |front| {
        assert out[d] == front[d];
      } else {
        assert out[d] == rs[k + d - |front|] && out[d + 1] == rs[k + d - |front| + 1];
      }
    }
  }

  /** Filtering is idempotent, whatever ids the checkpoints get. */
  lemma {:induction false} FilterIsIdempotent(rs: seq<MessageRecord>, id1: Uuid, id2: Uuid)
    ensures Filtered(Filtered(rs, id1), id2) == Filtered(rs, id1)
  {
    if NoPair(rs) {
      LatestIsNone(rs);
    } else {
      var c, s := HasLatestPair(rs);
      LatestIsPair(rs, c, s);
      if TailStartId(rs[c]).Some? {
        FilteredHasNoPair(rs, id1, c, s);
        LatestIsNone(Filtered(rs, id1));
      }
    }
  }

  /** After filtering no finished compaction is left exactly when the compaction named
      a tail; otherwise nothing was filtered. */
  lemma {:induction false} FilteredHasNoPair(rs: seq<MessageRecord>, freshId: Uuid, c: nat, s: nat)
    requires IsLatestPair(rs, c, s)
    ensures NoPair(Filtered(rs, freshId)) <==> TailStartId(rs[c]).Some?
  {
    LatestIsPair(rs, c, s);
    if TailStartId(rs[c]).Some? {
      var checkpoint := Checkpoint(rs, c, s, freshId);
      var start := PositionOf(rs, TailStartId(rs[c]).value);
      var tail := RetainedTail(rs, start, c);
      if start.Some? && start.value < c {
        OrdinaryHasNoMarkers(rs[start.value..c]);
      }
      var k := NextOrdinary(rs, s + 1);
      Assoc(checkpoint, tail, rs[k..]);
      NoPairAcross(checkpoint + tail, rs, k, c);
    } else {
      assert Filtered(rs, freshId) == rs && rs[c].isCompaction && rs[c + 1].isSummary;
    }
  }

  /** A history with a finished compaction has a latest one. */
  lemma {:induction false} HasLatestPair(rs: seq<MessageRecord>) returns (c: nat, s: nat)
    requires !NoPair(rs)
    ensures IsLatestPair(rs, c, s)
  {
    c :| 0 <= c && c + 1 < |rs| && rs[c].isCompaction && rs[c + 1].isSummary;
    var i := c + 1;
    while i + 1 < |rs|
      invariant c < i < |rs|
      invariant rs[c].isCompaction && rs[c + 1].isSummary
      invariant forall d :: c < d < i ==> !(rs[d].isCompaction && rs[d + 1].isSummary)
      decreases |rs| - i
    {
      if rs[i].isCompaction && rs[i + 1].isSummary {
        c := i;
      }
      i := i + 1;
    }
    s := c + 1;
    while s + 1 < |rs| && rs[s + 1].isSummary
      invariant c < s < |rs| && forall j :: c < j <= s ==> rs[j].isSummary
      decreases |rs| - s
    {
      s := s + 1;
    }
  }

  /** From the request to the first ordinary record behind the summaries there are only
      markers. */
  lemma {:induction false} MarkersBetween(rs: seq<MessageRecord>, c: nat, s: nat)
    requires IsLatestPair(rs, c, s)
    ensures c < NextOrdinary(rs, s + 1) && forall j :: c <= j < NextOrdinary(rs, s + 1) ==> IsMarker(rs[j])
  {
  }

  lemma {:induction false} KeptFromTail(rs: seq<MessageRecord>, start: nat, c: nat, k: nat)
    requires start < c <= k <= |rs| && forall j :: c <= j < k ==> IsMarker(rs[j])
    ensures Ordinary(Ordinary(rs[start..c]) + rs[k..]) == Ordinary(rs[start..])
  {
    OrdinaryAppend(Ordinary(rs[start..c]), rs[k..]);
    OrdinaryHasNoMarkers(rs[start..c]);
    OrdinaryOfOrdinary(Ordinary(rs[start..c]));
    MarkersVanish(rs, start, c, k);
  }

  lemma {:induction false} KeptFromMarker(rs: seq<MessageRecord>, start: nat, k: nat)
    requires start <= k <= |rs| && forall j :: start <= j < k ==> IsMarker(rs[j])
    ensures Ordinary(rs[k..]) == Ordinary(rs[start..])
  {
    MarkersVanish(rs, start, start, k);
    assert rs[start..start] == [];
  }

  /** What survives, for EVERY history with a finished compaction: in order and
      exactly once, the ordinary records from the tail start on, or from the first
      ordinary record after the compaction if that comes earlier. Every record left
      out lies before that point or is a marker. */
  lemma {:induction false} KeptRecords(rs: seq<MessageRecord>, start: Option<nat>, c: nat, s: nat)
    requires IsLatestPair(rs, c, s) && (start.Some? ==> start.value < |rs|)
    ensures var k := NextOrdinary(rs, s + 1);
      Ordinary(Body(rs, start, c, s))
      == Ordinary(rs[(if start.Some? && start.value < k then start.value else k)..])
  {
    MarkersBetween(rs, c, s);
    var k := NextOrdinary(rs, s + 1);
    if start.Some? && start.value < c {
      KeptFromTail(rs, start.value, c, k);
    } else {
      assert [] + rs[k..] == rs[k..];
      if start.Some? && start.value < k {
        KeptFromMarker(rs, start.value, k);
      }
    }
  }

  /** The whole output: the checkpoint if there is a summary text, then those records,
      and otherwise markers only. */
  lemma {:induction false} FilterConserves(rs: seq<MessageRecord>, freshId: Uuid, c: nat, s: nat)
    requires IsLatestPair(rs, c, s) && TailStartId(rs[c]).Some?
    ensures var k, start := NextOrdinary(rs, s + 1), PositionOf(rs, TailStartId(rs[c]).value);
      Ordinary(Filtered(rs, freshId))
      == Checkpoint(rs, c, s, freshId) + Ordinary(rs[(if start.Some? && start.value < k then start.value else k)..])
  {
    LatestIsPair(rs, c, s);
    var start := PositionOf(rs, TailStartId(rs[c]).value);
    KeptRecords(rs, start, c, s);
    OrdinaryOfOrdinary(Checkpoint(rs, c, s, freshId));
    OrdinaryAppend(Checkpoint(rs, c, s, freshId), Body(rs, start, c, s));
  }

  /** A stretch of markers can be cut out. */
  lemma {:induction false} MarkersVanish(rs: seq<MessageRecord>, from: nat, cut: nat, k: nat)
    requires from <= cut <= k <= |rs|
    requires forall j :: cut <= j < k ==> IsMarker(rs[j])
    ensures Ordinary(rs[from..]) == Ordinary(rs[from..cut]) + Ordinary(rs[k..])
  {
    assert rs[from..] == rs[from..cut] + rs[cut..];
    assert rs[cut..] == rs[cut..k] + rs[k..];
    OrdinaryAppend(rs[from..cut], rs[cut..]);
    OrdinaryAppend(rs[cut..k], rs[k..]);
    AllMarkers(rs[cut..k]);
  }

  /** Starting later than an ordinary record loses it. */
  lemma {:induction false} LaterStartLoses(rs: seq<MessageRecord>, k: nat, start: nat)
    requires k < start <= |rs| && !IsMarker(rs[k])
    ensures |Ordinary(rs[k..])| > |Ordinary(rs[start..])|
  {
    var first, middle := [rs[k]], rs[k + 1..start];
    assert rs[k..] == first + (middle + rs[start..]);
    OrdinaryAppend(first, middle + rs[start..]);
    OrdinaryAppend(middle, rs[start..]);
    OrdinaryOfOrdinary(first);
  }

  /** So the filter keeps exactly the ordinary records from the tail start on when,
      and only when, the tail starts no later than the first ordinary record after
      the compaction. */
  lemma {:induction false} TailKeptIff(rs: seq<MessageRecord>, start: nat, c: nat, s: nat)
    requires IsLatestPair(rs, c, s) && start < |rs|
    ensures Ordinary(Body(rs, Some(start), c, s)) == Ordinary(rs[start..]) <==> start <= NextOrdinary(rs, s + 1)
  {
    KeptRecords(rs, Some(start), c, s);
    if start > NextOrdinary(rs, s + 1) {
      LaterStartLoses(rs, NextOrdinary(rs, s + 1), start);
    }
  }

  /** A history that loses part of its tail: the tail start it names comes after the
      first ordinary record behind the compaction, and that record stays too. */
  lemma {:induction false} LateTailExample(sessionId: Uuid)
    ensures var meta := CompactionMeta(Some(3), None, None);
      var request := MessageRecord(0, sessionId, User, "", 0, true, false, Some(meta));
      var summary := MessageRecord(1, sessionId, Assistant, "", 1, false, true, None);
      var first := MessageRecord(2, sessionId, User, "", 2, false, false, None);
      var tail := MessageRecord(3, sessionId, User, "", 3, false, false, None);
      var rs := [request, summary, first, tail];
      && IsLatestPair(rs, 0, 1) && PositionOf(rs, 3) == Some(3)
      && Ordinary(Body(rs, Some(3), 0, 1)) != Ordinary(rs[3..])
  {
    var meta := CompactionMeta(Some(3), None, None);
    var request := MessageRecord(0, sessionId, User, "", 0, true, false, Some(meta));
    var summary := MessageRecord(1, sessionId, Assistant, "", 1, false, true, None);
    var first := MessageRecord(2, sessionId, User, "", 2, false, false, None);
    var tail := MessageRecord(3, sessionId, User, "", 3, false, false, None);
    var rs := [request, summary, first, tail];
    assert rs[2] == first && !IsMarker(first);
    assert NextOrdinary(rs, 2) == 2;
    TailKeptIff(rs, 3, 0, 1);
  }

  // ---- The output, record by record ----

  /** The request of the pair names the first record of the tail. */
  ghost predicate NamesTail(r: MessageRecord, id: Uuid) {
    r.compactionMeta.Some? && r.compactionMeta.value.tailStartId == Some(id)
  }

  ghost predicate HasText(r: MessageRecord, text: string) {
    r.compactionMeta.Some? && r.compactionMeta.value.summaryText == Some(text)
  }

  ghost predicate IsOrdinary(r: MessageRecord) {
    !r.isCompaction && !r.isSummary
  }

  /** Without a named tail nothing is filtered; without a finished compaction neither. */
  lemma {:induction false} UnfilteredHistories(rs: seq<MessageRecord>, freshId: Uuid)
    ensures NoPair(rs) ==> Filtered(rs, freshId) == rs
    ensures forall c: nat, s: nat :: IsLatestPair(rs, c, s) && (forall id :: !NamesTail(rs[c], id)) ==>
      Filtered(rs, freshId) == rs
  {
    if NoPair(rs) {
      LatestIsNone(rs);
    }
    forall c: nat, s: nat | IsLatestPair(rs, c, s) && (forall id :: !NamesTail(rs[c], id))
      ensures Filtered(rs, freshId) == rs
    {
      LatestIsPair(rs, c, s);
      assert rs[c].compactionMeta.Some? && rs[c].compactionMeta.value.tailStartId.Some? ==>
          NamesTail(rs[c], rs[c].compactionMeta.value.tailStartId.value);
    }
  }

  /** A summary text stands in front, as a system message of the request's session and the
      summary's time. */
  lemma {:induction false} SummaryStandsInFront(
      rs: seq<MessageRecord>, freshId: Uuid, c: nat, s: nat, tailId: Uuid, text: string)
    requires IsLatestPair(rs, c, s) && NamesTail(rs[c], tailId) && HasText(rs[s], text)
    ensures Filtered(rs, freshId) != []
    ensures Filtered(rs, freshId)[0] == MessageRecord(
      freshId, rs[c].sessionId, System,
      "<conversation-checkpoint>\n<summary>\n" + text + "\n</summary>\n</conversation-checkpoint>",
      rs[s].createdAt, false, false, None)
  {
    LatestIsPair(rs, c, s);
  }

  /** A record in front of the request stays if it is ordinary and the tail has begun; one
      behind the summaries stays once an ordinary record has come. */
  ghost predicate Stays(rs: seq<MessageRecord>, c: nat, s: nat, tailId: Uuid, p: nat)
    requires p < |rs|
  {
    || (p < c && IsOrdinary(rs[p]) && exists q :: 0 <= q <= p && rs[q].id == tailId)
    || (p > s && exists q :: s < q <= p && IsOrdinary(rs[q]))
  }

  lemma {:induction false} OrdinaryPositions(rs: seq<MessageRecord>, from: nat, end: nat) returns (at: seq<nat>)
    requires from <= end <= |rs|
    ensures PickedAt(rs[..end], at, Ordinary(rs[from..end]))
    ensures forall p: nat :: p in at <==> from <= p < end && IsOrdinary(rs[p])
    decreases end
  {
    if from == end {
      at := [];
    } else {
      var n := end - 1;
      at := OrdinaryPositions(rs, from, n);
      assert rs[from..end][..n - from] == rs[from..n] && rs[from..end][n - from] == rs[n];
      assert rs[..end][..n] == rs[..n];
      PickedSnoc(rs[..end], n, at, Ordinary(rs[from..n]));
      if IsOrdinary(rs[n]) {
        at := at + [n];
      }
    }
  }

  lemma {:induction false} AllPositions(rs: seq<MessageRecord>, from: nat, end: nat) returns (at: seq<nat>)
    requires from <= end <= |rs|
    ensures PickedAt(rs[..end], at, rs[from..end])
    ensures forall p: nat :: p in at <==> from <= p < end
    decreases end
  {
    if from == end {
      at := [];
    } else {
      var n := end - 1;
      at := AllPositions(rs, from, n);
      assert rs[from..end] == rs[from..n] + [rs[n]];
      assert rs[..end][..n] == rs[..n];
      PickedSnoc(rs[..end], n, at, rs[from..n]);
      at := at + [n];
    }
  }

  lemma {:induction false} PickedAppend(
      rs: seq<MessageRecord>, a: seq<nat>, x: seq<MessageRecord>, b: seq<nat>, y: seq<MessageRecord>)
    requires PickedAt(rs, a, x) && PickedAt(rs, b, y)
    requires forall p: nat, q: nat :: p in a && q in b ==> p < q
    ensures PickedAt(rs, a + b, x + y)
  {
    forall j, k | 0 <= j < k < |a + b| ensures (a + b)[j] < (a + b)[k] {
      if j < |a| <= k {
        assert a[j] in a && b[k - |a|] in b;
      }
    }
  }

  lemma {:induction false} TailPositions(rs: seq<MessageRecord>, start: Option<nat>, c: nat)
      returns (at: seq<nat>)
    requires c <= |rs| && (start.Some? ==> start.value < |rs|)
    ensures PickedAt(rs[..c], at, RetainedTail(rs, start, c))
    ensures forall p: nat :: p in at <==> start.Some? && start.value <= p < c && IsOrdinary(rs[p])
  {
    at := [];
    if start.Some? && start.value < c {
      at := OrdinaryPositions(rs, start.value, c);
    }
  }

  lemma PickedLonger(rs: seq<MessageRecord>, end: nat, at: seq<nat>, picked: seq<MessageRecord>)
    requires end <= |rs| && PickedAt(rs[..end], at, picked)
    ensures PickedAt(rs, at, picked) && forall p :: p in at ==> p < end
  {
  }

  lemma {:induction false} BodyPositions(
      rs: seq<MessageRecord>, start: Option<nat>, c: nat, s: nat) returns (at: seq<nat>)
    requires c < s < |rs| && (start.Some? ==> start.value < |rs|)
    ensures PickedAt(rs, at, Body(rs, start, c, s))
    ensures forall p: nat :: p in at <==>
      (start.Some? && start.value <= p < c && IsOrdinary(rs[p])) || NextOrdinary(rs, s + 1) <= p < |rs|
  {
    var k := NextOrdinary(rs, s + 1);
    var tailAt := TailPositions(rs, start, c);
    var laterAt := AllPositions(rs, k, |rs|);
    assert rs[k..|rs|] == rs[k..];
    PickedLonger(rs, c, tailAt, RetainedTail(rs, start, c));
    PickedLonger(rs, |rs|, laterAt, rs[k..]);
    PickedAppend(rs, tailAt, RetainedTail(rs, start, c), laterAt, rs[k..]);
    at := tailAt + laterAt;
  }

  /** Behind that message, if there is one, come exactly the records that stay, each once
      and in order. */
  lemma {:induction false} RestStays(
      rs: seq<MessageRecord>, freshId: Uuid, c: nat, s: nat, tailId: Uuid) returns (at: seq<nat>)
    requires IsLatestPair(rs, c, s) && NamesTail(rs[c], tailId)
    ensures var front := if exists text :: HasText(rs[s], text) then 1 else 0;
      front <= |Filtered(rs, freshId)| && PickedAt(rs, at, Filtered(rs, freshId)[front..])
    ensures forall p: nat :: p < |rs| ==> (p in at <==> Stays(rs, c, s, tailId, p))
  {
    LatestIsPair(rs, c, s);
    var start := PositionOf(rs, tailId);
    at := BodyPositions(rs, start, c, s);
    FrontIsOne(rs, freshId, c, s);
    assert Filtered(rs, freshId)[|Checkpoint(rs, c, s, freshId)|..] == Body(rs, start, c, s);
    forall p: nat | p < |rs| ensures p in at <==> Stays(rs, c, s, tailId, p) {
      StaysIff(rs, c, s, tailId, p);
    }
  }

  lemma {:induction false} FrontIsOne(rs: seq<MessageRecord>, freshId: Uuid, c: nat, s: nat)
    requires c < |rs| && s < |rs|
    ensures |Checkpoint(rs, c, s, freshId)| == if exists text :: HasText(rs[s], text) then 1 else 0
  {
    assert rs[s].compactionMeta.Some? && rs[s].compactionMeta.value.summaryText.Some? ==>
        HasText(rs[s], rs[s].compactionMeta.value.summaryText.value);
  }

  lemma {:induction false} StaysIff(rs: seq<MessageRecord>, c: nat, s: nat, tailId: Uuid, p: nat)
    requires IsLatestPair(rs, c, s) && p < |rs|
    ensures var start, k := PositionOf(rs, tailId), NextOrdinary(rs, s + 1);
      Stays(rs, c, s, tailId, p) <==>
      (start.Some? && start.value <= p < c && IsOrdinary(rs[p])) || k <= p
  {
    var k := NextOrdinary(rs, s + 1);
    assert forall j :: s < j < k ==> !IsOrdinary(rs[j]);
    assert k < |rs| ==> IsOrdinary(rs[k]);
  }
}
