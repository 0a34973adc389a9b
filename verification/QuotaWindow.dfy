/** The sliding-window quota: creations are counted over the last `window` time
    units, and old ones are forgotten only when somebody looks.

    Time is a number counted from the start of the clock; a `record` reads it twice. */
module QuotaWindow {
  import opened Prelude

  type Instant = nat

  /** The timestamps at or after `now - window`; before a whole window has passed
      since the clock started, all of them. */
  function Evict(timestamps: seq<Instant>, window: nat, now: Instant): seq<Instant> {
    if now < window then timestamps else KeepSince(timestamps, now - window)
  }

  function KeepSince(timestamps: seq<Instant>, cutoff: Instant): (kept: seq<Instant>)
    ensures |kept| <= |timestamps|
  {
    if timestamps == [] then []
    else
      KeepSince(timestamps[..|timestamps| - 1], cutoff) +
      (if timestamps[|timestamps| - 1] >= cutoff then [timestamps[|timestamps| - 1]] else [])
  }

  function Narrow(n: nat): u32 {
    n % 0x1_0000_0000
  }

  class Quota {
    const maxCreations: u32
    const window: nat
    var timestamps: seq<Instant>

    /** The list never outgrows the limit, so narrowing its length loses nothing. */
    ghost predicate Valid()
      reads this
    {
      |timestamps| <= maxCreations
    }

    constructor (maxCreations: u32, window: nat)
      ensures Valid() && timestamps == []
      ensures this.maxCreations == maxCreations && this.window == window
    {
      this.maxCreations, this.window, timestamps := maxCreations, window, [];
    }

    method EvictExpired(now: Instant)
      modifies this
      ensures timestamps == Evict(old(timestamps), window, now)
      ensures old(Valid()) ==> Valid()
    {
      if now >= window {
        timestamps := KeepSince(timestamps, now - window);
      }
    }

    method ActiveCount(now: Instant) returns (count: u32)
      requires Valid()
      modifies this
      ensures Valid() && timestamps == Evict(old(timestamps), window, now)
      ensures count == |timestamps|
    {
      EvictExpired(now);
      count := Narrow(|timestamps|);
    }

    method Check(now: Instant) returns (remaining: u32)
      requires Valid()
      modifies this
      ensures Valid() && timestamps == Evict(old(timestamps), window, now)
      ensures remaining == maxCreations - |timestamps|
    {
      EvictExpired(now);
      var active := Narrow(|timestamps|);
      remaining := if maxCreations >= active then maxCreations - active else 0;
    }

    /** Evicts as of `now`, then records the later instant `stamp` if there is room. */
    method Record(now: Instant, stamp: Instant) returns (accepted: bool)
      requires Valid()
      modifies this
      ensures Valid()
      ensures accepted <==> |Evict(old(timestamps), window, now)| < maxCreations
      ensures timestamps == Evict(old(timestamps), window, now) + (if accepted then [stamp] else [])
    {
      EvictExpired(now);
      if Narrow(|timestamps|) >= maxCreations {
        return false;
      }
      timestamps := timestamps + [stamp];
      accepted := true;
    }

    method Reset()
      modifies this
      ensures Valid() && timestamps == []
    {
      timestamps := [];
    }
  }

  // ---- Runs ----

  /** A use of the quota without `reset`. */
  datatype Op = Look(now: Instant) | Record(now: Instant, stamp: Instant)

  function Start(op: Op): Instant {
    op.now
  }

  function Finish(op: Op): Instant {
    if op.Record? then op.stamp else op.now
  }

  /** The clock never goes back, between operations or inside one. */
  ghost predicate Clocked(ops: seq<Op>) {
    && (forall i :: 0 <= i < |ops| ==> Start(ops[i]) <= Finish(ops[i]))
    && (forall i, j :: 0 <= i < j < |ops| ==> Finish(ops[i]) <= Start(ops[j]))
  }

  ghost predicate DoneBy(ops: seq<Op>, t: Instant) {
    forall i :: 0 <= i < |ops| ==> Finish(ops[i]) <= t
  }

  /** The timestamps kept, the times ever accepted, and the answers to `record`. */
  datatype History = History(timestamps: seq<Instant>, accepted: seq<Instant>, answers: seq<bool>)

  function Do(h: History, op: Op, maxCreations: nat, window: nat): History {
    var kept := Evict(h.timestamps, window, op.now);
    match op
    case Look(_) => h.(timestamps := kept)
    case Record(_, stamp) =>
      if |kept| >= maxCreations then History(kept, h.accepted, h.answers + [false])
      else History(kept + [stamp], h.accepted + [stamp], h.answers + [true])
  }

  function DoAll(ops: seq<Op>, maxCreations: nat, window: nat): History {
    if ops == [] then History([], [], [])
    else Do(DoAll(ops[..|ops| - 1], maxCreations, window), ops[|ops| - 1], maxCreations, window)
  }

  // ---- What eviction keeps ----

  /** Eviction keeps, in order, exactly the times no older than the window; before the
      clock has run for a whole window, all of them. */
  lemma {:induction false} EvictByPosition(timestamps: seq<Instant>, window: nat, now: Instant)
    ensures exists at ::
      && PickedAt(timestamps, at, Evict(timestamps, window, now))
      && (forall p :: 0 <= p < |timestamps| ==> (p in at <==> timestamps[p] + window >= now))
  {
    EvictIsKeepSince(timestamps, window, now);
    var at := KeptPositions(timestamps, Cutoff(window, now));
  }

  lemma {:induction false} KeptPositions(timestamps: seq<Instant>, cutoff: Instant) returns (at: seq<nat>)
    ensures PickedAt(timestamps, at, KeepSince(timestamps, cutoff))
    ensures forall p :: 0 <= p < |timestamps| ==> (p in at <==> timestamps[p] >= cutoff)
  {
    if timestamps == [] {
      at := [];
    } else {
      var n := |timestamps| - 1;
      at := KeptPositions(timestamps[..n], cutoff);
      PickedSnoc(timestamps, n, at, KeepSince(timestamps[..n], cutoff));
      if timestamps[n] >= cutoff {
        at := at + [n];
      }
    }
  }

  // ---- Evicting late is evicting once ----

  lemma {:induction false} KeepSinceTwice(ts: seq<Instant>, early: Instant, late: Instant)
    requires early <= late
    ensures KeepSince(KeepSince(ts, early), late) == KeepSince(ts, late)
  {
    if ts != [] {
      var front, last := ts[..|ts| - 1], ts[|ts| - 1];
      KeepSinceTwice(front, early, late);
      if last >= early {
        KeepSinceSnoc(KeepSince(front, early), last, late);
      } else {
        assert KeepSince(ts, early) == KeepSince(front, early) && KeepSince(ts, late) == KeepSince(front, late);
      }
    }
  }

  lemma KeepSinceSnoc(ts: seq<Instant>, last: Instant, cutoff: Instant)
    ensures KeepSince(ts + [last], cutoff) == KeepSince(ts, cutoff) + (if last >= cutoff then [last] else [])
  {
    assert (ts + [last])[..|ts|] == ts;
  }

  lemma {:induction false} KeepSinceAll(ts: seq<Instant>, cutoff: Instant)
    requires forall i :: 0 <= i < |ts| ==> ts[i] >= cutoff
    ensures KeepSince(ts, cutoff) == ts
  {
    if ts != [] {
      KeepSinceAll(ts[..|ts| - 1], cutoff);
    }
  }

  /** The cutoff of an eviction as of `now`; 0 keeps everything. */
  function Cutoff(window: nat, now: Instant): Instant {
    if now < window then 0 else now - window
  }

  lemma {:induction false} EvictIsKeepSince(ts: seq<Instant>, window: nat, now: Instant)
    ensures Evict(ts, window, now) == KeepSince(ts, Cutoff(window, now))
  {
    if now < window {
      KeepSinceAll(ts, 0);
    }
  }

  function LastCutoff(ops: seq<Op>, window: nat): Instant {
    if ops == [] then 0 else Cutoff(window, ops[|ops| - 1].now)
  }

  ghost predicate Ascending(ts: seq<Instant>) {
    forall i, j :: 0 <= i < j < |ts| ==> ts[i] <= ts[j]
  }

  lemma ClockedPrefix(ops: seq<Op>)
    requires Clocked(ops) && ops != []
    ensures Clocked(ops[..|ops| - 1])
  {
  }

  lemma LastIsClocked(ops: seq<Op>)
    requires Clocked(ops) && ops != []
    ensures var n := |ops| - 1;
      Clocked(ops[..n]) && DoneBy(ops[..n], Start(ops[n])) && Start(ops[n]) <= Finish(ops[n])
  {
  }

  ghost predicate AscendingTo(ts: seq<Instant>, t: Instant) {
    Ascending(ts) && forall i :: 0 <= i < |ts| ==> ts[i] <= t
  }

  lemma {:induction false} AcceptedAscend(ops: seq<Op>, t: Instant, maxCreations: nat, window: nat)
    requires Clocked(ops) && DoneBy(ops, t)
    ensures AscendingTo(DoAll(ops, maxCreations, window).accepted, t)
  {
    if ops != [] {
      var op := ops[|ops| - 1];
      LastIsClocked(ops);
      AcceptedAscend(ops[..|ops| - 1], Start(op), maxCreations, window);
      assert Finish(op) <= t;
    }
  }

  function LastFinish(ops: seq<Op>): Instant
    requires ops != []
  {
    Finish(ops[|ops| - 1])
  }

  lemma CutoffsAscend(ops: seq<Op>, op: Op, window: nat)
    requires Clocked(ops + [op])
    ensures LastCutoff(ops, window) <= Cutoff(window, op.now)
  {
    if ops != [] {
      var all, n := ops + [op], |ops|;
      assert all[n - 1] == ops[n - 1] && all[n] == op;
      assert Finish(all[n - 1]) <= Start(all[n]);
      assert Start(all[n - 1]) <= Finish(all[n - 1]);
    }
  }

  /** The lazily evicted list is at every moment exactly the accepted times since the
      last cutoff: looking more or less often never changes what it will hold. */
  lemma {:induction false} ListIsAcceptedSince(ops: seq<Op>, maxCreations: nat, window: nat)
    requires Clocked(ops)
    ensures var h := DoAll(ops, maxCreations, window);
      h.timestamps == KeepSince(h.accepted, LastCutoff(ops, window))
    decreases |ops|, 0
  {
    if ops != [] {
      var front, op := ops[..|ops| - 1], ops[|ops| - 1];
      assert ops == front + [op];
      EvictedAsOfNow(front, op, maxCreations, window);
      var h := DoAll(front, maxCreations, window);
      if op.Record? {
        KeepSinceSnoc(h.accepted, op.stamp, Cutoff(window, op.now));
      }
    }
  }

  /** Evicting as of the next operation leaves the accepted times since its cutoff. */
  lemma {:induction false} EvictedAsOfNow(ops: seq<Op>, op: Op, maxCreations: nat, window: nat)
    requires Clocked(ops + [op])
    ensures var h := DoAll(ops, maxCreations, window);
      Evict(h.timestamps, window, op.now) == KeepSince(h.accepted, Cutoff(window, op.now))
    decreases |ops|, 1
  {
    assert (ops + [op])[..|ops|] == ops;
    ClockedPrefix(ops + [op]);
    ListIsAcceptedSince(ops, maxCreations, window);
    var h := DoAll(ops, maxCreations, window);
    CutoffsAscend(ops, op, window);
    KeepSinceTwice(h.accepted, LastCutoff(ops, window), Cutoff(window, op.now));
    EvictIsKeepSince(h.timestamps, window, op.now);
  }

  /** So what a `record` does depends only on the times accepted before: it accepts
      exactly if fewer than the limit are still inside the window. */
  lemma {:induction false} RecordFromAccepted(ops: seq<Op>, op: Op, maxCreations: nat, window: nat)
    requires Clocked(ops + [op]) && op.Record?
    ensures var before, after := DoAll(ops, maxCreations, window), DoAll(ops + [op], maxCreations, window);
      var answer := |KeepSince(before.accepted, Cutoff(window, op.now))| < maxCreations;
      && after.answers == before.answers + [answer]
      && after.accepted == if answer then before.accepted + [op.stamp] else before.accepted
  {
    assert (ops + [op])[..|ops|] == ops;
    EvictedAsOfNow(ops, op, maxCreations, window);
  }

  /** The run with every look left out. */
  function Records(ops: seq<Op>): seq<Op> {
    if ops == [] then []
    else Records(ops[..|ops| - 1]) + (if ops[|ops| - 1].Record? then [ops[|ops| - 1]] else [])
  }

  lemma {:induction false} RecordsAreClocked(ops: seq<Op>, t: Instant)
    requires Clocked(ops) && DoneBy(ops, t)
    ensures Clocked(Records(ops)) && DoneBy(Records(ops), t)
  {
    if ops != [] {
      var front, op := ops[..|ops| - 1], ops[|ops| - 1];
      LastIsClocked(ops);
      RecordsAreClocked(front, Start(op));
      assert Finish(op) <= t;
    }
  }

  /** Checks and counts in between never change what is accepted or answered. */
  lemma {:induction false} LooksNeverMatter(ops: seq<Op>, maxCreations: nat, window: nat)
    requires Clocked(ops)
    ensures var h, r := DoAll(ops, maxCreations, window), DoAll(Records(ops), maxCreations, window);
      h.accepted == r.accepted && h.answers == r.answers
  {
    if ops != [] {
      var front, op := ops[..|ops| - 1], ops[|ops| - 1];
      LastIsClocked(ops);
      LooksNeverMatter(front, maxCreations, window);
      assert ops == front + [op];
      if op.Record? {
        RecordsAreClocked(ops, Finish(op));
        assert Records(ops) == Records(front) + [op];
        RecordFromAccepted(front, op, maxCreations, window);
        RecordFromAccepted(Records(front), op, maxCreations, window);
      } else {
        assert Records(ops) == Records(front);
      }
    }
  }

  // ---- The window theorem ----

  /** Accepted times far enough apart: between any one and the one `maxCreations`
      later more than a window passes. */
  ghost predicate Spread(accepted: seq<Instant>, maxCreations: nat, window: nat) {
    forall i, j :: 0 <= i && j == i + maxCreations < |accepted| ==> accepted[j] > accepted[i] + window
  }

  lemma {:induction false} KeptSuffix(ts: seq<Instant>, cutoff: Instant, i: nat)
    requires Ascending(ts) && i < |ts| && ts[i] >= cutoff
    ensures |KeepSince(ts, cutoff)| >= |ts| - i
  {
    if i < |ts| - 1 {
      KeptSuffix(ts[..|ts| - 1], cutoff, i);
    }
  }

  /** One more time may follow if fewer than the limit were kept. */
  lemma {:induction false} SpreadSnoc(
      accepted: seq<Instant>, stamp: Instant, cutoff: Instant, maxCreations: nat, window: nat)
    requires Ascending(accepted) && Spread(accepted, maxCreations, window)
    requires |KeepSince(accepted, cutoff)| < maxCreations && cutoff + window <= stamp
    ensures Spread(accepted + [stamp], maxCreations, window)
  {
    var i := |accepted| - maxCreations;
    if i >= 0 && accepted[i] >= cutoff {
      KeptSuffix(accepted, cutoff, i);
    }
  }

  /** Before the first whole window has passed nothing is ever evicted. */
  lemma {:induction false} EarlySpread(accepted: seq<Instant>, stamp: Instant, maxCreations: nat, window: nat)
    requires Spread(accepted, maxCreations, window) && |KeepSince(accepted, 0)| < maxCreations
    ensures Spread(accepted + [stamp], maxCreations, window)
  {
    KeepSinceAll(accepted, 0);
  }

  lemma {:induction false} RecordKeepsSpread(
      accepted: seq<Instant>, now: Instant, stamp: Instant, maxCreations: nat, window: nat)
    requires Ascending(accepted) && Spread(accepted, maxCreations, window) && now <= stamp
    requires |KeepSince(accepted, Cutoff(window, now))| < maxCreations
    ensures Spread(accepted + [stamp], maxCreations, window)
  {
    if now < window {
      EarlySpread(accepted, stamp, maxCreations, window);
    } else {
      SpreadSnoc(accepted, stamp, now - window, maxCreations, window);
    }
  }

  lemma {:induction false} AcceptedAreSpread(ops: seq<Op>, maxCreations: nat, window: nat)
    requires Clocked(ops)
    ensures Spread(DoAll(ops, maxCreations, window).accepted, maxCreations, window)
  {
    if ops != [] {
      var front, op := ops[..|ops| - 1], ops[|ops| - 1];
      LastIsClocked(ops);
      AcceptedAreSpread(front, maxCreations, window);
      AcceptedAscend(front, Start(op), maxCreations, window);
      var accepted := DoAll(front, maxCreations, window).accepted;
      assert ops == front + [op];
      if op.Record? {
        RecordFromAccepted(front, op, maxCreations, window);
        if |KeepSince(accepted, Cutoff(window, op.now))| < maxCreations {
          RecordKeepsSpread(accepted, op.now, op.stamp, maxCreations, window);
        }
      }
    }
  }

  /** How many accepted times fall into the closed interval from `from` to `to`. */
  function InInterval(accepted: seq<Instant>, from: Instant, to: Instant): nat {
    if accepted == [] then 0
    else
      InInterval(accepted[..|accepted| - 1], from, to) +
      (if from <= accepted[|accepted| - 1] <= to then 1 else 0)
  }

  /** In ascending times, those of an interval are neighbours. */
  lemma {:induction false} IntervalIsContiguous(accepted: seq<Instant>, from: Instant, to: Instant)
      returns (i: nat)
    requires Ascending(accepted) && InInterval(accepted, from, to) > 0
    ensures i + InInterval(accepted, from, to) <= |accepted|
    ensures from <= accepted[i] && accepted[i + InInterval(accepted, from, to) - 1] <= to
  {
    var n := |accepted| - 1;
    var front := accepted[..n];
    var count := InInterval(front, from, to);
    if count > 0 {
      i := IntervalIsContiguous(front, from, to);
      if from <= accepted[n] <= to {
        assert accepted[i] <= accepted[n - count];
        i := n - count;
      }
    } else {
      i := n;
    }
  }

  /** Which of them. */
  ghost function PlacesIn(accepted: seq<Instant>, from: Instant, to: Instant): set<nat> {
    set k: nat | k < |accepted| && from <= accepted[k] <= to
  }

  /** Some of them: positions whose times lie in an interval. */
  ghost predicate AreInside(accepted: seq<Instant>, places: set<nat>, from: Instant, to: Instant) {
    forall k :: k in places ==> k < |accepted| && from <= accepted[k] <= to
  }

  lemma {:induction false} IntervalCountsPlaces(accepted: seq<Instant>, from: Instant, to: Instant)
    ensures |PlacesIn(accepted, from, to)| == InInterval(accepted, from, to)
  {
    if accepted == [] {
      assert PlacesIn(accepted, from, to) == {};
    } else {
      var n := |accepted| - 1;
      IntervalCountsPlaces(accepted[..n], from, to);
      var before := PlacesIn(accepted[..n], from, to);
      assert PlacesIn(accepted, from, to) == before + (if from <= accepted[n] <= to then {n} else {});
    }
  }

  /** Over any run with a clock that never goes back, every closed interval as long as
      the window holds at most `maxCreations` accepted creations; so between any one and the
      one `maxCreations` later more than a window passes. */
  lemma {:induction false} SlidingWindow(ops: seq<Op>, maxCreations: nat, window: nat, from: Instant)
    requires Clocked(ops)
    ensures var accepted := DoAll(ops, maxCreations, window).accepted;
      && (forall places :: AreInside(accepted, places, from, from + window) ==> |places| <= maxCreations)
      && (forall i, j :: 0 <= i && j == i + maxCreations < |accepted| ==> accepted[j] > accepted[i] + window)
  {
    var accepted := DoAll(ops, maxCreations, window).accepted;
    if ops != [] {
      AcceptedAscend(ops, LastFinish(ops), maxCreations, window);
    }
    AcceptedAreSpread(ops, maxCreations, window);
    forall places | AreInside(accepted, places, from, from + window)
      ensures |places| <= maxCreations
    {
      FewPlaces(accepted, places, maxCreations, window, from);
    }
  }

  lemma {:induction false} FewPlaces(
      accepted: seq<Instant>, places: set<nat>, maxCreations: nat, window: nat, from: Instant)
    requires Ascending(accepted) && Spread(accepted, maxCreations, window)
    requires AreInside(accepted, places, from, from + window)
    ensures |places| <= maxCreations
  {
    SpreadBoundsIntervals(accepted, maxCreations, window, from);
    IntervalCountsPlaces(accepted, from, from + window);
    SubsetSize(places, PlacesIn(accepted, from, from + window));
  }

  lemma {:induction false} SpreadBoundsIntervals(
      accepted: seq<Instant>, maxCreations: nat, window: nat, from: Instant)
    requires Ascending(accepted) && Spread(accepted, maxCreations, window)
    ensures InInterval(accepted, from, from + window) <= maxCreations
  {
    var count := InInterval(accepted, from, from + window);
    if count > 0 {
      var i := IntervalIsContiguous(accepted, from, from + window);
      forall j | i + maxCreations <= j < |accepted| ensures accepted[j] > accepted[i] + window {
        assert accepted[i + maxCreations] > accepted[i] + window;
      }
    }
  }
}
