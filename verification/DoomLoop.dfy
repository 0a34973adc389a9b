/** Doom-loop detection: an agent that repeats one tool call, or a cycle of them. */
module DoomLoop {
  import opened Prelude

  datatype DoomLoopConfig = DoomLoopConfig(
    enabled: bool, consecutiveThreshold: nat,
    minCycleLength: nat, maxCycleLength: nat, cycleRepetitions: nat)

  /** Fingerprints stand for a tool name with canonical arguments and are only
      compared. */
  type Fingerprint = nat

  datatype Recorded = Recorded(fingerprint: Fingerprint, name: string)

  datatype DoomLoopType =
    | ConsecutiveDuplicate(toolName: string, count: nat)
    | Cycle(pattern: seq<string>, repetitions: nat)

  function Names(calls: seq<Recorded>): (names: seq<string>)
    ensures |names| == |calls|
    ensures forall i :: 0 <= i < |names| ==> names[i] == calls[i].name
  {
    if calls == [] then [] else [calls[0].name] + Names(calls[1..])
  }

  // ---- What is detected ----

  /** The last `n` calls are the same, and there is a last call. */
  ghost predicate EndsInDuplicates(h: seq<Recorded>, n: nat) {
    && 0 < |h| && n <= |h|
    && (forall k :: |h| - n <= k < |h| ==> h[k].fingerprint == h[|h| - 1].fingerprint)
  }

  /** From `from` on, every call is the same as the one `length` later. */
  ghost predicate PeriodicFrom(h: seq<Recorded>, from: nat, length: nat) {
    forall k :: from <= k && k + length < |h| ==> h[k].fingerprint == h[k + length].fingerprint
  }

  function Span(length: nat, repetitions: nat): nat {
    length * (repetitions + 1)
  }

  /** The history ends in `repetitions + 1` rounds of a cycle of this length. */
  ghost predicate EndsInCycle(h: seq<Recorded>, length: nat, repetitions: nat) {
    && Span(length, repetitions) <= |h|
    && PeriodicFrom(h, |h| - Span(length, repetitions), length)
  }

  /** The length is in range and the shortest that the history cycles with. */
  ghost predicate IsDetectedCycle(h: seq<Recorded>, c: DoomLoopConfig, length: nat) {
    && c.minCycleLength <= length <= c.maxCycleLength && EndsInCycle(h, length, c.cycleRepetitions)
    && (forall l :: c.minCycleLength <= l < length ==> !EndsInCycle(h, l, c.cycleRepetitions))
  }

  ghost predicate NoCycle(h: seq<Recorded>, c: DoomLoopConfig) {
    forall l :: c.minCycleLength <= l <= c.maxCycleLength ==> !EndsInCycle(h, l, c.cycleRepetitions)
  }

  /** The check of one round against the first, as far as `rep` rounds. */
  ghost predicate RoundsMatch(h: seq<Recorded>, start: nat, length: nat, rounds: nat)
    requires start + Span(length, rounds) <= |h|
  {
    forall rep, i :: 1 <= rep <= rounds && 0 <= i < length ==> RoundAt(h, start, length, rep, i)
  }

  ghost predicate RoundAt(h: seq<Recorded>, start: nat, length: nat, rep: nat, i: nat) {
    && start + rep * length + i < |h| && start + i < |h|
    && h[start + rep * length + i].fingerprint == h[start + i].fingerprint
  }

  lemma {:induction false} RoundInside(length: nat, rounds: nat, rep: nat, i: nat)
    requires rep <= rounds && i < length
    ensures rep * length + i < Span(length, rounds)
  {
    assert (rounds - rep) * length >= 0;
    assert Span(length, rounds) == rounds * length + length;
    assert rounds * length == rep * length + (rounds - rep) * length;
  }

  /** Every position inside the span is some place of some round. */
  lemma {:induction false} PlaceOf(length: nat, rounds: nat, k: nat) returns (rep: nat, i: nat)
    requires k < Span(length, rounds)
    ensures length > 0 && k == rep * length + i && i < length && rep <= rounds
  {
    rep, i := k / length, k % length;
    assert length * rep <= k;
    CancelLess(length, rep, rounds + 1);
  }

  /** All rounds equal the first exactly when the span has the period. */
  lemma {:induction false} RoundsArePeriod(h: seq<Recorded>, length: nat, rounds: nat)
    requires Span(length, rounds) <= |h|
    ensures RoundsMatch(h, |h| - Span(length, rounds), length, rounds) <==> EndsInCycle(h, length, rounds)
  {
    var start := |h| - Span(length, rounds);
    if RoundsMatch(h, start, length, rounds) {
      forall k | start <= k && k + length < |h| ensures h[k].fingerprint == h[k + length].fingerprint {
        var rep, i := PlaceOf(length, rounds, k + length - start);
        PreviousRound(length, rep, i, k - start);
        assert RoundAt(h, start, length, rep, i);
        assert rep > 1 ==> RoundAt(h, start, length, rep - 1, i);
      }
    }
    if EndsInCycle(h, length, rounds) {
      forall rep, i | 1 <= rep <= rounds && 0 <= i < length ensures RoundAt(h, start, length, rep, i) {
        PeriodReaches(h, start, length, rounds, rep, i);
      }
    }
  }

  lemma {:induction false} PreviousRound(length: nat, rep: nat, i: nat, k: nat)
    requires i < length && k + length == rep * length + i
    ensures rep >= 1 && k == (rep - 1) * length + i
  {
    assert rep * length == (rep - 1) * length + length;
  }

  lemma {:induction false} PeriodReaches(
      h: seq<Recorded>, start: nat, length: nat, rounds: nat, rep: nat, i: nat)
    requires start + Span(length, rounds) == |h| && PeriodicFrom(h, start, length)
    requires rep <= rounds && i < length
    ensures RoundAt(h, start, length, rep, i)
    decreases rep
  {
    RoundInside(length, rounds, rep, i);
    if rep > 0 {
      PeriodReaches(h, start, length, rounds, rep - 1, i);
      assert rep * length == (rep - 1) * length + length;
      assert h[start + (rep - 1) * length + i].fingerprint == h[start + (rep - 1) * length + i + length].fingerprint;
    }
  }

  class DoomLoopDetector {
    const config: DoomLoopConfig
    var history: seq<Recorded>

    constructor (config: DoomLoopConfig)
      ensures this.config == config && history == []
    {
      this.config, history := config, [];
    }

    /** Fires exactly when the last calls, as many as the threshold, are the same. */
    method CheckConsecutiveDuplicate() returns (found: Option<DoomLoopType>)
      ensures found == if EndsInDuplicates(history, config.consecutiveThreshold)
        then Some(ConsecutiveDuplicate(history[|history| - 1].name, config.consecutiveThreshold)) else None
    {
      var threshold := config.consecutiveThreshold;
      if |history| < threshold || |history| == 0 {
        return None;
      }
      var last := history[|history| - 1];
      var i := 0;
      while i < threshold
        invariant 0 <= i <= threshold
        invariant forall k :: |history| - i <= k < |history| ==> history[k].fingerprint == last.fingerprint
      {
        if history[|history| - 1 - i].fingerprint != last.fingerprint {
          return None;
        }
        i := i + 1;
      }
      found := Some(ConsecutiveDuplicate(last.name, threshold));
    }

    /** Compares every later round with the first one. */
    method PatternRepeats(start: nat, cycleLen: nat, repetitions: nat) returns (matches: bool)
      requires start + Span(cycleLen, repetitions) == |history|
      ensures matches <==> RoundsMatch(history, start, cycleLen, repetitions)
    {
      matches := true;
      for rep := 1 to repetitions + 1
        invariant matches
        invariant forall r, i :: 1 <= r < rep && 0 <= i < cycleLen ==> RoundAt(history, start, cycleLen, r, i)
      {
        for i := 0 to cycleLen
          invariant forall j :: 0 <= j < i ==> RoundAt(history, start, cycleLen, rep, j)
        {
          RoundInside(cycleLen, repetitions, rep, i);
          RoundInside(cycleLen, repetitions, 0, i);
          if history[start + rep * cycleLen + i].fingerprint != history[start + i].fingerprint {
            assert !RoundAt(history, start, cycleLen, rep, i);
            return false;
          }
        }
      }
    }

    /** Reports the shortest cycle in range that the history ends in, and only that. */
    method CheckCycle() returns (found: Option<DoomLoopType>)
      ensures found.None? ==> NoCycle(history, config)
      ensures found.Some? ==>
        exists length :: IsDetectedCycle(history, config, length) && IsReport(found.value, history, length, config)
    {
      var minLen, maxLen, repetitions := config.minCycleLength, config.maxCycleLength, config.cycleRepetitions;
      if |history| < Span(minLen, repetitions) {
        forall l | minLen <= l ensures Span(l, repetitions) > |history| {
          LongerSpan(minLen, l, repetitions);
        }
        return None;
      }
      var cycleLen := minLen;
      while cycleLen <= maxLen
        invariant minLen <= cycleLen
        invariant forall l :: minLen <= l < cycleLen && l <= maxLen ==> !EndsInCycle(history, l, repetitions)
        decreases maxLen + 1 - cycleLen
      {
        var requiredLen := Span(cycleLen, repetitions);
        if |history| < requiredLen {
          cycleLen := cycleLen + 1;
          continue;
        }
        var patternStart := |history| - requiredLen;
        var matches := PatternRepeats(patternStart, cycleLen, repetitions);
        RoundsArePeriod(history, cycleLen, repetitions);
        if matches {
          PatternFits(cycleLen, repetitions);
          var names := Names(history[patternStart..patternStart + cycleLen]);
          assert IsDetectedCycle(history, config, cycleLen);
          return Some(Cycle(names, repetitions + 1));
        }
        cycleLen := cycleLen + 1;
      }
      found := None;
    }

    /** Records a call and looks for both kinds of loop, duplicates first. */
    method RecordAndCheck(call: Recorded) returns (found: Option<DoomLoopType>)
      modifies this
      ensures !config.enabled ==> history == old(history) && found.None?
      ensures config.enabled ==>
        && history == old(history) + [call]
        && (found.Some? <==> IsLoop(history, config))
        && (EndsInDuplicates(history, config.consecutiveThreshold) ==>
              found == Some(ConsecutiveDuplicate(call.name, config.consecutiveThreshold)))
        && (found.Some? && !EndsInDuplicates(history, config.consecutiveThreshold) ==>
              exists length ::
                IsDetectedCycle(history, config, length) && IsReport(found.value, history, length, config))
    {
      if !config.enabled {
        return None;
      }
      history := history + [call];
      found := CheckConsecutiveDuplicate();
      if found.Some? {
        return;
      }
      found := CheckCycle();
    }

    method Clear()
      modifies this
      ensures history == []
    {
      history := [];
    }
  }

  /** Something is reported. */
  ghost predicate IsLoop(h: seq<Recorded>, c: DoomLoopConfig) {
    EndsInDuplicates(h, c.consecutiveThreshold) || !NoCycle(h, c)
  }

  /** The report names the first round and counts the rounds. */
  ghost predicate IsReport(found: DoomLoopType, h: seq<Recorded>, length: nat, c: DoomLoopConfig) {
    var start := |h| - Span(length, c.cycleRepetitions);
    0 <= start && start + length <= |h| && found == Cycle(Names(h[start..start + length]), c.cycleRepetitions + 1)
  }

  lemma {:induction false} PatternFits(length: nat, repetitions: nat)
    ensures length <= Span(length, repetitions)
  {
    assert Span(length, repetitions) == length * repetitions + length;
    assert length * repetitions >= 0;
  }

  lemma {:induction false} LongerSpan(a: nat, b: nat, repetitions: nat)
    requires a <= b
    ensures Span(a, repetitions) <= Span(b, repetitions)
  {
    assert Span(b, repetitions) == Span(a, repetitions) + (b - a) * (repetitions + 1);
    assert (b - a) * (repetitions + 1) >= 0;
  }

  /** Exactly one length can be reported. */
  lemma {:induction false} DetectedCycleIsUnique(h: seq<Recorded>, c: DoomLoopConfig, a: nat, b: nat)
    requires IsDetectedCycle(h, c, a) && IsDetectedCycle(h, c, b)
    ensures a == b
  {
    assert EndsInCycle(h, a, c.cycleRepetitions) && EndsInCycle(h, b, c.cycleRepetitions);
  }

  /** The deadline: once a history has been periodic from position `p` on, with a
      length in range, for all rounds, the detector reports at every further call. */
  lemma {:induction false} DetectedInTime(h: seq<Recorded>, c: DoomLoopConfig, p: nat, length: nat)
    requires c.minCycleLength <= length <= c.maxCycleLength
    requires PeriodicFrom(h, p, length) && |h| >= p + length * (c.cycleRepetitions + 1)
    ensures IsLoop(h, c) && !NoCycle(h, c)
  {
    assert EndsInCycle(h, length, c.cycleRepetitions);
  }

  /** In particular a single repeated call is reported as a duplicate as soon as it has
      been made as often as the threshold says. */
  lemma {:induction false} RepeatedInTime(h: seq<Recorded>, c: DoomLoopConfig, p: nat)
    requires PeriodicFrom(h, p, 1) && h != [] && |h| >= p + c.consecutiveThreshold
    ensures EndsInDuplicates(h, c.consecutiveThreshold)
  {
    forall k | |h| - c.consecutiveThreshold <= k < |h|
      ensures h[k].fingerprint == h[|h| - 1].fingerprint
    {
      SameToTheEnd(h, p, k);
    }
  }

  lemma {:induction false} SameToTheEnd(h: seq<Recorded>, p: nat, k: nat)
    requires PeriodicFrom(h, p, 1) && p <= k < |h|
    ensures h[k].fingerprint == h[|h| - 1].fingerprint
    decreases |h| - k
  {
    if k + 1 < |h| {
      assert h[k].fingerprint == h[k + 1].fingerprint;
      SameToTheEnd(h, p, k + 1);
    }
  }
}
