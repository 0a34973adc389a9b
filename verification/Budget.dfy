/** Token budgets: the effective window, the three thresholds, and the pressure
    level. Token counts are machine words with saturating arithmetic. */
module Budget {
  import opened Prelude

  type usize = u64
  const USIZE_MAX: usize := U64_MAX

  const DEFAULT_WARNING_BUFFER: usize := 20_000
  const DEFAULT_COMPACT_BUFFER: usize := 13_000
  const DEFAULT_BLOCKING_BUFFER: usize := 3_000
  const MIN_EFFECTIVE_WINDOW: usize := 1_000
  const MIN_PROMPT_BUDGET: usize := 8_000

  datatype PressureLevel = Normal | Warning | Compact | Blocking

  datatype TokenBudget = TokenBudget(
    contextWindow: usize, reservedOutput: usize,
    warningBuffer: usize, compactBuffer: usize, blockingBuffer: usize)

  datatype BudgetThresholds = BudgetThresholds(
    effectiveWindow: usize, warningThreshold: usize, compactThreshold: usize, blockingThreshold: usize)

  datatype BudgetState = BudgetState(
    estimatedTokens: usize, thresholds: BudgetThresholds, percentUsed: nat, percentRemaining: nat,
    pressure: PressureLevel, isAboveWarning: bool, isAboveCompact: bool, isAboveBlocking: bool)

  function SaturatingSub(a: usize, b: usize): usize {
    if a >= b then a - b else 0
  }

  function SaturatingTimes100(a: usize): usize {
    if a * 100 > USIZE_MAX then USIZE_MAX else a * 100
  }

  /** A budget with the default buffers. */
  function New(contextWindow: usize, reservedOutput: usize): TokenBudget {
    TokenBudget(Max(contextWindow, MIN_EFFECTIVE_WINDOW), reservedOutput,
      DEFAULT_WARNING_BUFFER, DEFAULT_COMPACT_BUFFER, DEFAULT_BLOCKING_BUFFER)
  }

  function EffectiveReservedOutput(contextWindow: usize, reservedOutput: usize): usize {
    var window := Max(contextWindow, 1);
    var minPrompt := Min(Max(window / 2, 1), MIN_PROMPT_BUDGET);
    var maxReserve := SaturatingSub(window, minPrompt);
    Min(reservedOutput, maxReserve)
  }

  function EffectiveContextWindow(contextWindow: usize, reservedOutput: usize): usize {
    Max(SaturatingSub(contextWindow, EffectiveReservedOutput(contextWindow, reservedOutput)), MIN_EFFECTIVE_WINDOW)
  }

  function Thresholds(b: TokenBudget): BudgetThresholds {
    var effective := EffectiveContextWindow(b.contextWindow, b.reservedOutput);
    var autoBuffer := Min(b.compactBuffer, effective / 3);
    var warnBuffer := Min(b.warningBuffer, effective / 3);
    var blockBuffer := Max(Min(b.blockingBuffer, effective / 10), 1);
    var compact := Max(SaturatingSub(effective, autoBuffer), 1);
    var warning := Min(Max(SaturatingSub(compact, warnBuffer), 1), compact);
    var blocking := Min(Max(SaturatingSub(effective, blockBuffer), compact), effective);
    BudgetThresholds(effective, warning, compact, blocking)
  }

  function PercentUsed(tokens: usize, window: usize): (percent: nat)
    ensures percent <= 100
  {
    if window == 0 then 100 else Min(SaturatingTimes100(tokens) / window, 100)
  }

  function Pressure(tokens: usize, t: BudgetThresholds): PressureLevel {
    if tokens >= t.blockingThreshold then Blocking
    else if tokens >= t.compactThreshold then Compact
    else if tokens >= t.warningThreshold then Warning
    else Normal
  }

  function StateFor(tokens: usize, b: TokenBudget): BudgetState {
    var t := Thresholds(b);
    var percentUsed := PercentUsed(tokens, t.effectiveWindow);
    BudgetState(tokens, t, percentUsed, 100 - percentUsed, Pressure(tokens, t),
      tokens >= t.warningThreshold, tokens >= t.compactThreshold, tokens >= t.blockingThreshold)
  }

  function RemainingBeforeBlocking(estimatedTokens: usize, b: TokenBudget): usize {
    SaturatingSub(Thresholds(b).blockingThreshold, estimatedTokens)
  }

  // ---- Laws ----

  /** For every budget whatever, the thresholds never cross, and the prompt keeps at
      least half the window, up to the minimal prompt budget. */
  lemma {:induction false} ThresholdsNeverCross(b: TokenBudget)
    ensures var t := Thresholds(b);
      && 1 <= t.warningThreshold <= t.compactThreshold <= t.blockingThreshold <= t.effectiveWindow
      && t.effectiveWindow >= Max(MIN_EFFECTIVE_WINDOW, Min(b.contextWindow / 2, MIN_PROMPT_BUDGET))
      && t.effectiveWindow <= Max(MIN_EFFECTIVE_WINDOW, b.contextWindow)
  {
  }

  /** The reservation for output is taken in full unless it would eat into the minimal
      prompt, and each buffer is kept in full unless it takes more than its share of
      the window. */
  lemma {:induction false} BuffersAreHonoured(b: TokenBudget)
    ensures var t := Thresholds(b);
      var window := t.effectiveWindow;
      && (b.contextWindow >= MIN_EFFECTIVE_WINDOW
          && b.reservedOutput + Min(b.contextWindow / 2, MIN_PROMPT_BUDGET) <= b.contextWindow ==>
            window == Max(b.contextWindow - b.reservedOutput, MIN_EFFECTIVE_WINDOW))
      && (b.contextWindow >= MIN_EFFECTIVE_WINDOW
          && b.reservedOutput + Min(b.contextWindow / 2, MIN_PROMPT_BUDGET) > b.contextWindow ==>
            window == Max(Min(b.contextWindow / 2, MIN_PROMPT_BUDGET), MIN_EFFECTIVE_WINDOW))
      && (b.contextWindow < MIN_EFFECTIVE_WINDOW ==> window == MIN_EFFECTIVE_WINDOW)
      && window - t.compactThreshold == Min(b.compactBuffer, window / 3)
      && t.compactThreshold - t.warningThreshold == Min(b.warningBuffer, window / 3)
      && (1 <= b.blockingBuffer <= Min(b.compactBuffer, window / 10) ==>
            window - t.blockingThreshold == b.blockingBuffer)
      && (b.blockingBuffer > window / 10 && b.compactBuffer >= window / 10 ==>
            window - t.blockingThreshold == window / 10)
      && (b.compactBuffer < Min(b.blockingBuffer, window / 10) ==> t.blockingThreshold == t.compactThreshold)
      && (b.blockingBuffer == 0 && b.compactBuffer > 0 ==> window - t.blockingThreshold == 1)
  {
  }

  /** The reservation is cut to what the minimal prompt leaves; a window of one or none has
      nothing to reserve. */
  lemma {:induction false} ReservedExactly(contextWindow: usize, reservedOutput: usize)
    ensures contextWindow <= 1 ==> EffectiveReservedOutput(contextWindow, reservedOutput) == 0
    ensures contextWindow > 1 ==>
      EffectiveReservedOutput(contextWindow, reservedOutput)
      == Min(reservedOutput, contextWindow - Min(contextWindow / 2, 8000))
  {
  }

  /** A new budget has the given reservation, a window of at least a thousand and the default
      buffers; what the thresholds of a common one are. */
  lemma {:induction false} NewBudgets(contextWindow: usize, reservedOutput: usize)
    ensures var b := New(contextWindow, reservedOutput);
      && b.contextWindow == (if contextWindow < 1000 then 1000 else contextWindow)
      && b.reservedOutput == reservedOutput
      && b.warningBuffer == 20000 && b.compactBuffer == 13000 && b.blockingBuffer == 3000
    ensures reservedOutput + 8000 <= contextWindow && contextWindow >= 16000 ==>
      Thresholds(New(contextWindow, reservedOutput)).effectiveWindow == contextWindow - reservedOutput
    ensures Thresholds(New(200000, 8000)) == BudgetThresholds(192000, 159000, 179000, 189000)
    ensures Thresholds(New(0, 5)) == BudgetThresholds(1000, 334, 667, 900)
  {
  }

  /** The three flags and the two percentages never contradict the level. */
  lemma {:induction false} FlagsFollowPressure(b: TokenBudget, tokens: usize)
    ensures var st := StateFor(tokens, b);
      && (st.isAboveWarning <==> Level(st.pressure) >= Level(Warning))
      && (st.isAboveCompact <==> Level(st.pressure) >= Level(Compact))
      && (st.isAboveBlocking <==> st.pressure == Blocking)
      && st.percentUsed + st.percentRemaining == 100
      && st.estimatedTokens == tokens && st.thresholds == Thresholds(b)
  {
    ThresholdsNeverCross(b);
  }

  /** Budgets with the default buffers separate all four levels, and each level is
      reached at exactly its threshold. */
  lemma {:induction false} AllLevelsReachable(contextWindow: usize, reservedOutput: usize)
    ensures var b := New(contextWindow, reservedOutput);
      var t := Thresholds(b);
      && 1 <= t.warningThreshold < t.compactThreshold < t.blockingThreshold < t.effectiveWindow
      && StateFor(0, b).pressure == Normal
      && StateFor(t.warningThreshold - 1, b).pressure == Normal
      && StateFor(t.warningThreshold, b).pressure == StateFor(t.compactThreshold - 1, b).pressure == Warning
      && StateFor(t.compactThreshold, b).pressure == StateFor(t.blockingThreshold - 1, b).pressure == Compact
      && StateFor(t.blockingThreshold, b).pressure == Blocking
  {
    var effective := Thresholds(New(contextWindow, reservedOutput)).effectiveWindow;
    assert effective / 3 >= 333 && effective / 10 >= 100 && effective / 10 < effective / 3;
  }

  function Level(p: PressureLevel): nat {
    match p
    case Normal => 0
    case Warning => 1
    case Compact => 2
    case Blocking => 3
  }

  /** More tokens never mean less pressure. */
  lemma {:induction false} PressureIsMonotone(b: TokenBudget, few: usize, many: usize)
    requires few <= many
    ensures Level(StateFor(few, b).pressure) <= Level(StateFor(many, b).pressure)
    ensures RemainingBeforeBlocking(few, b) >= RemainingBeforeBlocking(many, b)
  {
  }

  /** Nothing is left before blocking exactly when the level is blocking. */
  lemma {:induction false} BlockingMeansNoRoom(b: TokenBudget, tokens: usize)
    ensures RemainingBeforeBlocking(tokens, b) == 0 <==> StateFor(tokens, b).pressure == Blocking
    ensures StateFor(tokens, b).pressure != Blocking ==>
      tokens + RemainingBeforeBlocking(tokens, b) == Thresholds(b).blockingThreshold
  {
    ThresholdsNeverCross(b);
  }

  /** The percentage of the window in use, without overflow. */
  ghost function TruePercent(tokens: usize, window: usize): nat
    requires window > 0
  {
    Min(tokens * 100 / window, 100)
  }

  /** The reported percentage is right for every token count exactly when a hundred
      windows fit the machine word: the product saturates. */
  lemma {:induction false} PercentExactIff(b: TokenBudget)
    ensures var window := Thresholds(b).effectiveWindow;
      window > 0 &&
      ((forall tokens: usize :: StateFor(tokens, b).percentUsed == TruePercent(tokens, window))
       <==> window * 100 <= USIZE_MAX)
  {
    ThresholdsNeverCross(b);
    var window := Thresholds(b).effectiveWindow;
    if window * 100 <= USIZE_MAX {
      forall tokens: usize ensures StateFor(tokens, b).percentUsed == TruePercent(tokens, window) {
        if tokens * 100 > USIZE_MAX {
          HundredIff(USIZE_MAX, window);
          HundredIff(tokens * 100, window);
        }
      }
    } else {
      HundredIff(USIZE_MAX, window);
      HundredIff(window * 100, window);
      assert StateFor(window, b).percentUsed != TruePercent(window, window);
    }
  }

  /** A budget whose percentage is wrong: the largest window there is. */
  lemma {:induction false} HugeWindowExample()
    ensures var b := New(USIZE_MAX, 0);
      StateFor(USIZE_MAX, b).percentUsed == 1 && TruePercent(USIZE_MAX, Thresholds(b).effectiveWindow) == 100
  {
    assert Thresholds(New(USIZE_MAX, 0)).effectiveWindow == USIZE_MAX;
    assert SaturatingTimes100(USIZE_MAX) == USIZE_MAX;
    HundredIff(USIZE_MAX * 100, USIZE_MAX);
    assert USIZE_MAX / USIZE_MAX == 1;
  }

  lemma {:induction false} HundredIff(n: nat, window: nat)
    requires window > 0
    ensures n / window >= 100 <==> n >= window * 100
  {
    var q := n / window;
    assert n == window * q + n % window;
    if n >= window * 100 {
      CancelLess(window, 100, q + 1);
    }
    if q >= 100 {
      assert window * q == window * 100 + window * (q - 100);
    }
  }
}
