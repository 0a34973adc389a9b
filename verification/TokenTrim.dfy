/** Trimming a history to a token budget: the newest records that fit, whatever a
    record weighs. */
module TokenTrim {
  import opened Prelude
  import opened HistoryFilter

  /** The longest suffix within the budget; the last record stays even when it
      alone is too heavy. */
  function Trimmed<T>(records: seq<T>, maxTokens: nat, w: T -> nat): seq<T> {
    if |records| <= 1 || Weight(records, w) <= maxTokens then records
    else Trimmed(records[1..], maxTokens, w)
  }

  /** Walks from the newest record back until the next one would not fit. */
  method TrimByTokens<T>(records: seq<T>, maxTokens: nat, w: T -> nat) returns (kept: seq<T>)
    ensures kept == Trimmed(records, maxTokens, w)
  {
    if records == [] {
      return records;
    }
    var total := Weight(records, w);
    if total <= maxTokens {
      return records;
    }
    kept := [];
    var tokens: nat := 0;
    var i := |records|;
    while i > 0
      invariant 0 <= i <= |records|
      invariant kept == records[i..] && tokens == Weight(kept, w)
      invariant i < |records| ==> i == |records| - 1 || tokens <= maxTokens
      decreases i
    {
      var recTokens := w(records[i - 1]);
      if tokens + recTokens > maxTokens && kept != [] {
        break;
      }
      assert records[i - 1..] == [records[i - 1]] + records[i..];
      i := i - 1;
      tokens := tokens + recTokens;
      kept := [records[i]] + kept;
    }
    if i > 0 {
      assert records[i - 1..][0] == records[i - 1] && records[i - 1..][1..] == records[i..];
    }
    TrimmedAt(records, maxTokens, w, i);
  }

  /** Where a trim must start. */
  ghost predicate IsTrimPoint<T>(records: seq<T>, maxTokens: nat, w: T -> nat, k: nat) {
    && k <= |records| && (records != [] ==> k < |records|)
    && (Weight(records[k..], w) <= maxTokens || k + 1 >= |records|)
    && (forall j :: 0 <= j < k ==> Weight(records[j..], w) > maxTokens)
  }

  /** A cut that fits, with one record more not fitting, is where the trim starts. */
  lemma {:induction false} TrimmedAt<T>(records: seq<T>, maxTokens: nat, w: T -> nat, k: nat)
    requires k <= |records| && (records != [] ==> k < |records|)
    requires Weight(records[k..], w) <= maxTokens || k + 1 >= |records|
    requires k > 0 ==> Weight(records[k - 1..], w) > maxTokens
    ensures Trimmed(records, maxTokens, w) == records[k..]
  {
    if k > 0 {
      SuffixWeight(records, 0, k - 1, w);
      assert records[0..] == records;
      assert records[1..][k - 1..] == records[k..];
      assert k > 1 ==> records[1..][k - 2..] == records[k - 1..];
      TrimmedAt(records[1..], maxTokens, w, k - 1);
    } else {
      assert records[0..] == records;
    }
  }

  /** The trim is the longest fitting suffix, and only it is. */
  lemma {:induction false} TrimmedIsLongestFit<T>(records: seq<T>, maxTokens: nat, w: T -> nat, k: nat)
    requires k <= |records|
    ensures IsTrimPoint(records, maxTokens, w, k) <==>
            (Trimmed(records, maxTokens, w) == records[k..] && (records != [] ==> k < |records|))
  {
    if IsTrimPoint(records, maxTokens, w, k) {
      TrimmedAt(records, maxTokens, w, k);
    }
    if Trimmed(records, maxTokens, w) == records[k..] && (records != [] ==> k < |records|) {
      TrimStartsSomewhere(records, maxTokens, w, k);
    }
  }

  lemma {:induction false} TrimStartsSomewhere<T>(records: seq<T>, maxTokens: nat, w: T -> nat, k: nat)
    requires k <= |records| && (records != [] ==> k < |records|)
    requires Trimmed(records, maxTokens, w) == records[k..]
    ensures IsTrimPoint(records, maxTokens, w, k)
  {
    assert records[0..] == records;
    if |records| <= 1 || Weight(records, w) <= maxTokens {
      assert |records[k..]| == |records|;
    } else {
      TrimmedNoLonger(records[1..], maxTokens, w);
      assert |Trimmed(records, maxTokens, w)| < |records|;
      assert k > 0;
      assert records[1..][k - 1..] == records[k..];
      TrimStartsSomewhere(records[1..], maxTokens, w, k - 1);
      forall j | 0 <= j < k ensures Weight(records[j..], w) > maxTokens {
        if j > 0 { assert records[1..][j - 1..] == records[j..]; }
      }
    }
  }

  lemma {:induction false} TrimmedNoLonger<T>(records: seq<T>, maxTokens: nat, w: T -> nat)
    ensures |Trimmed(records, maxTokens, w)| <= |records|
    ensures records != [] ==> Trimmed(records, maxTokens, w) != []
  {
    if !(|records| <= 1 || Weight(records, w) <= maxTokens) {
      TrimmedNoLonger(records[1..], maxTokens, w);
    }
  }

  /** Trimming twice is trimming once by the smaller budget. */
  lemma {:induction false} TrimsCompose<T>(records: seq<T>, a: nat, b: nat, w: T -> nat)
    ensures Trimmed(Trimmed(records, a, w), b, w) == Trimmed(records, Min(a, b), w)
  {
    if !(|records| <= 1 || Weight(records, w) <= a) {
      TrimsCompose(records[1..], a, b, w);
    } else if !(|records| <= 1 || Weight(records, w) <= b) {
      FitsStaysFit(records, a, b, w);
    }
  }

  /** Inside the larger budget only the smaller one trims. */
  lemma {:induction false} FitsStaysFit<T>(records: seq<T>, a: nat, b: nat, w: T -> nat)
    requires |records| <= 1 || Weight(records, w) <= a
    ensures Trimmed(records, b, w) == Trimmed(records, Min(a, b), w)
  {
    if |records| > 1 && Weight(records, w) > b {
      SuffixWeight(records, 0, 1, w);
      assert records[0..] == records;
      FitsStaysFit(records[1..], a, b, w);
    }
  }

  lemma {:induction false} TrimmedIsSuffix<T>(records: seq<T>, maxTokens: nat, w: T -> nat) returns (k: nat)
    ensures k <= |records| && Trimmed(records, maxTokens, w) == records[k..]
  {
    if |records| <= 1 || Weight(records, w) <= maxTokens {
      k := 0;
    } else {
      var j := TrimmedIsSuffix(records[1..], maxTokens, w);
      k := j + 1;
      assert records[1..][j..] == records[k..];
    }
  }

  /** The history as the prompt gets it: filtered, then trimmed. */
  ghost function PromptHistory(
      rs: seq<MessageRecord>, freshId: Uuid, maxTokens: nat, w: MessageRecord -> nat): seq<MessageRecord>
  {
    Trimmed(Filtered(rs, freshId), maxTokens, w)
  }

  /** Dropping records in front keeps the latest pair, or leaves no pair. */
  lemma {:induction false} LatestOfSuffix(rs: seq<MessageRecord>, k: nat)
    requires k <= |rs|
    ensures Latest(rs).NotFound? ==> Latest(rs[k..]).NotFound?
    ensures Latest(rs).Pair? ==>
      if k <= Latest(rs).compaction
      then Latest(rs[k..]) == Pair(Latest(rs).compaction - k, Latest(rs).summary - k)
      else Latest(rs[k..]).NotFound?
  {
    var cut := rs[k..];
    assert forall d :: 0 <= d < |cut| ==> cut[d] == rs[k + d];
    if NoPair(rs) {
      LatestIsNone(rs);
      PairsOfSuffix(rs, k, 0);
      LatestIsNone(cut);
    } else {
      var c, s := HasLatestPair(rs);
      LatestIsPair(rs, c, s);
      PairsOfSuffix(rs, k, c + 1);
      if k <= c {
        LatestIsPair(cut, c - k, s - k);
      } else {
        LatestIsNone(cut);
      }
    }
  }

  /** Where the history has no pair from `from` on, its suffix has none there either. */
  lemma {:induction false} PairsOfSuffix(rs: seq<MessageRecord>, k: nat, from: nat)
    requires k <= |rs|
    requires forall d :: from <= d && d + 1 < |rs| ==> !(rs[d].isCompaction && rs[d + 1].isSummary)
    ensures forall d :: from - k <= d && 0 <= d && d + 1 < |rs| - k ==>
      !(rs[k..][d].isCompaction && rs[k..][d + 1].isSummary)
  {
    forall d | from - k <= d && 0 <= d && d + 1 < |rs| - k
      ensures !(rs[k..][d].isCompaction && rs[k..][d + 1].isSummary)
    {
      assert rs[k..][d] == rs[k + d] && rs[k..][d + 1] == rs[k + d + 1];
    }
  }

  /** A history the filter leaves alone: no pair, or a compaction that names no tail. */
  ghost predicate Settled(rs: seq<MessageRecord>) {
    Latest(rs).Pair? ==> Latest(rs).compaction < |rs| && TailStartId(rs[Latest(rs).compaction]).None?
  }

  lemma {:induction false} FilteredIsSettled(rs: seq<MessageRecord>, freshId: Uuid)
    ensures Settled(Filtered(rs, freshId))
  {
    if NoPair(rs) {
      LatestIsNone(rs);
    } else {
      var c, s := HasLatestPair(rs);
      LatestIsPair(rs, c, s);
      FilteredHasNoPair(rs, freshId, c, s);
      if TailStartId(rs[c]).Some? {
        LatestIsNone(Filtered(rs, freshId));
      }
    }
  }

  lemma {:induction false} SuffixIsSettled(rs: seq<MessageRecord>, k: nat)
    requires k <= |rs| && Settled(rs)
    ensures Settled(rs[k..])
  {
    LatestOfSuffix(rs, k);
  }

  lemma SettledStays(rs: seq<MessageRecord>, freshId: Uuid)
    requires Settled(rs)
    ensures Filtered(rs, freshId) == rs
  {
  }

  /** A prompt history put through the pipeline again comes out unchanged. */
  lemma {:induction false} PromptHistoryIsStable(
      rs: seq<MessageRecord>, id1: Uuid, id2: Uuid, maxTokens: nat, w: MessageRecord -> nat)
    ensures var history := PromptHistory(rs, id1, maxTokens, w);
      PromptHistory(history, id2, maxTokens, w) == history
  {
    var filtered := Filtered(rs, id1);
    var k := TrimmedIsSuffix(filtered, maxTokens, w);
    FilteredIsSettled(rs, id1);
    SuffixIsSettled(filtered, k);
    SettledStays(filtered[k..], id2);
    TrimsCompose(filtered, maxTokens, maxTokens, w);
  }
}
