/** Compaction in memory: dropping the oldest groups of messages to fit a budget,
    and replacing old messages by a summary. */
module Compaction {
  import opened Prelude
  import opened Messages
  import opened Budget

  datatype AutocompactReport = AutocompactReport(groupsDropped: nat, groupsKept: nat, tokensFreed: nat)

  datatype FullCompactReport = FullCompactReport(messagesReplaced: nat, tokensBefore: nat, tokensAfter: nat)

  /** A group of messages: where it starts and the indices in it. */
  datatype Group = Group(start: nat, indices: seq<nat>)

  /** Where groups start: at the beginning and at every user message. */
  ghost predicate IsGroupStart(ms: seq<Message>, k: nat) {
    k < |ms| && (k == 0 || ms[k].User?)
  }

  /** One group: consecutive indices, a user message at most in front. */
  ghost predicate IsGroup(ms: seq<Message>, g: Group, end: nat) {
    && g.start < end <= |ms| && IsGroupStart(ms, g.start)
    && |g.indices| == end - g.start
    && (forall i :: 0 <= i < |g.indices| ==> g.indices[i] == g.start + i)
    && (forall j :: g.start < j < end ==> !ms[j].User?)
  }

  ghost function EndOf(groups: seq<Group>, k: nat, end: nat): nat
    requires k < |groups|
  {
    if k + 1 < |groups| then groups[k + 1].start else end
  }

  ghost predicate GroupAt(ms: seq<Message>, groups: seq<Group>, k: nat, end: nat) {
    k < |groups| && IsGroup(ms, groups[k], EndOf(groups, k, end))
  }

  /** The groups cover the first `end` messages, each index once, in order. */
  ghost predicate Partition(ms: seq<Message>, groups: seq<Group>, end: nat) {
    && (groups == [] <==> end == 0)
    && (groups != [] ==> groups[0].start == 0)
    && (forall k :: 0 <= k < |groups| ==> GroupAt(ms, groups, k, end))
  }

  lemma {:induction false} NewGroup(ms: seq<Message>, groups: seq<Group>, i: nat)
    requires i < |ms| && Partition(ms, groups, i) && (i == 0 || ms[i].User?)
    ensures Partition(ms, groups + [Group(i, [i])], i + 1)
  {
    var after, end := groups + [Group(i, [i])], i + 1;
    forall k | 0 <= k < |after| ensures GroupAt(ms, after, k, end) {
      if k < |groups| {
        assert GroupAt(ms, groups, k, i);
      }
    }
  }

  lemma {:induction false} LongerGroup(ms: seq<Message>, groups: seq<Group>, g: Group, i: nat)
    requires i < |ms| && Partition(ms, groups + [g], i) && !ms[i].User?
    ensures Partition(ms, groups + [Group(g.start, g.indices + [i])], i + 1)
  {
    var before, after, end := groups + [g], groups + [Group(g.start, g.indices + [i])], i + 1;
    forall k | 0 <= k < |after| ensures GroupAt(ms, after, k, end) {
      assert GroupAt(ms, before, k, i);
    }
  }

  method SplitIntoGroups(ms: seq<Message>) returns (groups: seq<Group>)
    ensures Partition(ms, groups, |ms|)
  {
    groups := [];
    var currentStart: nat := 0;
    var current: seq<nat> := [];
    for i := 0 to |ms|
      invariant current == [] <==> i == 0
      invariant i == 0 ==> groups == [] && currentStart == 0
      invariant i > 0 ==> Partition(ms, groups + [Group(currentStart, current)], i)
    {
      ghost var known := if i == 0 then [] else groups + [Group(currentStart, current)];
      if ms[i].User? && current != [] {
        groups := groups + [Group(currentStart, current)];
        current := [];
        currentStart := i;
      }
      if current == [] {
        NewGroup(ms, known, i);
        assert [] + [i] == [i];
      } else {
        LongerGroup(ms, groups, Group(currentStart, current), i);
      }
      current := current + [i];
    }
    if current != [] {
      groups := groups + [Group(currentStart, current)];
    }
  }

  /** Where the kept messages start: the earliest group from which everything fits,
      or the last group. */
  ghost predicate IsKeepPoint(ms: seq<Message>, limit: nat, w: Message -> nat, k: nat) {
    && IsGroupStart(ms, k)
    && (Weight(ms[k..], w) <= limit || forall j :: k < j ==> !IsGroupStart(ms, j))
    && (forall j :: 0 <= j < k && IsGroupStart(ms, j) ==> Weight(ms[j..], w) > limit)
  }

  ghost predicate HasTwoGroups(ms: seq<Message>) {
    exists k :: k > 0 && IsGroupStart(ms, k)
  }

  lemma {:induction false} GroupStartsAreStarts(ms: seq<Message>, groups: seq<Group>, k: nat)
    requires Partition(ms, groups, |ms|) && IsGroupStart(ms, k)
    ensures exists g :: 0 <= g < |groups| && groups[g].start == k
  {
    var g := 0;
    assert GroupAt(ms, groups, 0, |ms|);
    while g + 1 < |groups| && groups[g + 1].start <= k
      invariant 0 <= g < |groups| && groups[g].start <= k
      decreases |groups| - g
    {
      g := g + 1;
    }
    assert GroupAt(ms, groups, g, |ms|);
  }

  lemma {:induction false} StartsIncrease(ms: seq<Message>, groups: seq<Group>, a: nat, b: nat)
    requires Partition(ms, groups, |ms|) && a < b < |groups|
    ensures groups[a].start < groups[b].start
    decreases b
  {
    assert GroupAt(ms, groups, b - 1, |ms|);
    if a < b - 1 {
      StartsIncrease(ms, groups, a, b - 1);
    }
  }

  /** The weight of the messages a group lists. */
  method GroupTokens(ms: seq<Message>, g: Group, ghost end: nat, w: Message -> nat) returns (tokens: nat)
    requires IsGroup(ms, g, end)
    ensures tokens == Weight(ms[g.start..end], w)
  {
    tokens := 0;
    for i := 0 to |g.indices|
      invariant tokens == Weight(ms[g.start..g.start + i], w)
    {
      var at := g.indices[i];
      assert ms[g.start..at + 1] == ms[g.start..at] + [ms[at]];
      WeightAppend(ms[g.start..at], [ms[at]], w);
      assert [ms[at]][1..] == [];
      tokens := tokens + w(ms[at]);
    }
  }

  /** Takes groups from the newest back while they fit, at least one. */
  method CountKept(ms: seq<Message>, groups: seq<Group>, limit: nat, w: Message -> nat) returns (kept: nat)
    requires Partition(ms, groups, |ms|) && groups != []
    ensures 1 <= kept <= |groups|
    ensures IsKeepPoint(ms, limit, w, groups[|groups| - kept].start)
  {
    var keptTokens: nat := 0;
    kept := 0;
    ghost var from: nat := |ms|;
    while kept < |groups|
      invariant 0 <= kept <= |groups|
      invariant from <= |ms| && keptTokens == Weight(ms[from..], w)
      invariant from == if kept == 0 then |ms| else groups[|groups| - kept].start
      invariant kept > 1 ==> keptTokens <= limit
      decreases |groups| - kept
    {
      var group := groups[|groups| - kept - 1];
      assert GroupAt(ms, groups, |groups| - kept - 1, |ms|);
      var groupTokens := GroupTokens(ms, group, from, w);
      assert ms[group.start..] == ms[group.start..from] + ms[from..];
      WeightAppend(ms[group.start..from], ms[from..], w);
      if kept > 0 && keptTokens + groupTokens > limit {
        break;
      }
      keptTokens := keptTokens + groupTokens;
      kept := kept + 1;
      from := group.start;
    }
    KeepPointFound(ms, groups, limit, w, kept);
  }

  lemma {:induction false} KeepPointFound(
      ms: seq<Message>, groups: seq<Group>, limit: nat, w: Message -> nat, kept: nat)
    requires Partition(ms, groups, |ms|) && 1 <= kept <= |groups|
    requires groups[|groups| - kept].start <= |ms|
    requires kept > 1 ==> Weight(ms[groups[|groups| - kept].start..], w) <= limit
    requires kept < |groups| ==>
      groups[|groups| - kept - 1].start < |ms| && Weight(ms[groups[|groups| - kept - 1].start..], w) > limit
    ensures IsKeepPoint(ms, limit, w, groups[|groups| - kept].start)
  {
    var at := |groups| - kept;
    var k := groups[at].start;
    assert GroupAt(ms, groups, at, |ms|);
    if kept == 1 {
      assert forall j :: k < j ==> !IsGroupStart(ms, j);
    }
    forall j | 0 <= j < k && IsGroupStart(ms, j) ensures Weight(ms[j..], w) > limit {
      GroupStartsAreStarts(ms, groups, j);
      var g :| 0 <= g < |groups| && groups[g].start == j;
      if g > at { StartsIncrease(ms, groups, at, g); }
      if g < at - 1 { StartsIncrease(ms, groups, g, at - 1); }
      SuffixWeight(ms, j, groups[at - 1].start, w);
    }
  }

  /** How many groups start in a stretch of the messages. */
  ghost function GroupsIn(ms: seq<Message>, lo: nat, hi: nat): nat
    requires lo <= hi <= |ms|
    decreases hi
  {
    if lo == hi then 0
    else GroupsIn(ms, lo, hi - 1) + (if IsGroupStart(ms, hi - 1) then 1 else 0)
  }

  lemma {:induction false} GroupsInAppend(ms: seq<Message>, lo: nat, mid: nat, hi: nat)
    requires lo <= mid <= hi <= |ms|
    ensures GroupsIn(ms, lo, hi) == GroupsIn(ms, lo, mid) + GroupsIn(ms, mid, hi)
    decreases hi
  {
    if mid < hi {
      GroupsInAppend(ms, lo, mid, hi - 1);
    }
  }

  lemma {:induction false} OneGroupIn(ms: seq<Message>, g: Group, end: nat, hi: nat)
    requires IsGroup(ms, g, end) && g.start < hi <= end
    ensures GroupsIn(ms, g.start, hi) == 1
    decreases hi
  {
    if g.start + 1 < hi {
      OneGroupIn(ms, g, end, hi - 1);
    } else {
      assert GroupsIn(ms, g.start, g.start) == 0;
    }
  }

  /** The groups from number `k` on are those that start at or after its start. */
  lemma {:induction false} GroupsFrom(ms: seq<Message>, groups: seq<Group>, k: nat)
    requires Partition(ms, groups, |ms|) && k < |groups|
    ensures groups[k].start <= |ms| && GroupsIn(ms, groups[k].start, |ms|) == |groups| - k
    decreases |groups| - k
  {
    assert GroupAt(ms, groups, k, |ms|);
    var end := EndOf(groups, k, |ms|);
    OneGroupIn(ms, groups[k], end, end);
    GroupsInAppend(ms, groups[k].start, end, |ms|);
    if k + 1 < |groups| {
      GroupsFrom(ms, groups, k + 1);
    }
  }

  /** Everything before `k` was dropped, and the report says so. */
  ghost predicate CutAt(
      before: seq<Message>, limit: nat, w: Message -> nat, k: nat, after: seq<Message>, report: AutocompactReport)
  {
    && 0 < k && IsKeepPoint(before, limit, w, k) && after == before[k..]
    && report == AutocompactReport(
         GroupsIn(before, 0, k), GroupsIn(before, k, |before|), Weight(before[..k], w))
  }

  lemma {:induction false} CutIsReported(
      before: seq<Message>, groups: seq<Group>, limit: nat, w: Message -> nat, kept: nat)
    requires Partition(before, groups, |before|) && |groups| > 1 && 1 <= kept <= |groups|
    requires Weight(before, w) > limit && IsKeepPoint(before, limit, w, groups[|groups| - kept].start)
    ensures var k, dropped := groups[|groups| - kept].start, |groups| - kept;
      && dropped > 0 && k <= |before| && Weight(before, w) == Weight(before[..k], w) + Weight(before[k..], w)
      && CutAt(before, limit, w, k, before[k..], AutocompactReport(dropped, kept, Weight(before[..k], w)))
  {
    var k, dropped := groups[|groups| - kept].start, |groups| - kept;
    SecondGroup(before, groups);
    DropsSomething(before, limit, w, k);
    GroupsFrom(before, groups, 0);
    GroupsFrom(before, groups, dropped);
    GroupsInAppend(before, 0, k, |before|);
    assert before == before[..k] + before[k..];
    WeightAppend(before[..k], before[k..], w);
  }

  /** Everything one call may do. */
  ghost predicate Compacts(
      before: seq<Message>, limit: nat, w: Message -> nat, after: seq<Message>, report: AutocompactReport)
  {
    if Weight(before, w) <= limit || !HasTwoGroups(before) then
      after == before && report == AutocompactReport(0, if before == [] then 0 else 1, 0)
    else
      exists k :: CutAt(before, limit, w, k, after, report)
  }

  /** The conversation the compaction functions rewrite. */
  class Conversation {
    var messages: seq<Message>

    constructor (initial: seq<Message>)
      ensures messages == initial
    {
      messages := initial;
    }

    method Autocompact(budget: TokenBudget, w: Message -> nat) returns (report: AutocompactReport)
      modifies this
      ensures Compacts(old(messages), Thresholds(budget).compactThreshold, w, messages, report)
    {
      if messages == [] {
        assert Weight(messages, w) == 0;
        return AutocompactReport(0, 0, 0);
      }
      var beforeTokens := Weight(messages, w);
      var limit := Thresholds(budget).compactThreshold;
      if beforeTokens <= limit {
        return AutocompactReport(0, 1, 0);
      }
      var groups := SplitIntoGroups(messages);
      if |groups| <= 1 {
        OneGroup(messages, groups);
        return AutocompactReport(0, 1, 0);
      }
      SecondGroup(messages, groups);
      var kept := CountKept(messages, groups, limit, w);
      CutIsReported(messages, groups, limit, w, kept);
      var dropped := |groups| - kept;
      if dropped == 0 {
        assert false;
      }
      var keepStart := groups[|groups| - kept].start;
      messages := messages[keepStart..];
      var afterTokens := Weight(messages, w);
      report := AutocompactReport(dropped, kept, if beforeTokens >= afterTokens then beforeTokens - afterTokens else 0);
      assert CutAt(old(messages), limit, w, keepStart, messages, report);
    }

    /** Puts a resume message in place of everything but the last messages. */
    method ApplySummary(resume: Message, keepRecent: nat, w: Message -> nat) returns (report: FullCompactReport)
      modifies this
      ensures |old(messages)| <= keepRecent ==> messages == old(messages) && report == FullCompactReport(0, 0, 0)
      ensures |old(messages)| > keepRecent ==>
        && messages == [resume] + old(messages)[|old(messages)| - keepRecent..]
        && report == FullCompactReport(
             |CompactCandidates(old(messages), keepRecent)|, Weight(old(messages), w), Weight(messages, w))
    {
      if |messages| <= keepRecent {
        return FullCompactReport(0, 0, 0);
      }
      var beforeTokens := Weight(messages, w);
      var tail := messages[|messages| - keepRecent..];
      var replaced := messages[..|messages| - keepRecent];
      messages := [resume] + tail;
      report := FullCompactReport(|replaced|, beforeTokens, Weight(messages, w));
    }
  }

  /** The messages to summarise: all but the most recent. */
  function CompactCandidates(ms: seq<Message>, keepRecent: nat): (candidates: seq<Message>)
    ensures |ms| <= keepRecent ==> candidates == []
    ensures |ms| > keepRecent ==> candidates + ms[|ms| - keepRecent..] == ms
  {
    if |ms| <= keepRecent then [] else ms[..|ms| - keepRecent]
  }

  lemma {:induction false} OneGroup(ms: seq<Message>, groups: seq<Group>)
    requires Partition(ms, groups, |ms|) && |groups| <= 1
    ensures !HasTwoGroups(ms)
  {
    if groups != [] {
      assert GroupAt(ms, groups, 0, |ms|);
    }
  }

  lemma {:induction false} SecondGroup(ms: seq<Message>, groups: seq<Group>)
    requires Partition(ms, groups, |ms|) && |groups| > 1
    ensures HasTwoGroups(ms)
  {
    assert GroupAt(ms, groups, 0, |ms|);
    assert GroupAt(ms, groups, 1, |ms|);
    assert groups[1].start > 0 && IsGroupStart(ms, groups[1].start);
  }

  /** Over the limit and with two groups, the first group never stays. */
  lemma {:induction false} DropsSomething(ms: seq<Message>, limit: nat, w: Message -> nat, k: nat)
    requires IsKeepPoint(ms, limit, w, k) && Weight(ms, w) > limit && HasTwoGroups(ms)
    ensures k > 0
  {
    assert ms[0..] == ms;
  }

  /** There is only one place to cut. */
  lemma {:induction false} KeepPointIsUnique(ms: seq<Message>, limit: nat, w: Message -> nat, a: nat, b: nat)
    requires IsKeepPoint(ms, limit, w, a) && IsKeepPoint(ms, limit, w, b)
    ensures a == b
  {
  }

  /** What is left fits the limit or is a single group. */
  lemma {:induction false} KeptSettles(ms: seq<Message>, limit: nat, w: Message -> nat, k: nat)
    requires IsKeepPoint(ms, limit, w, k)
    ensures Weight(ms[k..], w) <= limit || !HasTwoGroups(ms[k..])
  {
    var kept := ms[k..];
    if Weight(kept, w) > limit {
      forall j: nat | j > 0 ensures !IsGroupStart(kept, j) {
        if j < |kept| {
          assert kept[j] == ms[k + j];
          assert !IsGroupStart(ms, k + j);
        }
      }
    }
  }

  /** So a second call changes nothing and reports nothing dropped. */
  lemma {:induction false} AutocompactSettles(
      before: seq<Message>, limit: nat, w: Message -> nat,
      once: seq<Message>, report1: AutocompactReport, twice: seq<Message>, report2: AutocompactReport)
    requires Compacts(before, limit, w, once, report1) && Compacts(once, limit, w, twice, report2)
    ensures twice == once && report2 == AutocompactReport(0, if before == [] then 0 else 1, 0)
  {
    if Weight(before, w) > limit && HasTwoGroups(before) {
      var k :| CutAt(before, limit, w, k, once, report1);
      KeptSettles(before, limit, w, k);
      assert once != [] && before != [];
    }
  }

  /** The same over two calls on one conversation. */
  method AutocompactTwice(conversation: Conversation, budget: TokenBudget, w: Message -> nat)
    returns (report1: AutocompactReport, report2: AutocompactReport)
    modifies conversation
    ensures Compacts(old(conversation.messages), Thresholds(budget).compactThreshold, w, conversation.messages, report1)
    ensures report2.groupsDropped == 0 && report2.tokensFreed == 0
  {
    ghost var before := conversation.messages;
    report1 := conversation.Autocompact(budget, w);
    ghost var once := conversation.messages;
    report2 := conversation.Autocompact(budget, w);
    AutocompactSettles(
      before, Thresholds(budget).compactThreshold, w, once, report1, conversation.messages, report2);
  }
}
