/** Planning a compaction (packages/dsh-luban-context/src/strategies.ts): which segments stay and which go. */
module Strategies {
  import opened Wrappers

  const MAX_SAFE_INTEGER := 0x1F_FFFF_FFFF_FFFF

  predicate IsSafe(n: int) {
    -MAX_SAFE_INTEGER <= n <= MAX_SAFE_INTEGER
  }

  datatype Segment = Segment(startSeq: int, endSeq: int, estTokens: int, topic: Option<string>)

  predicate ValidSegment(s: Segment) {
    IsSafe(s.startSeq) && IsSafe(s.endSeq) && IsSafe(s.estTokens) && 0 <= s.startSeq <= s.endSeq && 0 <= s.estTokens
  }

  /** Ordered, disjoint and non-negative. */
  predicate ValidSegments(segments: seq<Segment>) {
    (forall i :: 0 <= i < |segments| ==> ValidSegment(segments[i]))
    && forall i :: 0 < i < |segments| ==> segments[i - 1].endSeq < segments[i].startSeq
  }

  method ValidateSegments(segments: seq<Segment>) returns (valid: bool)
    ensures valid <==> ValidSegments(segments)
  {
    var previousEnd := -1;
    for i := 0 to |segments|
      invariant ValidSegments(segments[..i])
      invariant previousEnd == if i == 0 then -1 else segments[i - 1].endSeq
    {
      var segment := segments[i];
      if !IsSafe(segment.startSeq) || !IsSafe(segment.endSeq) || !IsSafe(segment.estTokens)
         || segment.startSeq < 0 || segment.endSeq < segment.startSeq || segment.estTokens < 0
         || segment.startSeq <= previousEnd {
        return false;
      }
      previousEnd := segment.endSeq;
    }
    assert segments[..|segments|] == segments;
    return true;
  }

  function Total(segments: seq<Segment>): int {
    if segments == [] then 0 else segments[0].estTokens + Total(segments[1..])
  }

  // ----- The partition -----

  /** Tokens of the suffix that starts at `k`. */
  function TotalFrom(segments: seq<Segment>, k: nat): int
    requires k <= |segments|
    decreases |segments| - k
  {
    if k == |segments| then 0 else segments[k].estTokens + TotalFrom(segments, k + 1)
  }

  /** The newest segment that counts any tokens. */
  predicate IsLastNonZero(segments: seq<Segment>, z: nat) {
    z < |segments| && segments[z].estTokens > 0 && forall i :: z < i < |segments| ==> segments[i].estTokens == 0
  }

  /** `k` starts the longest suffix within the budget. */
  ghost predicate StartsLongestFit(segments: seq<Segment>, budget: int, k: nat) {
    k <= |segments| && Total(segments[k..]) <= budget && forall i :: 0 <= i < k ==> Total(segments[i..]) > budget
  }

  /** Where the kept part starts: at the newest counting segment when that one alone is over the budget,
      otherwise at the longest suffix within it. */
  ghost predicate IsFirstKept(segments: seq<Segment>, budget: int, k: nat) {
    if exists z: nat :: IsLastNonZero(segments, z) && segments[z].estTokens > budget
    then IsLastNonZero(segments, k)
    else StartsLongestFit(segments, budget, k)
  }

  lemma FirstKeptIsUnique(segments: seq<Segment>, budget: int, j: nat, k: nat)
    requires IsFirstKept(segments, budget, j) && IsFirstKept(segments, budget, k)
    ensures j == k
  {
  }

  datatype Partition = Partition(keep: seq<Segment>, older: seq<Segment>)

  datatype PartitionError = InvalidSegments | InvalidBudget

  /** What the loop has kept: the suffix at `k` counts `used` tokens, none of them only if none of its segments counts
      any, and more than the budget only if its first segment alone does. */
  ghost predicate KeptSoFar(segments: seq<Segment>, budget: int, k: nat, used: int) {
    k <= |segments| && used == TotalFrom(segments, k) && used >= 0
    && (used == 0 ==> forall i :: k <= i < |segments| ==> segments[i].estTokens == 0)
    && (used > budget ==> IsLastNonZero(segments, k))
  }

  lemma KeepOneMore(segments: seq<Segment>, budget: int, k: nat, used: int)
    requires ValidSegments(segments) && budget >= 1 && 0 < k && KeptSoFar(segments, budget, k, used)
    requires used == 0 || used + segments[k - 1].estTokens <= budget
    ensures KeptSoFar(segments, budget, k - 1, used + segments[k - 1].estTokens)
  {
    assert ValidSegment(segments[k - 1]);
  }

  method PartitionRecent(segments: seq<Segment>, budgetTokens: int) returns (r: Result<Partition, PartitionError>)
    ensures r == Err(InvalidSegments) <==> !ValidSegments(segments)
    ensures r == Err(InvalidBudget) <==> ValidSegments(segments) && !(IsSafe(budgetTokens) && budgetTokens >= 1)
    ensures r.Ok? ==> r.value.older + r.value.keep == segments && IsFirstKept(segments, budgetTokens, |r.value.older|)
  {
    var valid := ValidateSegments(segments);
    if !valid {
      return Err(InvalidSegments);
    }
    if !IsSafe(budgetTokens) || budgetTokens < 1 {
      return Err(InvalidBudget);
    }
    var used := 0;
    var firstKept := |segments|;
    var index := |segments| - 1;
    while index >= 0
      invariant -1 <= index < |segments| && firstKept == index + 1
      invariant KeptSoFar(segments, budgetTokens, firstKept, used)
      decreases index
    {
      var segment := segments[index];
      if used > 0 && used + segment.estTokens > budgetTokens {
        break;
      }
      KeepOneMore(segments, budgetTokens, firstKept, used);
      used := used + segment.estTokens;
      firstKept := index;
      index := index - 1;
    }
    FirstKeptFound(segments, budgetTokens, firstKept);
    return Ok(Partition(segments[firstKept..], segments[..firstKept]));
  }

  lemma {:induction false} TotalGrows(segments: seq<Segment>, i: nat, k: nat)
    requires ValidSegments(segments) && i <= k <= |segments|
    ensures TotalFrom(segments, i) >= TotalFrom(segments, k) >= 0
    decreases |segments| - i
  {
    if i < |segments| {
      assert ValidSegment(segments[i]);
      TotalGrows(segments, i + 1, if i == k then k + 1 else k);
    }
  }

  lemma {:induction false} ZerosTotalNothing(segments: seq<Segment>, k: nat)
    requires k <= |segments| && forall i :: k <= i < |segments| ==> segments[i].estTokens == 0
    ensures TotalFrom(segments, k) == 0
    decreases |segments| - k
  {
    if k < |segments| {
      ZerosTotalNothing(segments, k + 1);
    }
  }

  /** The suffix total is the total of the suffix. */
  lemma {:induction false} TotalFromIsTotal(segments: seq<Segment>, k: nat)
    requires k <= |segments|
    ensures TotalFrom(segments, k) == Total(segments[k..])
    decreases |segments| - k
  {
    if k < |segments| {
      TotalFromIsTotal(segments, k + 1);
      assert segments[k..][1..] == segments[k + 1..];
    }
  }

  /** How the loop stopped decides which of the two cases holds. */
  lemma FirstKeptFound(segments: seq<Segment>, budget: int, k: nat)
    requires ValidSegments(segments) && budget >= 1 && k <= |segments|
    requires var used := TotalFrom(segments, k);
             (used > budget ==> IsLastNonZero(segments, k))
             && (k > 0 ==> used > 0 && used + segments[k - 1].estTokens > budget)
    ensures IsFirstKept(segments, budget, k)
  {
    if TotalFrom(segments, k) > budget {
      ZerosTotalNothing(segments, k + 1);
    } else {
      forall z: nat | IsLastNonZero(segments, z) ensures segments[z].estTokens <= budget {
        if z < k {
          ZerosTotalNothing(segments, k);
        } else {
          TotalGrows(segments, k, z);
          TotalGrows(segments, z + 1, z + 1);
        }
      }
      TotalFromIsTotal(segments, k);
      forall i | 0 <= i < k ensures Total(segments[i..]) > budget {
        TotalGrows(segments, i, k - 1);
        TotalFromIsTotal(segments, i);
      }
    }
  }

  // ----- Plans and what they count -----

  datatype Strategy = Summarize | VirtualFile | SummarizeVirtualFile

  function StrategyId(strategy: Strategy): string {
    match strategy
    case Summarize => "summarize"
    case VirtualFile => "virtualfile"
    case SummarizeVirtualFile => "summarize+virtualfile"
  }

  datatype Plan = Plan(keep: seq<Segment>, summarize: seq<Segment>, archive: seq<Segment>,
                       budgetTokens: int, strategyId: string)

  /** The plan of a strategy for a given partition. */
  function PlanOf(strategy: Strategy, partition: Partition, budgetTokens: int): Plan {
    Plan(partition.keep,
         if strategy.VirtualFile? then [] else partition.older,
         if strategy.Summarize? then [] else partition.older,
         budgetTokens, StrategyId(strategy))
  }

  function SegmentKey(s: Segment): (int, int) {
    (s.startSeq, s.endSeq)
  }

  /** An insertion-ordered map from keys to segments, held as its values: setting a known key replaces in place. */
  function SetSegment(unique: seq<Segment>, s: Segment): seq<Segment> {
    if unique == [] then [s]
    else if SegmentKey(unique[0]) == SegmentKey(s) then [s] + unique[1..]
    else [unique[0]] + SetSegment(unique[1..], s)
  }

  function SetAll(unique: seq<Segment>, segments: seq<Segment>): seq<Segment>
    decreases |segments|
  {
    if segments == [] then unique else SetAll(SetSegment(unique, segments[0]), segments[1..])
  }

  /** Tokens before compaction: each segment the plan names counts once. */
  method BeforeTokens(plan: Plan) returns (total: int)
    ensures total == Total(SetAll([], plan.keep + plan.summarize + plan.archive))
  {
    var unique: seq<Segment> := [];
    var all := plan.keep + plan.summarize + plan.archive;
    for i := 0 to |all|
      invariant SetAll(unique, all[i..]) == SetAll([], all)
    {
      assert all[i..][1..] == all[i + 1..];
      unique := SetSegment(unique, all[i]);
    }
    total := 0;
    for i := 0 to |unique|
      invariant total + Total(unique[i..]) == Total(unique)
    {
      assert unique[i..][1..] == unique[i + 1..];
      total := total + unique[i].estTokens;
    }
  }

  ghost predicate DistinctKeys(segments: seq<Segment>) {
    forall i, j :: 0 <= i < j < |segments| ==> SegmentKey(segments[i]) != SegmentKey(segments[j])
  }

  lemma {:induction false} ValidSegmentsAscend(segments: seq<Segment>, i: nat, j: nat)
    requires ValidSegments(segments) && i < j < |segments|
    ensures segments[i].endSeq < segments[j].startSeq
    decreases j
  {
    if i + 1 < j {
      ValidSegmentsAscend(segments, i, j - 1);
      assert ValidSegment(segments[j - 1]);
    }
  }

  lemma ValidSegmentsAreDistinct(segments: seq<Segment>)
    requires ValidSegments(segments)
    ensures DistinctKeys(segments)
  {
    forall i, j | 0 <= i < j < |segments| ensures SegmentKey(segments[i]) != SegmentKey(segments[j]) {
      ValidSegmentsAscend(segments, i, j);
    }
  }

  lemma {:induction false} SetNew(unique: seq<Segment>, s: Segment)
    requires forall u :: u in unique ==> SegmentKey(u) != SegmentKey(s)
    ensures SetSegment(unique, s) == unique + [s]
  {
    if unique != [] {
      SetNew(unique[1..], s);
      assert [unique[0]] + (unique[1..] + [s]) == unique + [s];
    }
  }

  lemma {:induction false} SetKnown(unique: seq<Segment>, s: Segment)
    requires s in unique && DistinctKeys(unique)
    ensures SetSegment(unique, s) == unique
  {
    if unique[0] != s {
      assert s in unique[1..];
      var j :| 0 <= j < |unique[1..]| && unique[1..][j] == s;
      assert unique[j + 1] == s;
      SetKnown(unique[1..], s);
    }
  }

  lemma {:induction false} SetAllNew(unique: seq<Segment>, segments: seq<Segment>)
    requires DistinctKeys(unique + segments)
    ensures SetAll(unique, segments) == unique + segments
    decreases |segments|
  {
    if segments == [] {
      assert unique + segments == unique;
    } else {
      var all := unique + segments;
      forall u | u in unique ensures SegmentKey(u) != SegmentKey(segments[0]) {
        var i :| 0 <= i < |unique| && unique[i] == u;
        assert all[i] == u && all[|unique|] == segments[0];
      }
      SetNew(unique, segments[0]);
      assert unique + [segments[0]] + segments[1..] == all;
      SetAllNew(unique + [segments[0]], segments[1..]);
    }
  }

  lemma {:induction false} SetAllKnown(unique: seq<Segment>, segments: seq<Segment>)
    requires DistinctKeys(unique) && forall s :: s in segments ==> s in unique
    ensures SetAll(unique, segments) == unique
    decreases |segments|
  {
    if segments != [] {
      SetKnown(unique, segments[0]);
      SetAllKnown(unique, segments[1..]);
    }
  }

  lemma {:induction false} SetAllAppend(unique: seq<Segment>, a: seq<Segment>, b: seq<Segment>)
    ensures SetAll(unique, a + b) == SetAll(SetAll(unique, a), b)
    decreases |a|
  {
    if a == [] {
      assert a + b == b;
    } else {
      assert (a + b)[1..] == a[1..] + b;
      SetAllAppend(SetSegment(unique, a[0]), a[1..], b);
    }
  }

  lemma {:induction false} TotalAppend(a: seq<Segment>, b: seq<Segment>)
    ensures Total(a + b) == Total(a) + Total(b)
  {
    if a == [] {
      assert a + b == b;
    } else {
      assert (a + b)[1..] == a[1..] + b;
      TotalAppend(a[1..], b);
    }
  }

  /** Whichever strategy, and although one of them names the older segments twice, every input token counts once. */
  lemma BeforeTokensIsInputTotal(strategy: Strategy, partition: Partition, budgetTokens: int)
    requires ValidSegments(partition.older + partition.keep)
    ensures var plan := PlanOf(strategy, partition, budgetTokens);
            Total(SetAll([], plan.keep + plan.summarize + plan.archive)) == Total(partition.older + partition.keep)
  {
    var keep, older := partition.keep, partition.older;
    var plan := PlanOf(strategy, partition, budgetTokens);
    ValidSegmentsAreDistinct(older + keep);
    TotalAppend(older, keep);
    TotalAppend(keep, older);
    KeepThenOlder(keep, older);
    match strategy
    case Summarize => assert plan.keep + plan.summarize + plan.archive == keep + older;
    case VirtualFile => assert plan.keep + plan.summarize + plan.archive == keep + older;
    case SummarizeVirtualFile =>
      SetAllAppend([], keep + older, older);
      SetAllKnown(keep + older, older);
  }

  lemma KeepThenOlder(keep: seq<Segment>, older: seq<Segment>)
    requires DistinctKeys(older + keep)
    ensures DistinctKeys(keep + older)
    ensures SetAll([], keep + older) == keep + older
  {
    var b := keep + older;
    forall i, j | 0 <= i < j < |b| ensures SegmentKey(b[i]) != SegmentKey(b[j]) {
      Rotated(keep, older, i);
      Rotated(keep, older, j);
    }
    assert [] + b == b;
    SetAllNew([], b);
  }

  /** Where an element of `keep + older` stands in `older + keep`. */
  lemma Rotated(keep: seq<Segment>, older: seq<Segment>, i: nat)
    requires i < |keep| + |older|
    ensures (keep + older)[i] == (older + keep)[if i < |keep| then i + |older| else i - |keep|]
  {
  }
}
