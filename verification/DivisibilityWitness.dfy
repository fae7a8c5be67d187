/**
  One batch on which the number of micro-batches ends at a non-multiple of the number it is meant to
  be divisible by: five samples that fit two bins exactly, but only in a way that the balanced
  partitioner never produces, because it keeps the two longest samples apart.
 */
module DivisibilityWitness {
  import opened Results
  import opened Sequences
  import BestFitDecreasing
  import KarmarkarKarp
  import KarmarkarKarpRuns
  import opened DynamicBatching

  const LENGTHS: seq<nat> := [8, 7, 6, 5, 4]

  /** Every sample attends to exactly its prompt and its response. */
  const FIVE_SAMPLES: Batch := [Sample(8, 5, 3), Sample(7, 4, 3), Sample(6, 3, 3), Sample(5, 3, 2), Sample(4, 2, 2)]

  const CAP: nat := 15

  lemma TheLengths()
    ensures |FIVE_SAMPLES| == |LENGTHS| == 5
    ensures Tokens(FIVE_SAMPLES) == LENGTHS && Costs(FIVE_SAMPLES) == LENGTHS
    ensures BestFitDecreasing.AllFit(LENGTHS, CAP)
  {
  }

  // ----- the packer needs two bins -----------------------------------------------------------

  lemma AlreadyDecreasing()
    ensures BestFitDecreasing.Decreasing(LENGTHS) == [0, 1, 2, 3, 4]
  {
    assert Range(5) == [0, 1, 2, 3, 4];
    SortOfSorted(BestFitDecreasing.LongerFirst(LENGTHS), Range(5));
  }

  lemma PlaceOne(order: seq<nat>, i: nat)
    requires BestFitDecreasing.AllFit(LENGTHS, CAP) && LenAt(LENGTHS, i) <= CAP
    ensures BestFitDecreasing.PlaceAll(LENGTHS, CAP, order + [i])
         == BestFitDecreasing.Place(LENGTHS, CAP, BestFitDecreasing.PlaceAll(LENGTHS, CAP, order), i)
  {
    assert (order + [i])[..|order|] == order;
  }

  lemma FirstBin()
    requires BestFitDecreasing.AllFit(LENGTHS, CAP)
    ensures BestFitDecreasing.PlaceAll(LENGTHS, CAP, [0, 1]) == BestFitDecreasing.Bins([[0, 1]], [0])
  {
    assert [] + [0] == [0] && [0] + [1] == [0, 1];
    PlaceOne([], 0);
    PlaceOne([0], 1);
    assert BestFitDecreasing.PlaceAll(LENGTHS, CAP, [0]) == BestFitDecreasing.Bins([[0]], [7]);
    assert BestFitDecreasing.BestFit([7], 7, 1) == 0;
  }

  lemma SecondBin()
    requires BestFitDecreasing.AllFit(LENGTHS, CAP)
    ensures BestFitDecreasing.PlaceAll(LENGTHS, CAP, [0, 1, 2]) == BestFitDecreasing.Bins([[0, 1], [2]], [0, 9])
  {
    FirstBin();
    assert [0, 1] + [2] == [0, 1, 2];
    PlaceOne([0, 1], 2);
    hide BestFitDecreasing.PlaceAll;
    assert BestFitDecreasing.BestFit([0], 6, 1) == -1;
  }

  lemma Fourth()
    requires BestFitDecreasing.AllFit(LENGTHS, CAP)
    ensures BestFitDecreasing.PlaceAll(LENGTHS, CAP, [0, 1, 2, 3]) == BestFitDecreasing.Bins([[0, 1], [2, 3]], [0, 4])
  {
    SecondBin();
    assert [0, 1, 2] + [3] == [0, 1, 2, 3];
    PlaceOne([0, 1, 2], 3);
    hide BestFitDecreasing.PlaceAll;
    assert BestFitDecreasing.BestFit([0, 9], 5, 1) == -1;
    assert BestFitDecreasing.BestFit([0, 9], 5, 2) == 1;
    assert [2] + [3] == [2, 3] && [[0, 1], [2]][1 := [2] + [3]] == [[0, 1], [2, 3]];
    assert [0, 9][1 := 4] == [0, 4];
  }

  lemma TwoBins()
    ensures BestFitDecreasing.AllFit(LENGTHS, CAP) && |BestFitDecreasing.Packing(LENGTHS, CAP)| == 2
  {
    TheLengths();
    AlreadyDecreasing();
    Fourth();
    assert [0, 1, 2, 3] + [4] == [0, 1, 2, 3, 4];
    PlaceOne([0, 1, 2, 3], 4);
    hide BestFitDecreasing.PlaceAll;
    assert BestFitDecreasing.BestFit([0, 4], 4, 1) == -1;
    assert BestFitDecreasing.BestFit([0, 4], 4, 2) == 1;
  }

  // ----- two micro-batches never fit, three always do ---------------------------------------------

  /** Without sample 1, the part of sample 0 cannot weigh 15: no choice of 6, 5 and 4 adds up to 7. */
  lemma NeverFifteen(members: set<nat>)
    requires 0 in members && 1 !in members
    ensures LoadIn(LENGTHS, members, 5) != CAP
  {
    assert LoadIn(LENGTHS, members, 2) == 8 by {
      assert LoadIn(LENGTHS, members, 1) == 8;
    }
    assert LoadIn(LENGTHS, members, 4) == LoadIn(LENGTHS, members, 3) + if 3 in members then 5 else 0;
  }

  lemma WholeLoad()
    ensures Load(LENGTHS, Range(5)) == 30
  {
    assert Range(5) == [0, 1, 2, 3, 4];
    assert Load(LENGTHS, [3, 4]) == 9 by { assert [3, 4][1..] == [4] && [4][1..] == []; }
    assert [2, 3, 4][1..] == [3, 4] && [1, 2, 3, 4][1..] == [2, 3, 4] && [0, 1, 2, 3, 4][1..] == [1, 2, 3, 4];
    assert Load(LENGTHS, [2, 3, 4]) == 15;
    assert Load(LENGTHS, [1, 2, 3, 4]) == 22;
  }

  /** However k parts cover the samples, their loads add up to 30. */
  lemma LoadsAddUp(parts: seq<seq<nat>>)
    requires IsPermutation(Concat(parts), 5)
    ensures SumLoads(LENGTHS, parts) == 30
  {
    LoadsOfAnyCover(LENGTHS, parts);
    WholeLoad();
  }

  lemma TwoParts(lens: seq<nat>, parts: seq<seq<nat>>, i: nat, j: nat)
    requires |parts| == 2 && i < 2 && j < 2 && i != j
    ensures SumLoads(lens, parts) == Load(lens, parts[i]) + Load(lens, parts[j])
  {
    var last := parts[1..];
    assert last[0] == parts[1] && last[1..] == [];
    assert SumLoads(lens, last) == Load(lens, parts[1]) + SumLoads(lens, []);
  }

  /** A part that holds sample 0 but not sample 1 never weighs exactly 15. */
  lemma NotFifteen(parts: seq<seq<nat>>, i: nat, j: nat)
    requires IsPermutation(Concat(parts), 5) && i < |parts| && j < |parts| && i != j && 0 in parts[i] && 1 in parts[j]
    ensures Load(LENGTHS, parts[i]) != CAP
  {
    PermutationIsBijective(Concat(parts), 5);
    PartsAreDistinct(parts, i, j);
    PartsAreDistinct(parts, j, i);
    var members := set x | x in parts[i];
    forall x: nat | x in parts[i] ensures x < 5 { ConcatMembers<nat>(parts, x); }
    LoadByMembers(LENGTHS, parts[i], members, 5);
    NeverFifteen(members);
  }

  lemma LongestTwo()
    ensures KarmarkarKarpRuns.LongerThanRest(LENGTHS, 0, {}) && KarmarkarKarpRuns.LongerThanRest(LENGTHS, 1, {0})
  {
  }

  /** The balanced partitioner separates samples 0 and 1, so one of two parts is over the cap. */
  lemma HalvesOverflow()
    ensures !Fits(FIVE_SAMPLES, 2, CAP)
  {
    TheLengths();
    LongestTwo();
    KarmarkarKarpRuns.HeapTopPopsLeast();
    KarmarkarKarp.BalancedTheorem(LENGTHS, 2, false);
    var raw, parts := KarmarkarKarp.PartitionBy(KarmarkarKarp.HeapTop, LENGTHS, 2, false), Rows(FIVE_SAMPLES, 2);
    var i, j := KarmarkarKarpRuns.TwoLongestApart(KarmarkarKarp.HeapTop, LENGTHS, 2, 0, 1);
    assert parts == KarmarkarKarp.SortParts(raw);
    SameMembers<nat>(parts[i], raw[i]);
    SameMembers<nat>(parts[j], raw[j]);
    hide *;
    NotFifteen(parts, i, j);
    LoadsAddUp(parts);
    TwoParts(LENGTHS, parts, i, j);
    BothWithin(parts, i, j);
  }

  lemma BothWithin(parts: seq<seq<nat>>, i: nat, j: nat)
    requires parts == Rows(FIVE_SAMPLES, 2) && |parts| == 2 && i < 2 && j < 2 && i != j
    requires Load(LENGTHS, parts[i]) + Load(LENGTHS, parts[j]) == 30 && Load(LENGTHS, parts[i]) != CAP
    ensures !Fits(FIVE_SAMPLES, 2, CAP)
  {
    hide Rows, Load;
    TheLengths();
  }

  lemma ThreeParts(lens: seq<nat>, parts: seq<seq<nat>>)
    requires |parts| == 3
    ensures SumLoads(lens, parts) == Load(lens, parts[0]) + Load(lens, parts[1]) + Load(lens, parts[2])
  {
    var rest := parts[1..];
    TwoParts(lens, rest, 0, 1);
    assert rest[0] == parts[1] && rest[1] == parts[2];
  }

  /** Three loads that differ by at most `bound` stay near a third of their sum. */
  lemma NearAThird(lens: seq<nat>, parts: seq<seq<nat>>, bound: nat, j: nat)
    requires |parts| == 3 && j < 3
    requires forall i, j :: 0 <= i < 3 && 0 <= j < 3 ==> Load(lens, parts[i]) - Load(lens, parts[j]) <= bound
    ensures 3 * Load(lens, parts[j]) <= SumLoads(lens, parts) + 2 * bound
  {
    ThreeParts(lens, parts);
    hide Load, SumLoads;
    assert Load(lens, parts[j]) - Load(lens, parts[0]) <= bound;
    assert Load(lens, parts[j]) - Load(lens, parts[1]) <= bound;
    assert Load(lens, parts[j]) - Load(lens, parts[2]) <= bound;
  }

  lemma ThirdsBound()
    ensures KarmarkarKarp.SpreadBound(LENGTHS, 3, false) <= 8
  {
    LongestIsMax(LENGTHS);
  }

  /** Three parts differ by at most the longest sample, so none of them can exceed 15. */
  lemma ThirdsFit()
    ensures Fits(FIVE_SAMPLES, 3, CAP)
  {
    TheLengths();
    assert Rows(FIVE_SAMPLES, 3) == KarmarkarKarp.Balanced(LENGTHS, 3, false);
    hide Rows, KarmarkarKarp.Balanced, KarmarkarKarp.SpreadBound, LENGTHS, FIVE_SAMPLES, Load, SumLoads;
    KarmarkarKarp.BalancedTheorem(LENGTHS, 3, false);
    ThirdsBound();
    var parts := Rows(FIVE_SAMPLES, 3);
    LoadsAddUp(parts);
    forall j | 0 <= j < 3 ensures Load(LENGTHS, parts[j]) <= CAP {
      NearAThird(LENGTHS, parts, KarmarkarKarp.SpreadBound(LENGTHS, 3, false), j);
    }
  }

  lemma StartsAtTwo()
    ensures Startable([FIVE_SAMPLES], CAP) && StartCount([FIVE_SAMPLES], CAP, None, Some(2)) == 2
  {
    TheLengths();
    TwoBins();
    hide BestFitDecreasing.Packing;
    assert [FIVE_SAMPLES][1..] == [];
    assert LocalCount(FIVE_SAMPLES, CAP, None) == 2;
    assert GlobalCount([FIVE_SAMPLES], CAP, None) == 2;
  }

  /**
    The documented divisibility by num_batches_divided_by is not kept: the five samples need two bins,
    which is already a multiple of 2, the first round does not fit, and the search ends at 3.
   */
  lemma DivisibilityLost(r: Result<Split, SearchError>)
    ensures Startable([FIVE_SAMPLES], CAP) && StartCount([FIVE_SAMPLES], CAP, None, Some(2)) == 2
    ensures Outcome([FIVE_SAMPLES], CAP, 2, r) ==> r.Ok? && r.value.count == 3
  {
    StartsAtTwo();
    if Outcome([FIVE_SAMPLES], CAP, 2, r) { EndsAtThree(r); }
  }

  lemma EndsAtThree(r: Result<Split, SearchError>)
    requires Outcome([FIVE_SAMPLES], CAP, 2, r)
    ensures r.Ok? && r.value.count == 3
  {
    OnlyRank();
    SearchSucceedsIff([FIVE_SAMPLES], 5, CAP, 2, r);
    hide AllRanksFit, IsSplit, CanSplit;
  }

  lemma OnlyRank()
    ensures EvenRanks([FIVE_SAMPLES], 5) && SamplesFit([FIVE_SAMPLES], CAP)
    ensures !AllRanksFit([FIVE_SAMPLES], 2, CAP) && AllRanksFit([FIVE_SAMPLES], 3, CAP)
  {
    TheLengths();
    HalvesOverflow();
    ThirdsFit();
    hide Fits;
    assert [FIVE_SAMPLES][0] == FIVE_SAMPLES;
  }
}
