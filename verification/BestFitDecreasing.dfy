/**
  The best-fit-decreasing bin packer (get_seqlen_BFD_partitions): exact cover,
  capacity, and how many bins it uses against any other packing.
 */
module BestFitDecreasing {
  import opened Arithmetic
  import opened Results
  import opened Sequences

  /** The open groups and what each can still take. */
  datatype Bins = Bins(groups: seq<seq<nat>>, remaining: seq<nat>)

  datatype PackError = TooLong(longest: nat)

  /**
    The group that would be left with the least room, the earliest of those that
    tie, among the first n; -1 if the sample fits none of them.
   */
  function BestFit(remaining: seq<nat>, len: nat, n: nat): (best: int)
    requires n <= |remaining|
    ensures -1 <= best < n
    ensures best >= 0 ==> remaining[best] >= len
  {
    if n == 0 then -1
    else
      var best := BestFit(remaining, len, n - 1);
      if remaining[n - 1] >= len && (best == -1 || remaining[n - 1] < remaining[best]) then n - 1 else best
  }

  lemma {:induction false} BestFitIsBest(remaining: seq<nat>, len: nat, n: nat)
    requires n <= |remaining|
    ensures BestFit(remaining, len, n) == -1 <==> forall g :: 0 <= g < n ==> remaining[g] < len
    ensures var best := BestFit(remaining, len, n);
      best >= 0 ==> forall g :: 0 <= g < n && remaining[g] >= len ==>
        remaining[best] < remaining[g] || (remaining[best] == remaining[g] && best <= g)
  {
    if n > 0 { BestFitIsBest(remaining, len, n - 1); }
  }

  function Place(lens: seq<nat>, cap: nat, b: Bins, i: nat): Bins
    requires |b.groups| == |b.remaining| && LenAt(lens, i) <= cap
  {
    var len := LenAt(lens, i);
    var g := BestFit(b.remaining, len, |b.remaining|);
    if g != -1 then Bins(b.groups[g := b.groups[g] + [i]], b.remaining[g := b.remaining[g] - len])
    else Bins(b.groups + [[i]], b.remaining + [cap - len])
  }

  ghost predicate AllFit(lens: seq<nat>, cap: nat) {
    forall i :: 0 <= i < |lens| ==> lens[i] <= cap
  }

  function PlaceAll(lens: seq<nat>, cap: nat, order: seq<nat>): (b: Bins)
    requires AllFit(lens, cap)
    ensures |b.groups| == |b.remaining|
  {
    if order == [] then Bins([], [])
    else Place(lens, cap, PlaceAll(lens, cap, order[..|order| - 1]), order[|order| - 1])
  }

  function LongerFirst(lens: seq<nat>): (nat, nat) -> bool {
    (i: nat, j: nat) => LenAt(lens, i) > LenAt(lens, j)
  }

  /** sort(key=length, reverse=True): longest first, ties in index order. */
  function Decreasing(lens: seq<nat>): (order: seq<nat>)
    ensures multiset(order) == multiset(Range(|lens|))
  {
    Sort(LongerFirst(lens), Range(|lens|))
  }

  lemma DecreasingLengths(lens: seq<nat>)
    ensures |Decreasing(lens)| == |lens|
    ensures forall i, j :: 0 <= i <= j < |lens| ==>
      LenAt(lens, Decreasing(lens)[i]) >= LenAt(lens, Decreasing(lens)[j])
  {
    SortSorts(LongerFirst(lens), Range(|lens|));
    SameMembers(Decreasing(lens), Range(|lens|));
    forall i, j | 0 <= i < j < |lens| ensures LenAt(lens, Decreasing(lens)[i]) >= LenAt(lens, Decreasing(lens)[j]) {
      assert !LongerFirst(lens)(Decreasing(lens)[j], Decreasing(lens)[i]);
    }
  }

  /** Longest first, ties by index. */
  function LongerOrEarlier(lens: seq<nat>): (nat, nat) -> bool {
    (i: nat, j: nat) => LenAt(lens, i) > LenAt(lens, j) || (LenAt(lens, i) == LenAt(lens, j) && i < j)
  }

  lemma LongerIsOrder(lens: seq<nat>)
    ensures StrictWeakOrder(LongerOrEarlier(lens))
  {
  }

  /** Each sample once, the longest first, and of two equally long ones the earlier. */
  ghost predicate IsDecreasing(lens: seq<nat>, order: seq<nat>) {
    && IsPermutation(order, |lens|)
    && forall i, j :: 0 <= i < j < |order| ==>
         LenAt(lens, order[i]) > LenAt(lens, order[j])
         || (LenAt(lens, order[i]) == LenAt(lens, order[j]) && order[i] < order[j])
  }

  lemma OrderIsDecreasing(lens: seq<nat>)
    ensures IsDecreasing(lens, Decreasing(lens))
  {
    SortAgrees(LongerFirst(lens), LongerOrEarlier(lens), Range(|lens|));
    LongerIsOrder(lens);
    var less: (nat, nat) -> bool := LongerOrEarlier(lens);
    var order := Decreasing(lens);
    SortSorts(less, Range(|lens|));
    PermutationIsBijective(order, |lens|);
    assert order == Sort(less, Range(|lens|));
    hide Sort, Decreasing;
    forall i, j | 0 <= i < j < |order|
      ensures LenAt(lens, order[i]) > LenAt(lens, order[j])
           || (LenAt(lens, order[i]) == LenAt(lens, order[j]) && order[i] < order[j])
    {
      assert !less(order[j], order[i]) && order[i] != order[j];
    }
  }

  // ----- what a placement is ------------------------------------------------------------

  /** Group g takes a sample of this length and no other group that does is tighter, nor as tight and earlier. */
  ghost predicate IsTightest(remaining: seq<nat>, len: nat, g: nat) {
    && g < |remaining| && remaining[g] >= len
    && forall h :: 0 <= h < |remaining| && remaining[h] >= len ==>
         remaining[g] < remaining[h] || (remaining[g] == remaining[h] && g <= h)
  }

  /** Sample i goes to the tightest group that takes it, or into a new one if there is none. */
  ghost predicate IsPlacement(lens: seq<nat>, cap: nat, before: Bins, after: Bins, i: nat) {
    var len := LenAt(lens, i);
    && |before.groups| == |before.remaining| && len <= cap
    && if forall g :: 0 <= g < |before.remaining| ==> before.remaining[g] < len then
         after == Bins(before.groups + [[i]], before.remaining + [cap - len])
       else
         exists g: nat :: IsTightest(before.remaining, len, g)
           && after == Bins(before.groups[g := before.groups[g] + [i]],
                            before.remaining[g := before.remaining[g] - len])
  }

  lemma PlaceIsTightest(lens: seq<nat>, cap: nat, b: Bins, i: nat)
    requires |b.groups| == |b.remaining| && LenAt(lens, i) <= cap
    ensures IsPlacement(lens, cap, b, Place(lens, cap, b, i), i)
  {
    var len := LenAt(lens, i);
    BestFitIsBest(b.remaining, len, |b.remaining|);
    var g := BestFit(b.remaining, len, |b.remaining|);
    hide BestFit;
    if g != -1 {
      assert IsTightest(b.remaining, len, g);
      hide IsTightest;
    }
  }

  /** The bins before the first sample, after it, and so on to the last. */
  ghost predicate IsPackRun(lens: seq<nat>, cap: nat, order: seq<nat>, trace: seq<Bins>) {
    && |trace| == |order| + 1 && trace[0] == Bins([], [])
    && forall t :: 0 <= t < |order| ==> IsPlacement(lens, cap, trace[t], trace[t + 1], order[t])
  }

  lemma {:induction false} PlaceAllIsRun(lens: seq<nat>, cap: nat, order: seq<nat>) returns (trace: seq<Bins>)
    requires AllFit(lens, cap)
    ensures IsPackRun(lens, cap, order, trace) && trace[|order|] == PlaceAll(lens, cap, order)
  {
    if order == [] {
      trace := [Bins([], [])];
    } else {
      var n := |order| - 1;
      var front := PlaceAllIsRun(lens, cap, order[..n]);
      trace := front + [PlaceAll(lens, cap, order)];
      PlaceIsTightest(lens, cap, front[n], order[n]);
      hide *;
      RunGrows(lens, cap, order, front, PlaceAll(lens, cap, order));
    }
  }

  lemma RunGrows(lens: seq<nat>, cap: nat, order: seq<nat>, front: seq<Bins>, last: Bins)
    requires order != [] && IsPackRun(lens, cap, order[..|order| - 1], front)
    requires IsPlacement(lens, cap, front[|order| - 1], last, order[|order| - 1])
    ensures IsPackRun(lens, cap, order, front + [last])
  {
    hide IsPlacement;
    var n, trace := |order| - 1, front + [last];
    forall t | 0 <= t < |order| ensures IsPlacement(lens, cap, trace[t], trace[t + 1], order[t]) {
      if t < n { assert order[..n][t] == order[t]; }
    }
  }

  /** The groups are those of a best-fit run over the samples in decreasing order. */
  ghost predicate IsBestFitDecreasing(lens: seq<nat>, cap: nat, groups: seq<seq<nat>>) {
    exists order: seq<nat>, trace: seq<Bins> ::
      IsDecreasing(lens, order) && IsPackRun(lens, cap, order, trace) && groups == trace[|order|].groups
  }

  // ----- what placing keeps -----------------------------------------------------

  /** No two groups could share one bin. */
  ghost predicate Crowded(lens: seq<nat>, cap: nat, groups: seq<seq<nat>>) {
    forall g, h :: 0 <= g < h < |groups| ==> Load(lens, groups[g]) + Load(lens, groups[h]) > cap
  }

  /** The remaining capacities are right and no group is empty. */
  ghost predicate Accounted(lens: seq<nat>, cap: nat, b: Bins) {
    && |b.groups| == |b.remaining|
    && forall g :: 0 <= g < |b.groups| ==> b.groups[g] != [] && Load(lens, b.groups[g]) + b.remaining[g] == cap
  }

  lemma LoadAppend(lens: seq<nat>, part: seq<nat>, i: nat)
    ensures Load(lens, part + [i]) == Load(lens, part) + LenAt(lens, i)
  {
    LoadConcat(lens, part, [i]);
  }

  lemma {:induction false} ConcatUpdate(groups: seq<seq<nat>>, g: nat, i: nat)
    requires g < |groups|
    ensures multiset(Concat(groups[g := groups[g] + [i]])) == multiset(Concat(groups)) + multiset{i}
  {
    var groups' := groups[g := groups[g] + [i]];
    if g == 0 {
      assert groups'[1..] == groups[1..];
    } else {
      ConcatUpdate(groups[1..], g - 1, i);
      assert groups'[1..] == groups[1..][g - 1 := groups[g] + [i]];
    }
  }

  lemma PlaceKeepsAccounts(lens: seq<nat>, cap: nat, b: Bins, i: nat)
    requires Accounted(lens, cap, b) && LenAt(lens, i) <= cap
    ensures Accounted(lens, cap, Place(lens, cap, b, i))
  {
    var g := BestFit(b.remaining, LenAt(lens, i), |b.remaining|);
    if g != -1 { LoadAppend(lens, b.groups[g], i); }
  }

  /** A new group is opened only for a sample that no group could take. */
  lemma PlaceKeepsCrowded(lens: seq<nat>, cap: nat, b: Bins, i: nat)
    requires Accounted(lens, cap, b) && Crowded(lens, cap, b.groups) && LenAt(lens, i) <= cap
    ensures Crowded(lens, cap, Place(lens, cap, b, i).groups)
  {
    var g := BestFit(b.remaining, LenAt(lens, i), |b.remaining|);
    if g != -1 {
      LoadAppend(lens, b.groups[g], i);
    } else {
      BestFitIsBest(b.remaining, LenAt(lens, i), |b.remaining|);
      assert Load(lens, [i]) == LenAt(lens, i);
    }
  }

  lemma PlaceAdds(lens: seq<nat>, cap: nat, b: Bins, i: nat)
    requires |b.groups| == |b.remaining| && LenAt(lens, i) <= cap
    ensures multiset(Concat(Place(lens, cap, b, i).groups)) == multiset(Concat(b.groups)) + multiset{i}
  {
    var g := BestFit(b.remaining, LenAt(lens, i), |b.remaining|);
    if g != -1 {
      ConcatUpdate(b.groups, g, i);
    } else {
      ConcatSplit(b.groups, [[i]]);
      assert Concat([[i]]) == [i];
    }
  }

  lemma {:induction false} PlaceAllPacks(lens: seq<nat>, cap: nat, order: seq<nat>)
    requires AllFit(lens, cap)
    ensures Accounted(lens, cap, PlaceAll(lens, cap, order))
    ensures Crowded(lens, cap, PlaceAll(lens, cap, order).groups)
    ensures multiset(Concat(PlaceAll(lens, cap, order).groups)) == multiset(order)
  {
    if order != [] {
      var rest, i := order[..|order| - 1], order[|order| - 1];
      PlaceAllPacks(lens, cap, rest);
      PlaceKeepsAccounts(lens, cap, PlaceAll(lens, cap, rest), i);
      PlaceKeepsCrowded(lens, cap, PlaceAll(lens, cap, rest), i);
      PlaceAdds(lens, cap, PlaceAll(lens, cap, rest), i);
      assert order == rest + [i];
    }
  }

  // ----- the packer -----------------------------------------------------------------

  /** What the packer returns when every sample fits a bin by itself. */
  function Packing(lens: seq<nat>, cap: nat): seq<seq<nat>>
    requires AllFit(lens, cap)
  {
    PlaceAll(lens, cap, Decreasing(lens)).groups
  }

  /** The inner loop: the tightest group that still takes the sample. */
  method FindBest(capacity: seq<nat>, len: nat) returns (best: int)
    ensures best == BestFit(capacity, len, |capacity|)
  {
    best := -1;
    var g := 0;
    while g < |capacity|
      invariant g <= |capacity|
      invariant best == BestFit(capacity, len, g)
    {
      if capacity[g] >= len {
        var after := capacity[g] - len;
        if best == -1 || after < capacity[best] - len { best := g; }
      }
      g := g + 1;
    }
  }

  method PackOrdered(lens: seq<nat>, cap: nat, order: seq<nat>) returns (partitions: seq<seq<nat>>)
    requires AllFit(lens, cap)
    ensures partitions == PlaceAll(lens, cap, order).groups
  {
    partitions := [];
    var capacity: seq<nat> := [];
    var n := 0;
    while n < |order|
      invariant n <= |order|
      invariant Bins(partitions, capacity) == PlaceAll(lens, cap, order[..n])
    {
      var i := order[n];
      var len := LenAt(lens, i);
      var best := FindBest(capacity, len);
      if best != -1 {
        partitions := partitions[best := partitions[best] + [i]];
        capacity := capacity[best := capacity[best] - len];
      } else {
        partitions := partitions + [[i]];
        capacity := capacity + [cap - len];
      }
      assert order[..n + 1][..n] == order[..n];
      n := n + 1;
    }
    assert order[..n] == order;
  }

  /** get_seqlen_BFD_partitions; the assertions at its end are proved, not checked. */
  method Pack(lens: seq<nat>, cap: nat) returns (r: Result<seq<seq<nat>>, PackError>)
    ensures r.Ok? <==> AllFit(lens, cap)
    ensures r.Ok? ==> r.value == Packing(lens, cap)
    ensures r.Ok? ==> IsBestFitDecreasing(lens, cap, r.value)
    ensures r.Err? ==> r.error.longest > cap && r.error.longest in lens
                       && forall x :: x in lens ==> x <= r.error.longest
  {
    LongestIsMax(lens);
    if exists i :: 0 <= i < |lens| && lens[i] > cap {
      var i :| 0 <= i < |lens| && lens[i] > cap;
      assert lens[i] in lens;
      return Err(TooLong(Longest(lens)));
    }
    var partitions := PackOrdered(lens, cap, Decreasing(lens));
    PackingTheorem(lens, cap);
    PackingIsBestFit(lens, cap);
    hide Decreasing, PlaceAll;
    assert forall p :: p in partitions ==> Load(lens, p) <= cap;
    assert |Concat(partitions)| == |lens|;
    return Ok(partitions);
  }

  lemma PackingIsBestFit(lens: seq<nat>, cap: nat)
    requires AllFit(lens, cap)
    ensures IsBestFitDecreasing(lens, cap, Packing(lens, cap))
  {
    OrderIsDecreasing(lens);
    var trace := PlaceAllIsRun(lens, cap, Decreasing(lens));
  }

  /** Every sample is in exactly one non-empty group, every group is within the cap. */
  lemma PackingTheorem(lens: seq<nat>, cap: nat)
    requires AllFit(lens, cap)
    ensures IsPermutation(Concat(Packing(lens, cap)), |lens|)
    ensures forall p :: p in Packing(lens, cap) ==> p != [] && Load(lens, p) <= cap
    ensures Crowded(lens, cap, Packing(lens, cap))
    ensures |Concat(Packing(lens, cap))| == |lens|
    ensures forall i, j :: 0 <= i < j < |Concat(Packing(lens, cap))| ==>
      Concat(Packing(lens, cap))[i] != Concat(Packing(lens, cap))[j]
  {
    PlaceAllPacks(lens, cap, Decreasing(lens));
    PermutationIsBijective(Concat(Packing(lens, cap)), |lens|);
  }

  // ----- how many bins -------------------------------------------------------------

  /** Any way of filling bins: every sample in one of them, none over the cap. */
  ghost predicate Feasible(lens: seq<nat>, cap: nat, bins: seq<seq<nat>>) {
    && IsPermutation(Concat(bins), |lens|)
    && forall p :: p in bins ==> Load(lens, p) <= cap
  }

  lemma {:induction false} SumAtMost(lens: seq<nat>, bins: seq<seq<nat>>, cap: nat)
    requires forall p :: p in bins ==> Load(lens, p) <= cap
    ensures SumLoads(lens, bins) <= |bins| * cap
  {
    if bins != [] {
      assert bins[0] in bins;
      SumAtMost(lens, bins[1..], cap);
      Distribute(|bins| - 1, cap);
    }
  }

  lemma {:induction false} SumAtLeast(lens: seq<nat>, bins: seq<seq<nat>>, low: nat)
    requires forall p :: p in bins ==> Load(lens, p) >= low
    ensures SumLoads(lens, bins) >= |bins| * low
  {
    if bins != [] {
      assert bins[0] in bins;
      SumAtLeast(lens, bins[1..], low);
      Distribute(|bins| - 1, low);
    }
  }

  /** Going along the bins, each with its neighbour, counts the inner loads twice. */
  lemma {:induction false} NeighbourSum(lens: seq<nat>, bins: seq<seq<nat>>, low: nat)
    requires |bins| >= 1
    requires low > 0 && Crowded(lens, low - 1, bins)
    ensures 2 * SumLoads(lens, bins) - Load(lens, bins[0]) - Load(lens, bins[|bins| - 1]) >= (|bins| - 1) * low
  {
    var tail := bins[1..];
    if |bins| > 1 {
      NeighbourSum(lens, tail, low);
      assert Load(lens, bins[0]) + Load(lens, bins[1]) >= low;
      Distribute(|bins| - 2, low);
    } else {
      assert SumLoads(lens, tail) == 0;
    }
  }

  /** Twice the total length exceeds what the bins used could hold. */
  lemma TotalBound(lens: seq<nat>, cap: nat)
    requires AllFit(lens, cap) && |Packing(lens, cap)| >= 2
    ensures 2 * Load(lens, Range(|lens|)) >= |Packing(lens, cap)| * (cap + 1)
  {
    PackingTheorem(lens, cap);
    LoadsOfAnyCover(lens, Packing(lens, cap));
    var bins := Packing(lens, cap);
    NeighbourSum(lens, bins, cap + 1);
    assert Load(lens, bins[0]) + Load(lens, bins[|bins| - 1]) >= cap + 1;
    Distribute(|bins| - 1, cap + 1);
  }

  // ----- three halves of the optimum ----------------------------------------------

  /** The moment the last group was opened: sample order[t] fitted none of the groups so far. */
  lemma {:induction false} LastOpened(lens: seq<nat>, cap: nat, order: seq<nat>) returns (t: nat)
    requires AllFit(lens, cap) && PlaceAll(lens, cap, order).groups != []
    ensures t < |order|
    ensures |PlaceAll(lens, cap, order[..t]).groups| == |PlaceAll(lens, cap, order).groups| - 1
    ensures forall g :: 0 <= g < |PlaceAll(lens, cap, order[..t]).remaining| ==>
      PlaceAll(lens, cap, order[..t]).remaining[g] < LenAt(lens, order[t])
  {
    var n := |order| - 1;
    var b := PlaceAll(lens, cap, order[..n]);
    BestFitIsBest(b.remaining, LenAt(lens, order[n]), |b.remaining|);
    if BestFit(b.remaining, LenAt(lens, order[n]), |b.remaining|) == -1 {
      t := n;
    } else {
      t := LastOpened(lens, cap, order[..n]);
      assert order[..n][..t] == order[..t];
    }
  }

  /** Two for a sample that cannot share a bin with one of length x, one for any other in `seen`. */
  function Weight(lens: seq<nat>, cap: nat, x: nat, seen: set<nat>, i: nat): nat {
    if i !in seen then 0 else if LenAt(lens, i) + x > cap then 2 else 1
  }

  function Weights(lens: seq<nat>, cap: nat, x: nat, seen: set<nat>): (w: seq<nat>)
    ensures |w| == |lens|
    ensures forall i :: 0 <= i < |w| ==> w[i] == Weight(lens, cap, x, seen, i)
  {
    seq(|lens|, i requires 0 <= i => Weight(lens, cap, x, seen, i))
  }

  /** No bin within the cap weighs more than two, if the samples seen exceed a third of it. */
  lemma {:induction false} BinWeight(lens: seq<nat>, cap: nat, x: nat, seen: set<nat>, p: seq<nat>)
    requires 3 * x > cap
    requires forall i :: i in seen ==> LenAt(lens, i) >= x
    ensures var w, l := Load(Weights(lens, cap, x, seen), p), Load(lens, p);
      && (w >= 1 ==> l >= x)
      && (w >= 2 ==> l >= 2 * x || l > cap - x)
      && (w >= 3 ==> l > cap)
  {
    if p != [] {
      BinWeight(lens, cap, x, seen, p[1..]);
    }
  }

  /** A crowded group of samples seen weighs at least two. */
  lemma GroupWeight(lens: seq<nat>, cap: nat, x: nat, seen: set<nat>, p: seq<nat>)
    requires p != [] && Load(lens, p) > cap - x
    requires forall i :: i in p ==> i in seen && i < |lens|
    ensures Load(Weights(lens, cap, x, seen), p) >= 2
  {
    var w := Weights(lens, cap, x, seen);
    assert p[0] in p && w[p[0]] >= 1;
    assert Load(w, p) == w[p[0]] + Load(w, p[1..]);
    if |p| == 1 {
      assert p[1..] == [];
      assert Load(lens, p) == LenAt(lens, p[0]);
    } else {
      assert p[1] in p && w[p[1]] >= 1;
    }
  }

  /** What is known about the groups at the moment before order[t] opens a new one. */
  lemma GroupsBefore(lens: seq<nat>, cap: nat, order: seq<nat>, t: nat)
    requires AllFit(lens, cap) && IsPermutation(order, |lens|) && t < |order|
    ensures Accounted(lens, cap, PlaceAll(lens, cap, order[..t]))
    ensures forall p, i :: p in PlaceAll(lens, cap, order[..t]).groups && i in p ==> i in order[..t + 1] && i < |lens|
  {
    var prefix := order[..t];
    var groups := PlaceAll(lens, cap, prefix).groups;
    PlaceAllPacks(lens, cap, prefix);
    PermutationIsBijective(order, |lens|);
    hide PlaceAll, Accounted, Crowded, IsPermutation, AllFit;
    SameMembers<nat>(Concat(groups), prefix);
    forall p, i: nat | p in groups && i in p ensures i in order[..t + 1] && i < |lens| {
      var g :| 0 <= g < |groups| && groups[g] == p;
      ConcatMembers<nat>(groups, i);
      var j :| 0 <= j < |prefix| && prefix[j] == i;
      assert order[j] == i && i in order;
      assert i < |lens|;
      assert order[..t + 1][j] == i;
      assert i in order[..t + 1];
    }
  }

  /** Whatever is summed, those groups and order[t] together do not exceed the whole. */
  lemma SumBefore(lens: seq<nat>, cap: nat, order: seq<nat>, t: nat, w: seq<nat>)
    requires AllFit(lens, cap) && IsPermutation(order, |lens|) && t < |order|
    ensures SumLoads(w, PlaceAll(lens, cap, order[..t]).groups) + LenAt(w, order[t]) <= Load(w, Range(|lens|))
  {
    var groups := PlaceAll(lens, cap, order[..t]).groups;
    PlaceAllPacks(lens, cap, order[..t]);
    LoadOfConcat(w, groups);
    LoadOfPermutation(w, Concat(groups), order[..t]);
    LoadOfPermutation(w, order, Range(|lens|));
    LoadConcat(w, order[..t], order[t..]);
    assert order == order[..t] + order[t..];
  }

  /** Long samples only: the packer is then optimal. */
  lemma LongCase(lens: seq<nat>, cap: nat, bins: seq<seq<nat>>, t: nat)
    requires AllFit(lens, cap) && Feasible(lens, cap, bins)
    requires t < |Decreasing(lens)| && 3 * LenAt(lens, Decreasing(lens)[t]) > cap
    requires forall g :: 0 <= g < |PlaceAll(lens, cap, Decreasing(lens)[..t]).remaining| ==>
      PlaceAll(lens, cap, Decreasing(lens)[..t]).remaining[g] < LenAt(lens, Decreasing(lens)[t])
    ensures |bins| >= |PlaceAll(lens, cap, Decreasing(lens)[..t]).groups| + 1
  {
    var order := Decreasing(lens);
    var x, b := LenAt(lens, order[t]), PlaceAll(lens, cap, order[..t]);
    var prefix := order[..t + 1];
    var seen := set i | i in prefix;
    var w := Weights(lens, cap, x, seen);
    DecreasingLengths(lens);
    GroupsBefore(lens, cap, order, t);
    PermutationIsBijective(order, |lens|);
    forall p | p in b.groups ensures Load(w, p) >= 2 {
      GroupWeight(lens, cap, x, seen, p);
    }
    SumAtLeast(w, b.groups, 2);
    SumBefore(lens, cap, order, t, w);
    assert LenAt(w, order[t]) >= 1;
    forall p | p in bins ensures Load(w, p) <= 2 {
      BinWeight(lens, cap, x, seen, p);
    }
    SumAtMost(w, bins, 2);
    LoadsOfAnyCover(w, bins);
  }

  /** Some sample is at most a third of the cap: the groups are too full to be many. */
  lemma ShortCase(lens: seq<nat>, cap: nat, bins: seq<seq<nat>>, t: nat)
    requires AllFit(lens, cap) && Feasible(lens, cap, bins)
    requires t < |Decreasing(lens)| && 3 * LenAt(lens, Decreasing(lens)[t]) <= cap
    requires forall g :: 0 <= g < |PlaceAll(lens, cap, Decreasing(lens)[..t]).remaining| ==>
      PlaceAll(lens, cap, Decreasing(lens)[..t]).remaining[g] < LenAt(lens, Decreasing(lens)[t])
    ensures 3 * |bins| >= 2 * (|PlaceAll(lens, cap, Decreasing(lens)[..t]).groups| + 1)
  {
    var order := Decreasing(lens);
    var x, b := LenAt(lens, order[t]), PlaceAll(lens, cap, order[..t]);
    GroupsBefore(lens, cap, order, t);
    forall p | p in b.groups ensures Load(lens, p) >= cap - x + 1 {
      var g :| 0 <= g < |b.groups| && b.groups[g] == p;
      assert b.remaining[g] < x;
    }
    SumAtLeast(lens, b.groups, cap - x + 1);
    SumBefore(lens, cap, order, t, lens);
    SameMembers(Concat(bins), Range(|lens|));
    assert bins != [];
    SumAtMost(lens, bins, cap);
    LoadsOfAnyCover(lens, bins);
    VolumeArithmetic(|b.groups|, |bins|, cap, x);
  }

  lemma VolumeArithmetic(k: nat, m: nat, cap: nat, x: nat)
    requires m > 0 && 3 * x <= cap && k * (cap - x + 1) + x <= m * cap
    ensures 3 * m >= 2 * (k + 1)
  {
    if k > 0 {
      assert k * (cap - x + 1) == k * cap - k * x + k;
      assert k * x == (k - 1) * x + x;
      Monotone(3 * x, cap, k - 1);
      assert (k - 1) * cap == k * cap - cap;
      assert (2 * k + 1) * cap == 2 * (k * cap) + cap;
      assert 3 * m * cap == 3 * (m * cap);
      Cancel(2 * k + 1, 3 * m, cap);
    }
  }

  /** Main theorem: at most one and a half times as many bins as any packing needs. */
  lemma ThreeHalves(lens: seq<nat>, cap: nat, bins: seq<seq<nat>>)
    requires AllFit(lens, cap) && Feasible(lens, cap, bins)
    ensures 2 * |Packing(lens, cap)| <= 3 * |bins|
  {
    var order := Decreasing(lens);
    if Packing(lens, cap) != [] {
      var t := LastOpened(lens, cap, order);
      if 3 * LenAt(lens, order[t]) > cap {
        LongCase(lens, cap, bins, t);
      } else {
        ShortCase(lens, cap, bins, t);
      }
    }
  }
}
