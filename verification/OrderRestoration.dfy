/** get_reverse_idx, and the way back from micro-batches to the original order. */
module OrderRestoration {
  import opened Sequences
  import KarmarkarKarp
  import KarmarkarKarpObjects

  /** What position j of the reversed map holds: the last i with idxMap[i] == j, else what was there. */
  ghost predicate ReverseAt(idxMap: seq<nat>, upTo: nat, j: nat, v: nat)
    requires upTo <= |idxMap| && j < |idxMap|
  {
    if j in idxMap[..upTo] then
      v < upTo && idxMap[v] == j && forall i :: v < i < upTo ==> idxMap[i] != j
    else
      v == idxMap[j]
  }

  /** The copy of the map is overwritten in place, position by position. */
  method GetReverseIdx(idxMap: seq<nat>) returns (reverse: array<nat>)
    requires InRange(idxMap, |idxMap|)
    ensures fresh(reverse) && reverse.Length == |idxMap|
    ensures forall j :: 0 <= j < |idxMap| ==> ReverseAt(idxMap, |idxMap|, j, reverse[j])
  {
    reverse := new nat[|idxMap|](i requires 0 <= i < |idxMap| => idxMap[i]);
    var i := 0;
    while i < |idxMap|
      invariant i <= |idxMap|
      invariant forall j :: 0 <= j < |idxMap| ==> ReverseAt(idxMap, i, j, reverse[j])
    {
      assert idxMap[..i + 1] == idxMap[..i] + [idxMap[i]];
      reverse[idxMap[i]] := i;
      i := i + 1;
    }
  }

  /** Of a permutation, the reversed map is a two-sided inverse. */
  lemma ReverseInverts(idxMap: seq<nat>, reverse: seq<nat>)
    requires IsPermutation(idxMap, |idxMap|) && |reverse| == |idxMap|
    requires forall j :: 0 <= j < |idxMap| ==> ReverseAt(idxMap, |idxMap|, j, reverse[j])
    ensures InRange(idxMap, |idxMap|) && InRange(reverse, |idxMap|)
    ensures forall j :: 0 <= j < |idxMap| ==> idxMap[reverse[j]] == j
    ensures forall i :: 0 <= i < |idxMap| ==> reverse[idxMap[i]] == i
  {
    var n := |idxMap|;
    PermutationIsBijective(idxMap, n);
    assert idxMap[..n] == idxMap;
    forall i | 0 <= i < n ensures idxMap[i] < n { assert idxMap[i] in idxMap; }
    forall j | 0 <= j < n ensures reverse[j] < n && idxMap[reverse[j]] == j {
      assert j in idxMap;
    }
  }

  /** Gathering by the map and then by its reverse returns the original batch. */
  lemma RestoresOrder<T>(batch: seq<T>, idxMap: seq<nat>, reverse: seq<nat>)
    requires IsPermutation(idxMap, |batch|) && |idxMap| == |reverse| == |batch|
    requires forall j :: 0 <= j < |idxMap| ==> ReverseAt(idxMap, |idxMap|, j, reverse[j])
    ensures InRange(idxMap, |batch|) && InRange(reverse, |batch|)
    ensures Gather(Gather(batch, idxMap), reverse) == batch
  {
    ReverseInverts(idxMap, reverse);
  }

  function Mapped<T, U>(f: T -> U, s: seq<T>): (r: seq<U>)
    ensures |r| == |s| && forall i :: 0 <= i < |s| ==> r[i] == f(s[i])
  {
    seq(|s|, i requires 0 <= i < |s| => f(s[i]))
  }

  lemma MapAfterGather<T, U>(f: T -> U, batch: seq<T>, idx: seq<nat>)
    requires InRange(idx, |batch|)
    ensures Mapped(f, Gather(batch, idx)) == Gather(Mapped(f, batch), idx)
  {
  }

  lemma OneMorePart<T, U>(f: T -> U, batch: seq<T>, parts: seq<seq<nat>>, p: nat)
    requires p < |parts| && InRange(Concat(parts), |batch|)
    ensures InRange(Concat(parts[..p]), |batch|) && InRange(parts[p], |batch|)
    ensures InRange(Concat(parts[..p + 1]), |batch|)
    ensures Gather(Mapped(f, batch), Concat(parts[..p + 1]))
         == Gather(Mapped(f, batch), Concat(parts[..p])) + Mapped(f, Gather(batch, parts[p]))
  {
    hide Mapped, Gather;
    var front := Concat(parts[..p]);
    ConcatAround(parts, p);
    PieceInRange(front, parts[p], Concat(parts[p + 1..]), |batch|);
    ConcatOneMore(parts, p);
    hide Concat;
    GatherConcat(Mapped(f, batch), front, parts[p]);
    MapAfterGather(f, batch, parts[p]);
  }

  lemma PieceInRange(front: seq<nat>, mine: seq<nat>, back: seq<nat>, n: nat)
    requires InRange(front + (mine + back), n)
    ensures InRange(front, n) && InRange(mine, n)
  {
    var s := front + (mine + back);
    forall i | 0 <= i < |front| ensures front[i] < n { assert s[i] == front[i]; }
    forall i | 0 <= i < |mine| ensures mine[i] < n { assert s[|front| + i] == mine[i]; }
  }

  /**
    The dynamic-batching use: the rows are dealt to k balanced micro-batches, the model f runs on one
    micro-batch after the other, and its concatenated outputs come back in the order of the batch.
   */
  method ProcessInMicroBatches<T, U>(batch: seq<T>, lens: seq<nat>, k: nat, f: T -> U) returns (restored: seq<U>)
    requires 0 < k <= |lens| == |batch|
    ensures restored == Mapped(f, batch)
  {
    hide ReverseAt, KarmarkarKarp.Balanced, KarmarkarKarp.GoodParts, Gather, Mapped, Concat;
    var parts := KarmarkarKarpObjects.BalancedPartitions(lens, k, false);
    BalancedIsPermutation(lens, k);
    var idxMap := Concat(parts);
    PermutationIsBijective(idxMap, |batch|);
    PermutationInRange(idxMap, |batch|);
    var outputs: seq<U> := [];
    NoParts(Mapped(f, batch), parts);
    for p := 0 to |parts|
      invariant InRange(Concat(parts[..p]), |batch|)
      invariant outputs == Gather(Mapped(f, batch), Concat(parts[..p]))
    {
      OneMorePart(f, batch, parts, p);
      var microBatch := Gather(batch, parts[p]);
      outputs := outputs + Mapped(f, microBatch);
    }
    assert parts[..|parts|] == parts;
    var reverse := GetReverseIdx(idxMap);
    RestoresOrder(Mapped(f, batch), idxMap, reverse[..]);
    restored := Gather(outputs, reverse[..]);
  }

  lemma NoParts<U>(s: seq<U>, parts: seq<seq<nat>>)
    ensures InRange(Concat(parts[..0]), |s|) && Gather(s, Concat(parts[..0])) == []
  {
  }

  lemma BalancedIsPermutation(lens: seq<nat>, k: nat)
    requires 0 < k <= |lens|
    ensures IsPermutation(Concat(KarmarkarKarp.Balanced(lens, k, false)), |lens|)
  {
    KarmarkarKarp.BalancedTheorem(lens, k, false);
    hide KarmarkarKarp.Balanced;
  }

  lemma PermutationInRange(s: seq<nat>, n: nat)
    requires IsPermutation(s, n)
    ensures InRange(s, n)
  {
    PermutationIsBijective(s, n);
    forall i | 0 <= i < |s| ensures s[i] < n { assert s[i] in s; }
  }
}
