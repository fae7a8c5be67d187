/**
  What the choice inside one group is, said without the way it is computed: which samples of
  each kind come first, how the quotas are rounded and raised to the minimums, and when the
  rewards are ignored.
 */
module GroupChoice {
  import opened Arithmetic
  import opened Sequences
  import opened DownSampling

  // ----- the orders ------------------------------------------------------------------------------

  predicate Rewarded(rewards: seq<real>, i: nat) {
    i < |rewards| && rewards[i] > 0.0
  }

  /** Lower penalty first, then rewarded before unrewarded samples, then by index. */
  function Before(rewards: seq<real>, penalty: seq<real>): (nat, nat) -> bool {
    (i: nat, j: nat) =>
      At(penalty, i) < At(penalty, j)
      || (At(penalty, i) == At(penalty, j)
          && ((Rewarded(rewards, i) && !Rewarded(rewards, j))
              || (Rewarded(rewards, i) == Rewarded(rewards, j) && i < j)))
  }

  lemma BeforeIsOrder(rewards: seq<real>, penalty: seq<real>)
    ensures StrictWeakOrder(Before(rewards, penalty))
  {
  }

  ghost predicate Increasing(s: seq<nat>) {
    forall i, j :: 0 <= i < j < |s| ==> s[i] < s[j]
  }

  /** The samples of one kind in the order of the group. */
  ghost predicate IsKind(rewards: seq<real>, idxs: seq<nat>, rewarded: bool, kind: seq<nat>) {
    Increasing(kind) && forall i: nat :: i in kind <==> i in idxs && Rewarded(rewards, i) == rewarded
  }

  /** The same samples as in s, every one before the ones behind it. */
  ghost predicate IsRanking(rewards: seq<real>, penalty: seq<real>, s: seq<nat>, ranking: seq<nat>) {
    && multiset(ranking) == multiset(s)
    && forall i, j :: 0 <= i < j < |ranking| ==> Before(rewards, penalty)(ranking[i], ranking[j])
  }

  lemma {:induction false} KindInOrder(rewards: seq<real>, idxs: seq<nat>, rewarded: bool)
    requires InRange(idxs, |rewards|) && Increasing(idxs)
    ensures IsKind(rewards, idxs, rewarded, WithReward(rewards, idxs, rewarded))
  {
    if idxs != [] {
      var front, last := idxs[..|idxs| - 1], idxs[|idxs| - 1];
      assert idxs == front + [last];
      KindInOrder(rewards, front, rewarded);
      KindGrows(rewards, front, last, rewarded, WithReward(rewards, front, rewarded));
      assert Rewarded(rewards, last) == (rewards[last] > 0.0);
      hide IsKind, Increasing;
    }
  }

  lemma KindGrows(rewards: seq<real>, front: seq<nat>, last: nat, rewarded: bool, r: seq<nat>)
    requires Increasing(front + [last]) && IsKind(rewards, front, rewarded, r)
    ensures IsKind(rewards, front + [last], rewarded, if Rewarded(rewards, last) == rewarded then r + [last] else r)
  {
    hide Rewarded;
    forall i | 0 <= i < |r| ensures r[i] < last {
      assert r[i] in r && r[i] in front;
      var j :| 0 <= j < |front| && front[j] == r[i];
      assert (front + [last])[j] == front[j] && (front + [last])[|front|] == last;
    }
    assert forall i: nat :: i in front + [last] <==> i in front || i == last;
  }

  lemma StrictlyBefore(rewards: seq<real>, penalty: seq<real>, s: seq<nat>)
    requires Distinct(s) && Sorted(Before(rewards, penalty), s)
    ensures forall i, j :: 0 <= i < j < |s| ==> Before(rewards, penalty)(s[i], s[j])
  {
    forall i, j | 0 <= i < j < |s| ensures Before(rewards, penalty)(s[i], s[j]) {
      assert !Before(rewards, penalty)(s[j], s[i]) && s[i] != s[j];
    }
  }

  lemma DistinctSort(less: (nat, nat) -> bool, s: seq<nat>)
    requires Distinct(s)
    ensures Distinct(Sort(less, s))
  {
    var r := Sort(less, s);
    SameMembers(r, s);
    DistinctCounts(s);
    DistinctCounts(r);
  }

  /** Sorting by penalty alone ranks a list in which samples of equal penalty are already in order. */
  lemma SortRanks(rewards: seq<real>, penalty: seq<real>, s: seq<nat>)
    requires Distinct(s)
    requires forall i, j :: 0 <= i < j < |s| && At(penalty, s[i]) == At(penalty, s[j]) ==>
               Before(rewards, penalty)(s[i], s[j])
    ensures IsRanking(rewards, penalty, s, Sort(ByPenalty(penalty), s))
  {
    SortAgrees(ByPenalty(penalty), Before(rewards, penalty), s);
    BeforeIsOrder(rewards, penalty);
    SortSorts(Before(rewards, penalty), s);
    DistinctSort(Before(rewards, penalty), s);
    hide Sort;
    StrictlyBefore(rewards, penalty, Sort(Before(rewards, penalty), s));
  }

  lemma IncreasingIsDistinct(s: seq<nat>)
    requires Increasing(s)
    ensures Distinct(s)
  {
  }

  /** The rewarded samples by penalty, ties by index. */
  lemma RankedIsRanking(rewards: seq<real>, penalty: seq<real>, idxs: seq<nat>)
    requires InRange(idxs, |rewards|) && Increasing(idxs)
    ensures IsRanking(rewards, penalty, WithReward(rewards, idxs, true), Ranked(rewards, penalty, idxs))
  {
    var kind := WithReward(rewards, idxs, true);
    KindInOrder(rewards, idxs, true);
    hide WithReward;
    IncreasingIsDistinct(kind);
    forall i | 0 <= i < |kind| ensures Rewarded(rewards, kind[i]) { assert kind[i] in kind; }
    SortRanks(rewards, penalty, kind);
  }

  /** The whole group by penalty, ties with the rewarded samples first and then by index. */
  lemma FallbackIsRanking(rewards: seq<real>, penalty: seq<real>, idxs: seq<nat>)
    requires InRange(idxs, |rewards|) && Increasing(idxs)
    ensures IsRanking(rewards, penalty, idxs,
                      Sort(ByPenalty(penalty), Ranked(rewards, penalty, idxs) + WithReward(rewards, idxs, false)))
  {
    var ranked, zeros := Ranked(rewards, penalty, idxs), WithReward(rewards, idxs, false);
    RankedIsRanking(rewards, penalty, idxs);
    KindInOrder(rewards, idxs, true);
    KindInOrder(rewards, idxs, false);
    KindsSplit(rewards, idxs);
    SameMembers(ranked, WithReward(rewards, idxs, true));
    var both := ranked + zeros;
    assert multiset(both) == multiset(idxs);
    hide Ranked, WithReward;
    IncreasingIsDistinct(idxs);
    SameCounts(idxs, both);
    forall i | 0 <= i < |ranked| ensures Rewarded(rewards, ranked[i]) { assert ranked[i] in ranked; }
    forall i | 0 <= i < |zeros| ensures !Rewarded(rewards, zeros[i]) { assert zeros[i] in zeros; }
    forall i, j | 0 <= i < j < |both| && At(penalty, both[i]) == At(penalty, both[j])
      ensures Before(rewards, penalty)(both[i], both[j])
    {
      if j < |ranked| { assert Before(rewards, penalty)(ranked[i], ranked[j]); }
    }
    SortRanks(rewards, penalty, both);
  }

  lemma SameCounts(s: seq<nat>, t: seq<nat>)
    requires Distinct(s) && multiset(s) == multiset(t)
    ensures Distinct(t)
  {
    DistinctCounts(s);
    DistinctCounts(t);
    SameMembers(s, t);
  }

  // ----- the quotas ------------------------------------------------------------------------------

  /** r is p/q to the nearest integer, the even one of two equally near. */
  ghost predicate IsNearest(p: nat, q: nat, r: nat) {
    && 2 * p - q <= 2 * (q * r) <= 2 * p + q
    && (2 * (q * r) == 2 * p - q || 2 * (q * r) == 2 * p + q ==> r % 2 == 0)
  }

  /**
    The quotas of z unrewarded and nz rewarded samples: the rounded shares, unless a share does not
    exceed its minimum. The minimum of the rewarded samples is looked at last and wins.
   */
  ghost predicate AreQuotas(cfg: Config, z: nat, nz: nat, zq: int, nzq: int) {
    exists rz: nat, rnz: nat :: QuotasFrom(cfg, z, nz, rz, rnz, zq, nzq)
  }

  /** The same with the rounded shares rz and rnz. */
  ghost predicate QuotasFrom(cfg: Config, z: nat, nz: nat, rz: nat, rnz: nat, zq: int, nzq: int) {
    var n, a, c := cfg.target, Min(cfg.minZero, z), Min(cfg.minNonZero, nz);
    && n > 0 && IsNearest(z * n, z + nz, rz) && IsNearest(nz * n, z + nz, rnz)
    && (rz > a && rnz > c ==> zq == rz && nzq == rnz)
    && (rz > a && rnz <= c ==> zq == n - c && nzq == c)
    && (rz <= a && n - a > c ==> zq == a && nzq == n - a)
    && (rz <= a && n - a <= c ==> zq == n - c && nzq == c)
  }

  lemma QuotasAreQuotas(cfg: Config, z: nat, nz: nat)
    requires cfg.target > 0 && z + nz > 0
    ensures var (zq, nzq) := Quotas(cfg, z, nz); AreQuotas(cfg, z, nz, zq, nzq)
  {
    var n, m := cfg.target, z + nz;
    var rz, rnz := RoundShare(z, n, m), RoundShare(nz, n, m);
    ShareIsNearest(z, n, m);
    ShareIsNearest(nz, n, m);
    hide RoundShare, IsNearest;
    var (zq, nzq) := Quotas(cfg, z, nz);
    assert QuotasFrom(cfg, z, nz, rz, rnz, zq, nzq);
  }

  lemma ShareIsNearest(z: nat, n: nat, m: nat)
    requires m > 0
    ensures IsNearest(z * n, m, RoundShare(z, n, m))
  {
    RoundIsNearest(z * n, m);
    hide RoundHalfEven;
  }

  /** Where Python's s[:q] ends in a list of this length; a negative q counts from the end. */
  function SliceEnd(length: nat, q: int): (e: nat)
    ensures e <= length
  {
    if length + q < 0 then 0 else if q < 0 then length + q else if q < length then q else length
  }

  // ----- the choice ------------------------------------------------------------------------------

  /**
    A group larger than the target. The quotas are taken from the front of the ranked rewarded samples
    and of the unrewarded ones in group order. When that does not give the target, the first
    `target` samples of the ranking of the whole group are taken instead.
   */
  ghost predicate IsLargeChoice(cfg: Config, rewards: seq<real>, penalty: seq<real>, idxs: seq<nat>,
                                chosen: seq<nat>)
  {
    exists zeros: seq<nat>, kind: seq<nat>, ranked: seq<nat>, all: seq<nat>, zq: int, nzq: int ::
      && IsKind(rewards, idxs, false, zeros) && IsKind(rewards, idxs, true, kind)
      && IsRanking(rewards, penalty, kind, ranked) && IsRanking(rewards, penalty, idxs, all)
      && AreQuotas(cfg, |zeros|, |ranked|, zq, nzq)
      && IsTaken(cfg.target, zeros, ranked, all, zq, nzq, chosen)
  }

  /** The quotas off the fronts of the two lists, or the front of all if those are not n samples. */
  ghost predicate IsTaken(n: int, zeros: seq<nat>, ranked: seq<nat>, all: seq<nat>, zq: int, nzq: int,
                          chosen: seq<nat>)
  {
    var picked := ranked[..SliceEnd(|ranked|, nzq)] + zeros[..SliceEnd(|zeros|, zq)];
    if |picked| == n then chosen == picked else 0 <= n <= |all| && chosen == all[..n]
  }

  /** None of a group that is too small, all of one that fits, and otherwise the choice of a large group. */
  ghost predicate IsChoice(cfg: Config, rewards: seq<real>, penalty: seq<real>, idxs: seq<nat>, chosen: seq<nat>) {
    if |idxs| < cfg.target then chosen == []
    else if |idxs| == cfg.target then chosen == idxs
    else IsLargeChoice(cfg, rewards, penalty, idxs, chosen)
  }

  lemma PrefixIsSlice(s: seq<nat>, q: int)
    ensures Prefix(s, q) == s[..SliceEnd(|s|, q)]
  {
  }

  lemma LargeChoice(cfg: Config, rewards: seq<real>, penalty: seq<real>, idxs: seq<nat>)
    requires InRange(idxs, |rewards|) && Increasing(idxs) && 0 < cfg.target < |idxs|
    ensures IsLargeChoice(cfg, rewards, penalty, idxs, Choice(cfg, rewards, penalty, idxs))
  {
    var zeros, kind := WithReward(rewards, idxs, false), WithReward(rewards, idxs, true);
    var ranked := Ranked(rewards, penalty, idxs);
    var all := Sort(ByPenalty(penalty), ranked + zeros);
    KindsSplit(rewards, idxs);
    var (zq, nzq) := Quotas(cfg, |zeros|, |ranked|);
    TakenByCode(cfg, rewards, penalty, idxs);
    hide *;
    KindInOrder(rewards, idxs, false);
    KindInOrder(rewards, idxs, true);
    RankedIsRanking(rewards, penalty, idxs);
    FallbackIsRanking(rewards, penalty, idxs);
    QuotasAreQuotas(cfg, |zeros|, |ranked|);
    LargeChoiceOf(cfg, rewards, penalty, idxs, zeros, kind, ranked, all, zq, nzq, Choice(cfg, rewards, penalty, idxs));
  }

  lemma LargeChoiceOf(cfg: Config, rewards: seq<real>, penalty: seq<real>, idxs: seq<nat>, zeros: seq<nat>,
                      kind: seq<nat>, ranked: seq<nat>, all: seq<nat>, zq: int, nzq: int, chosen: seq<nat>)
    requires IsKind(rewards, idxs, false, zeros) && IsKind(rewards, idxs, true, kind)
    requires IsRanking(rewards, penalty, kind, ranked) && IsRanking(rewards, penalty, idxs, all)
    requires AreQuotas(cfg, |zeros|, |ranked|, zq, nzq)
    requires IsTaken(cfg.target, zeros, ranked, all, zq, nzq, chosen)
    ensures IsLargeChoice(cfg, rewards, penalty, idxs, chosen)
  {
    hide IsKind, IsRanking, AreQuotas, IsTaken;
  }

  lemma TakenByCode(cfg: Config, rewards: seq<real>, penalty: seq<real>, idxs: seq<nat>)
    requires InRange(idxs, |rewards|) && 0 < cfg.target < |idxs|
    ensures var zeros, ranked := WithReward(rewards, idxs, false), Ranked(rewards, penalty, idxs);
            var all := Sort(ByPenalty(penalty), ranked + zeros);
            && |zeros| + |ranked| > 0
            && var (zq, nzq) := Quotas(cfg, |zeros|, |ranked|);
               IsTaken(cfg.target, zeros, ranked, all, zq, nzq, Choice(cfg, rewards, penalty, idxs))
  {
    var zeros, ranked := WithReward(rewards, idxs, false), Ranked(rewards, penalty, idxs);
    KindsSplit(rewards, idxs);
    var (zq, nzq) := Quotas(cfg, |zeros|, |ranked|);
    PrefixIsSlice(ranked, nzq);
    PrefixIsSlice(zeros, zq);
    PrefixIsSlice(Sort(ByPenalty(penalty), ranked + zeros), cfg.target);
    assert |Sort(ByPenalty(penalty), ranked + zeros)| == |idxs|;
    hide WithReward, Quotas, Prefix, Sort;
    assert ByQuota(cfg, rewards, penalty, idxs) == ranked[..SliceEnd(|ranked|, nzq)] + zeros[..SliceEnd(|zeros|, zq)];
  }

  /** The choice of the code, for every group and every configuration with a target. */
  lemma ChoiceTheorem(cfg: Config, rewards: seq<real>, penalty: seq<real>, idxs: seq<nat>)
    requires InRange(idxs, |rewards|) && Increasing(idxs) && cfg.target > 0
    ensures IsChoice(cfg, rewards, penalty, idxs, Choice(cfg, rewards, penalty, idxs))
  {
    if |idxs| > cfg.target {
      LargeChoice(cfg, rewards, penalty, idxs);
      hide *;
    }
  }
}
