/**
  Down-sampling of rollout groups: which samples of a batch are kept, and what is left of
  the groups. Penalties and rewards are exact reals; the regular-expression scores that make
  up the penalties are inputs.
 */
module DownSampling {
  import opened Sequences
  import opened Arithmetic

  datatype Config = Config(target: int, errorRatio: bool, answerFormat: bool,
                           minZero: int, minNonZero: int, rejectEqual: bool)

  // ----- groups as chunks of the batch ---------------------------------------------------------

  function ChunkSize(groupSize: int): (c: nat)
    ensures c >= 1 && c >= groupSize && (c == 1 || c == groupSize)
  {
    if groupSize > 1 then groupSize else 1
  }

  /** The group that sample `i` belongs to. */
  function Uid(i: nat, c: nat): nat
    requires c > 0
  {
    i / c
  }

  /** Where group `u` starts, or the end of the batch. */
  function Bound(total: nat, c: nat, u: nat): (b: nat)
    ensures b <= total
  {
    if u * c < total then u * c else total
  }

  lemma BoundGrows(total: nat, c: nat, u: nat)
    ensures Bound(total, c, 0) == 0
    ensures Bound(total, c, u) <= Bound(total, c, u + 1) <= Bound(total, c, u) + c
  {
    assert u * c + c == (u + 1) * c;
  }

  lemma UidBounds(total: nat, c: nat, i: nat, u: nat)
    requires c > 0 && i < total
    ensures Uid(i, c) == u <==> Bound(total, c, u) <= i < Bound(total, c, u + 1)
    ensures Uid(i, c) < u <==> i < Bound(total, c, u)
  {
    var q := i / c;
    assert i == c * q + i % c;
    assert u * c + c == (u + 1) * c;
    if q < u {
      Arithmetic.Monotone(q + 1, u, c);
    } else if q > u {
      Arithmetic.Monotone(u + 1, q, c);
    }
  }

  function GroupCount(total: nat, c: nat): nat
    requires c > 0
  {
    (total + c - 1) / c
  }

  lemma GroupsCover(total: nat, c: nat)
    requires c > 0
    ensures Bound(total, c, GroupCount(total, c)) == total
  {
    var n := GroupCount(total, c);
    assert total + c - 1 == c * n + (total + c - 1) % c;
  }

  /** The samples of group `u`, in order. */
  function Group(total: nat, c: nat, u: nat): (g: seq<nat>)
    ensures InRange(g, total)
  {
    BoundGrows(total, c, u);
    seq(Bound(total, c, u + 1) - Bound(total, c, u), j requires j >= 0 => Bound(total, c, u) + j)
  }

  lemma GroupMembers(total: nat, c: nat, u: nat)
    requires c > 0
    ensures forall i: nat :: i in Group(total, c, u) <==> i < total && Uid(i, c) == u
    ensures forall i: nat :: Uid(i, c) == i / c
    ensures forall i, j :: 0 <= i < j < |Group(total, c, u)| ==> Group(total, c, u)[i] < Group(total, c, u)[j]
    ensures |Group(total, c, u)| == Bound(total, c, u + 1) - Bound(total, c, u)
    ensures Distinct(Group(total, c, u))
  {
    assert forall i: nat :: Uid(i, c) == i / c;
    hide Uid;
    BoundGrows(total, c, u);
    var lo, hi := Bound(total, c, u), Bound(total, c, u + 1);
    hide Bound;
    var g := Group(total, c, u);
    forall i: nat ensures i in g <==> i < total && Uid(i, c) == u {
      if i < total { UidBounds(total, c, i, u); }
      if lo <= i < hi { assert g[i - lo] == i; }
    }
  }

  lemma SameMembersSameSize(a: seq<nat>, b: seq<nat>)
    requires Distinct(a) && Distinct(b) && forall x :: x in a <==> x in b
    ensures |a| == |b|
  {
    DistinctCounts(a);
    DistinctCounts(b);
    forall x ensures multiset(a)[x] == multiset(b)[x] {
      assert x in multiset(a) <==> x in a;
      assert x in multiset(b) <==> x in b;
    }
    assert multiset(a) == multiset(b);
    assert |multiset(a)| == |a| && |multiset(b)| == |b|;
  }

  // ----- equal rewards -------------------------------------------------------------------------

  function Abs(x: real): real {
    if x < 0.0 then -x else x
  }

  /** torch.allclose on one pair, with its default tolerances. */
  predicate Close(a: real, b: real) {
    Abs(a - b) <= 0.00000001 + 0.00001 * Abs(b)
  }

  predicate EqualRewards(rewards: seq<real>, idxs: seq<nat>)
    requires InRange(idxs, |rewards|)
  {
    idxs != [] && forall j :: 0 <= j < |idxs| ==> Close(rewards[idxs[0]], rewards[idxs[j]])
  }

  // ----- quotas ----------------------------------------------------------------------------------

  /** Python's round of the fraction p/q: to the nearest integer, halves to the even one. */
  function RoundHalfEven(p: nat, q: nat): nat
    requires q > 0
  {
    RoundParts(p / q, p % q, q)
  }

  /** Rounding f + r/q. */
  function RoundParts(f: nat, r: nat, q: nat): nat {
    if 2 * r < q then f else if 2 * r > q then f + 1 else if f % 2 == 0 then f else f + 1
  }

  /** The share of z out of m samples when n are to be kept: its integer part, and rounded. */
  function FloorShare(z: nat, n: nat, m: nat): nat
    requires m > 0
  {
    z * n / m
  }

  function RoundShare(z: nat, n: nat, m: nat): nat
    requires m > 0
  {
    RoundHalfEven(z * n, m)
  }

  lemma RoundIsNearest(p: nat, q: nat)
    requires q > 0
    ensures var r := RoundHalfEven(p, q);
            && 2 * p - q <= 2 * (q * r) <= 2 * p + q
            && (2 * (q * r) == 2 * p - q || 2 * (q * r) == 2 * p + q ==> r % 2 == 0)
  {
    var f := p / q;
    assert p == q * f + p % q;
    assert q * (f + 1) == q * f + q;
  }

  /** The quotas of zero-reward and rewarded samples, for z and nz samples of each kind. */
  function Quotas(cfg: Config, z: nat, nz: nat): (int, int)
    requires cfg.target > 0 && z + nz > 0
  {
    WithMinimums(cfg, z, nz, RoundShare(z, cfg.target, z + nz), RoundShare(nz, cfg.target, z + nz))
  }

  /** The two minimums, applied one after the other; the second may undo the first. */
  function WithMinimums(cfg: Config, z: nat, nz: nat, zq: int, nzq: int): (int, int) {
    var (zq1, nzq1) :=
      if zq <= Min(cfg.minZero, z) then (Min(cfg.minZero, z), cfg.target - Min(cfg.minZero, z)) else (zq, nzq);
    if nzq1 <= Min(cfg.minNonZero, nz) then (cfg.target - Min(cfg.minNonZero, nz), Min(cfg.minNonZero, nz))
    else (zq1, nzq1)
  }

  /** Python's s[:q], where a negative q counts from the end. */
  function Prefix<T>(s: seq<T>, q: int): (r: seq<T>)
    ensures r <= s
  {
    if q >= |s| then s else if q >= 0 then s[..q] else if -q <= |s| then s[..|s| + q] else []
  }

  // ----- the choice inside one group -----------------------------------------------------------

  /** The samples of the group that were rewarded, or those that were not. */
  function WithReward(rewards: seq<real>, idxs: seq<nat>, rewarded: bool): (r: seq<nat>)
    requires InRange(idxs, |rewards|)
    ensures InRange(r, |rewards|)
    ensures forall i :: i in r ==> i in idxs && (rewards[i] > 0.0 <==> rewarded)
  {
    if idxs == [] then []
    else
      var front, last := idxs[..|idxs| - 1], idxs[|idxs| - 1];
      var r := WithReward(rewards, front, rewarded);
      if (rewards[last] > 0.0) == rewarded then r + [last] else r
  }

  function At(penalty: seq<real>, i: int): real {
    if 0 <= i < |penalty| then penalty[i] else 0.0
  }

  function ByPenalty(penalty: seq<real>): (nat, nat) -> bool {
    (i, j) => At(penalty, i) < At(penalty, j)
  }

  lemma PenaltyOrders(penalty: seq<real>)
    ensures StrictWeakOrder(ByPenalty(penalty))
  {
  }

  function Ranked(rewards: seq<real>, penalty: seq<real>, idxs: seq<nat>): seq<nat>
    requires InRange(idxs, |rewards|)
  {
    Sort(ByPenalty(penalty), WithReward(rewards, idxs, true))
  }

  /** The choice by quotas, before its size is checked. */
  function ByQuota(cfg: Config, rewards: seq<real>, penalty: seq<real>, idxs: seq<nat>): seq<nat>
    requires InRange(idxs, |rewards|) && cfg.target > 0 && idxs != []
  {
    var zeros, ranked := WithReward(rewards, idxs, false), Ranked(rewards, penalty, idxs);
    KindsSplit(rewards, idxs);
    var (zq, nzq) := Quotas(cfg, |zeros|, |ranked|);
    Prefix(ranked, nzq) + Prefix(zeros, zq)
  }

  /** The samples kept of one group. */
  function Choice(cfg: Config, rewards: seq<real>, penalty: seq<real>, idxs: seq<nat>): seq<nat>
    requires InRange(idxs, |rewards|) && cfg.target > 0
  {
    if |idxs| < cfg.target then []
    else if |idxs| == cfg.target then idxs
    else
      var chosen := ByQuota(cfg, rewards, penalty, idxs);
      if |chosen| == cfg.target then chosen
      else
        Prefix(Sort(ByPenalty(penalty), Ranked(rewards, penalty, idxs) + WithReward(rewards, idxs, false)), cfg.target)
  }

  lemma {:induction false} KindsSplit(rewards: seq<real>, idxs: seq<nat>)
    requires InRange(idxs, |rewards|)
    ensures multiset(WithReward(rewards, idxs, true)) + multiset(WithReward(rewards, idxs, false)) == multiset(idxs)
    ensures |WithReward(rewards, idxs, true)| + |WithReward(rewards, idxs, false)| == |idxs|
  {
    if idxs != [] {
      var front, last := idxs[..|idxs| - 1], idxs[|idxs| - 1];
      assert idxs == front + [last];
      KindsSplit(rewards, front);
    }
  }

  lemma PrefixIsPart<T>(s: seq<T>, q: int)
    ensures multiset(Prefix(s, q)) <= multiset(s)
    ensures 0 <= q <= |s| ==> |Prefix(s, q)| == q
  {
    var p := Prefix(s, q);
    assert s == p + s[|p|..];
  }

  lemma PartOfDistinct(part: seq<nat>, s: seq<nat>)
    requires multiset(part) <= multiset(s) && Distinct(s)
    ensures Distinct(part) && forall x :: x in part ==> x in s
  {
    DistinctCounts(part);
    DistinctCounts(s);
    forall x ensures multiset(part)[x] <= 1 && (x in part ==> x in s) {
      assert x in part <==> x in multiset(part);
      assert x in s <==> x in multiset(s);
    }
  }

  lemma ByQuotaIsPart(cfg: Config, rewards: seq<real>, penalty: seq<real>, idxs: seq<nat>)
    requires InRange(idxs, |rewards|) && cfg.target > 0 && idxs != []
    ensures multiset(ByQuota(cfg, rewards, penalty, idxs)) <= multiset(idxs)
  {
    hide Quotas, Prefix, WithReward, Sort;
    var zeros, ranked := WithReward(rewards, idxs, false), Ranked(rewards, penalty, idxs);
    KindsSplit(rewards, idxs);
    var (zq, nzq) := Quotas(cfg, |zeros|, |ranked|);
    PrefixIsPart(ranked, nzq);
    PrefixIsPart(zeros, zq);
    assert multiset(ranked) + multiset(zeros) == multiset(idxs);
  }

  /** Whatever the minimums say: a group gives up all its samples or keeps exactly `target` of them. */
  lemma ChoiceSize(cfg: Config, rewards: seq<real>, penalty: seq<real>, idxs: seq<nat>)
    requires InRange(idxs, |rewards|) && cfg.target > 0 && Distinct(idxs)
    ensures var chosen := Choice(cfg, rewards, penalty, idxs);
            && |chosen| == (if |idxs| < cfg.target then 0 else cfg.target)
            && Distinct(chosen) && forall x :: x in chosen ==> x in idxs
  {
    hide ByQuota, Prefix, WithReward, Sort;
    if |idxs| > cfg.target {
      KindsSplit(rewards, idxs);
      ByQuotaIsPart(cfg, rewards, penalty, idxs);
      var all := Sort(ByPenalty(penalty), Ranked(rewards, penalty, idxs) + WithReward(rewards, idxs, false));
      assert multiset(all) == multiset(idxs) && |all| == |idxs|;
      PrefixIsPart(all, cfg.target);
      PartOfDistinct(Choice(cfg, rewards, penalty, idxs), idxs);
    }
  }

  // ----- the mask over the batch ---------------------------------------------------------------

  /** The rewards and penalties of a batch of `total` samples in groups of `c`. */
  datatype Batch = Batch(total: nat, c: nat, rewards: seq<real>, penalty: seq<real>) {
    ghost predicate Valid() {
      c > 0 && |rewards| == |penalty| == total
    }

    function GroupAt(u: nat): (g: seq<nat>)
      requires Valid()
      ensures InRange(g, total)
    {
      Group(total, c, u)
    }
  }

  predicate Rejected(cfg: Config, b: Batch, u: nat)
    requires b.Valid()
  {
    cfg.rejectEqual && EqualRewards(b.rewards, b.GroupAt(u))
  }

  predicate Chosen(cfg: Config, b: Batch, i: nat)
    requires b.Valid() && i < b.total
  {
    cfg.target > 0 ==> i in Choice(cfg, b.rewards, b.penalty, b.GroupAt(Uid(i, b.c)))
  }

  predicate Keep(cfg: Config, b: Batch, i: nat)
    requires b.Valid() && i < b.total
  {
    !Rejected(cfg, b, Uid(i, b.c)) && Chosen(cfg, b, i)
  }

  function FinalMask(cfg: Config, b: Batch): (mask: seq<bool>)
    requires b.Valid()
    ensures |mask| == b.total && forall i :: 0 <= i < b.total ==> mask[i] == Keep(cfg, b, i)
  {
    seq(b.total, i requires 0 <= i < b.total => Keep(cfg, b, i))
  }

  /** The positions of [lo, hi) that the mask lets through, in order. */
  function Selected(mask: seq<bool>, lo: nat, hi: nat): seq<nat>
    requires lo <= hi <= |mask|
    decreases hi
  {
    if lo == hi then []
    else if mask[hi - 1] then Selected(mask, lo, hi - 1) + [hi - 1]
    else Selected(mask, lo, hi - 1)
  }

  lemma {:induction false} SelectedMembers(mask: seq<bool>, lo: nat, hi: nat)
    requires lo <= hi <= |mask|
    ensures forall i: nat :: i in Selected(mask, lo, hi) <==> lo <= i < hi && mask[i]
    ensures InRange(Selected(mask, lo, hi), hi)
    ensures Distinct(Selected(mask, lo, hi))
    ensures forall p, q :: 0 <= p < q < |Selected(mask, lo, hi)| ==>
              Selected(mask, lo, hi)[p] < Selected(mask, lo, hi)[q]
    decreases hi
  {
    if lo < hi {
      SelectedMembers(mask, lo, hi - 1);
      var s := Selected(mask, lo, hi - 1);
      assert hi - 1 !in s;
      assert hi - 1 !in multiset(s);
    }
  }

  lemma {:induction false} SelectedSplit(mask: seq<bool>, lo: nat, mid: nat, hi: nat)
    requires lo <= mid <= hi <= |mask|
    ensures Selected(mask, lo, hi) == Selected(mask, lo, mid) + Selected(mask, mid, hi)
    decreases hi
  {
    if mid < hi { SelectedSplit(mask, lo, mid, hi - 1); }
  }

  lemma {:induction false} SelectedAll(mask: seq<bool>, lo: nat, hi: nat)
    requires lo <= hi <= |mask| && forall i :: lo <= i < hi ==> mask[i]
    ensures |Selected(mask, lo, hi)| == hi - lo
    ensures forall j :: 0 <= j < hi - lo ==> Selected(mask, lo, hi)[j] == lo + j
    decreases hi
  {
    if lo < hi { SelectedAll(mask, lo, hi - 1); }
  }

  /** What is kept of group `u`. */
  function KeptOf(cfg: Config, b: Batch, u: nat): seq<nat>
    requires b.Valid()
  {
    BoundGrows(b.total, b.c, u);
    Selected(FinalMask(cfg, b), Bound(b.total, b.c, u), Bound(b.total, b.c, u + 1))
  }

  lemma KeptMembers(cfg: Config, b: Batch, u: nat)
    requires b.Valid()
    ensures Distinct(KeptOf(cfg, b, u))
    ensures forall i: nat :: i in KeptOf(cfg, b, u) <==> i in b.GroupAt(u) && Keep(cfg, b, i)
  {
    hide Uid, Bound, Group, Keep, Selected;
    BoundGrows(b.total, b.c, u);
    GroupMembers(b.total, b.c, u);
    SelectedMembers(FinalMask(cfg, b), Bound(b.total, b.c, u), Bound(b.total, b.c, u + 1));
    forall i: nat | i < b.total
      ensures Uid(i, b.c) == u <==> Bound(b.total, b.c, u) <= i < Bound(b.total, b.c, u + 1)
    {
      UidBounds(b.total, b.c, i, u);
    }
  }

  /** Every original group contributes nothing or exactly `target` samples, and which of the two is plain. */
  lemma GroupContributes(cfg: Config, b: Batch, u: nat)
    requires b.Valid() && cfg.target > 0
    ensures |KeptOf(cfg, b, u)|
         == if Rejected(cfg, b, u) || |b.GroupAt(u)| < cfg.target then 0 else cfg.target
    ensures !Rejected(cfg, b, u) ==>
              forall i: nat :: i in KeptOf(cfg, b, u) <==> i in Choice(cfg, b.rewards, b.penalty, b.GroupAt(u))
  {
    hide Uid, Group, Rejected, Choice, KeptOf;
    var kept := KeptOf(cfg, b, u);
    KeptMembers(cfg, b, u);
    GroupMembers(b.total, b.c, u);
    if Rejected(cfg, b, u) {
      SameMembersSameSize(kept, []);
    } else {
      var chosen := Choice(cfg, b.rewards, b.penalty, b.GroupAt(u));
      ChoiceSize(cfg, b.rewards, b.penalty, b.GroupAt(u));
      SameMembersSameSize(kept, chosen);
    }
  }

  /** Without a target the batch loses whole groups only. */
  lemma RejectionKeepsWholeGroups(cfg: Config, b: Batch, u: nat)
    requires b.Valid() && cfg.target <= 0
    ensures KeptOf(cfg, b, u) == if Rejected(cfg, b, u) then [] else b.GroupAt(u)
  {
    BoundGrows(b.total, b.c, u);
    var lo, hi := Bound(b.total, b.c, u), Bound(b.total, b.c, u + 1);
    var mask := FinalMask(cfg, b);
    hide Bound, Uid;
    forall i: nat | lo <= i < hi ensures mask[i] == !Rejected(cfg, b, u) {
      UidBounds(b.total, b.c, i, u);
    }
    if Rejected(cfg, b, u) {
      KeptMembers(cfg, b, u);
      SameMembersSameSize(KeptOf(cfg, b, u), []);
    } else {
      SelectedAll(mask, lo, hi);
    }
  }

  /** The samples kept of the whole batch. */
  function Kept(cfg: Config, b: Batch): (r: seq<nat>)
    requires b.Valid()
  {
    Selected(FinalMask(cfg, b), 0, b.total)
  }

  /** The groups below `groups` that survive. */
  function Survivors(cfg: Config, b: Batch, groups: nat): (r: seq<nat>)
    requires b.Valid()
  {
    if groups == 0 then []
    else if KeptOf(cfg, b, groups - 1) == [] then Survivors(cfg, b, groups - 1)
    else Survivors(cfg, b, groups - 1) + [groups - 1]
  }

  lemma {:induction false} SurvivorsInOrder(cfg: Config, b: Batch, groups: nat)
    requires b.Valid()
    ensures forall u: nat :: u in Survivors(cfg, b, groups) <==> u < groups && KeptOf(cfg, b, u) != []
    ensures forall i, j :: 0 <= i < j < |Survivors(cfg, b, groups)| ==>
              Survivors(cfg, b, groups)[i] < Survivors(cfg, b, groups)[j]
  {
    hide KeptOf;
    if groups > 0 {
      SurvivorsInOrder(cfg, b, groups - 1);
      var earlier := Survivors(cfg, b, groups - 1);
      forall i | 0 <= i < |earlier| ensures earlier[i] < groups - 1 { assert earlier[i] in earlier; }
    }
  }

  /** Position `p` of `kept` came from the group that is the p/n-th of `survivors`. */
  ghost predicate Rechunked(kept: seq<nat>, n: nat, survivors: seq<nat>, c: nat)
    requires n > 0 && c > 0
  {
    && |kept| == n * |survivors|
    && forall p: nat :: p < |kept| ==> Uid(p, n) < |survivors| && Uid(kept[p], c) == survivors[Uid(p, n)]
  }

  lemma OneMoreChunk(kept: seq<nat>, more: seq<nat>, n: nat, survivors: seq<nat>, c: nat, u: nat)
    requires n > 0 && c > 0 && Rechunked(kept, n, survivors, c)
    requires |more| == n && forall i :: i in more ==> Uid(i, c) == u
    ensures Rechunked(kept + more, n, survivors + [u], c)
  {
    Arithmetic.Distribute(|survivors|, n);
    assert n * |survivors + [u]| == n * |survivors| + n;
    var all, next := kept + more, survivors + [u];
    forall p: nat | p < |all|
      ensures Uid(p, n) < |next| && Uid(all[p], c) == next[Uid(p, n)]
    {
      if p >= |kept| {
        Arithmetic.DivModUnique(p, n, |survivors|, p - |kept|);
        assert more[p - |kept|] in more;
        hide *;
      }
    }
  }

  lemma {:induction false} RechunkUpTo(cfg: Config, b: Batch, groups: nat)
    requires b.Valid() && cfg.target > 0
    ensures Bound(b.total, b.c, groups) <= b.total
    ensures Rechunked(Selected(FinalMask(cfg, b), 0, Bound(b.total, b.c, groups)), cfg.target,
                      Survivors(cfg, b, groups), b.c)
  {
    hide Rechunked, Selected, Bound, FinalMask, Group, Uid, Keep;
    var mask := FinalMask(cfg, b);
    if groups == 0 {
      NoChunks(mask, cfg.target, b.c);
      BoundGrows(b.total, b.c, 0);
    } else {
      var u := groups - 1;
      BoundGrows(b.total, b.c, u);
      RechunkUpTo(cfg, b, u);
      SelectedSplit(mask, 0, Bound(b.total, b.c, u), Bound(b.total, b.c, groups));
      GroupContributes(cfg, b, u);
      KeptMembers(cfg, b, u);
      GroupMembers(b.total, b.c, u);
      var before := Selected(mask, 0, Bound(b.total, b.c, u));
      assert before + [] == before;
      if KeptOf(cfg, b, u) != [] {
        OneMoreChunk(before, KeptOf(cfg, b, u), cfg.target, Survivors(cfg, b, u), b.c, u);
      }
    }
  }

  lemma NoChunks(mask: seq<bool>, n: nat, c: nat)
    requires n > 0 && c > 0
    ensures Rechunked(Selected(mask, 0, 0), n, [], c)
  {
  }

  /**
    Cutting the kept samples into chunks of the new group size gives back the surviving
    original groups, whole and in order.
   */
  lemma RechunkTheorem(cfg: Config, b: Batch)
    requires b.Valid() && cfg.target > 0
    ensures var kept, survivors := Kept(cfg, b), Survivors(cfg, b, GroupCount(b.total, b.c));
            && |kept| == cfg.target * |survivors|
            && (forall p: nat :: p < |kept| ==>
                  Uid(p, cfg.target) < |survivors| && Uid(kept[p], b.c) == survivors[Uid(p, cfg.target)])
            && (forall i, j :: 0 <= i < j < |survivors| ==> survivors[i] < survivors[j])
            && (forall u: nat :: u in survivors <==> u < GroupCount(b.total, b.c) && KeptOf(cfg, b, u) != [])
  {
    hide Survivors, Selected, Bound, Uid, FinalMask, KeptOf, GroupCount;
    GroupsCover(b.total, b.c);
    RechunkUpTo(cfg, b, GroupCount(b.total, b.c));
    SurvivorsInOrder(cfg, b, GroupCount(b.total, b.c));
  }

  // ----- the quotas when no minimum is asked for -------------------------------------------------

  /** The share z*n/m lies exactly half-way between two integers. */
  predicate HalfShare(z: nat, n: nat, m: nat)
    requires m > 0
  {
    2 * (z * n % m) == m
  }

  /** How the two fractions z*n/m and nz*n/m, which add up to n, divide. */
  lemma SharesDivide(z: nat, nz: nat, n: nat)
    requires z + nz > 0
    ensures var m := z + nz;
            var f, r, g, s := z * n / m, z * n % m, nz * n / m, nz * n % m;
            if r == 0 then f + g == n && s == 0 else f + g == n - 1 && s == m - r
  {
    var m := z + nz;
    var f, r := z * n / m, z * n % m;
    assert z * n == m * f + r;
    assert z * n + nz * n == m * n;
    if r == 0 {
      assert nz * n == m * (n - f);
      Arithmetic.DivModUnique(nz * n, m, n - f, 0);
    } else {
      assert nz * n == m * (n - f - 1) + (m - r);
      Arithmetic.DivModUnique(nz * n, m, n - f - 1, m - r);
    }
  }

  /**
    The two rounded shares add up to n unless n is odd and the share is an exact half; then
    they miss it by one, upwards or downwards with the parity of the integer part.
   */
  lemma RoundedSharesSum(z: nat, nz: nat, n: nat)
    requires z + nz > 0 && n > 0
    ensures var m := z + nz;
            RoundShare(z, n, m) + RoundShare(nz, n, m)
            == if n % 2 == 0 || !HalfShare(z, n, m) then n
               else if FloorShare(z, n, m) % 2 == 0 then n - 1 else n + 1
  {
    hide RoundParts, HalfShare;
    var m := z + nz;
    SharesDivide(z, nz, n);
    Halves(FloorShare(z, n, m), z * n % m, FloorShare(nz, n, m), nz * n % m, m, n);
    assert HalfShare(z, n, m) <==> 2 * (z * n % m) == m by { HalfShareIs(z, n, m); }
  }

  lemma HalfShareIs(z: nat, n: nat, m: nat)
    requires m > 0
    ensures HalfShare(z, n, m) <==> 2 * (z * n % m) == m
  {
  }

  lemma Halves(f: nat, r: nat, g: nat, s: nat, m: nat, n: nat)
    requires r < m && n > 0
    requires if r == 0 then f + g == n && s == 0 else f + g == n - 1 && s == m - r
    ensures RoundParts(f, r, m) + RoundParts(g, s, m)
         == if n % 2 == 0 || 2 * r != m then n else if f % 2 == 0 then n - 1 else n + 1
  {
  }

  /** The floor of the share of z samples is below z. */
  lemma FloorBelow(z: nat, n: nat, m: nat)
    requires 0 < n < m && z > 0
    ensures FloorShare(z, n, m) < z
  {
    FloorTimes(z * n, m);
    Arithmetic.Monotone(n + 1, m, z);
    Arithmetic.Distribute(n, z);
    Arithmetic.Cancel(FloorShare(z, n, m), z, m);
  }

  lemma FloorTimes(p: nat, m: nat)
    requires m > 0
    ensures p / m * m <= p
  {
  }

  /** A share rounds to no more than there is to share. */
  lemma ShareFits(z: nat, n: nat, m: nat)
    requires 0 < n < m
    ensures FloorShare(z, n, m) <= RoundShare(z, n, m) <= z
    ensures RoundShare(z, n, m) <= FloorShare(z, n, m) + 1
  {
    if z == 0 {
      assert z * n == 0;
    } else {
      FloorBelow(z, n, m);
    }
  }

  /** A kind whose share is n - 1/2 has n samples to give. */
  lemma OtherKindSuffices(z: nat, nz: nat, n: nat)
    requires n > 0 && z + nz > n && FloorShare(z, n, z + nz) == 0 && HalfShare(z, n, z + nz)
    ensures nz >= n
  {
    var m := z + nz;
    assert z * n == m * FloorShare(z, n, m) + z * n % m;
    assert 2 * (z * n) == m;
    assert z > 0;
    assert z * (2 * n) == m;
    assert z * (2 * n - 1) == nz;
    Arithmetic.Monotone(1, z, 2 * n - 1);
  }

  lemma HalfIsMutual(z: nat, nz: nat, n: nat)
    requires z + nz > 0 && n > 0
    ensures HalfShare(z, n, z + nz) ==>
              HalfShare(nz, n, z + nz) && FloorShare(z, n, z + nz) + FloorShare(nz, n, z + nz) == n - 1
  {
    SharesDivide(z, nz, n);
  }

  /** The one situation in which the quotas miss the target. */
  predicate QuotasMiss(z: nat, n: nat, m: nat)
    requires m > 0
  {
    n % 2 == 1 && HalfShare(z, n, m) && 0 < FloorShare(z, n, m) < n - 1
  }

  predicate NoMinimums(cfg: Config) {
    cfg.minZero == 0 && cfg.minNonZero == 0
  }

  /** Without minimums the quotas fit the group, and add up to the target except when they miss. */
  lemma QuotasWithoutMinimums(cfg: Config, z: nat, nz: nat)
    requires NoMinimums(cfg) && 0 < cfg.target < z + nz
    ensures var n, m, (zq, nzq) := cfg.target, z + nz, Quotas(cfg, z, nz);
            && 0 <= zq <= z && 0 <= nzq <= nz
            && (zq + nzq == n <==> !QuotasMiss(z, n, m))
            && (n % 2 == 0 || !HalfShare(z, n, m) ==>
                  zq == RoundShare(z, n, m) && nzq == RoundShare(nz, n, m))
            && (n % 2 == 1 && HalfShare(z, n, m) && FloorShare(z, n, m) == 0 ==> zq == 0)
            && (n % 2 == 1 && HalfShare(z, n, m) && FloorShare(z, n, m) == n - 1 > 0 ==> nzq == 0)
  {
    hide RoundShare, FloorShare, HalfShare, WithMinimums;
    var n, m := cfg.target, z + nz;
    RoundedSharesSum(z, nz, n);
    ShareFits(z, n, m);
    ShareFits(nz, n, m);
    if HalfShare(z, n, m) {
      HalfIsMutual(z, nz, n);
      if FloorShare(z, n, m) == 0 { OtherKindSuffices(z, nz, n); }
      if FloorShare(nz, n, m) == 0 { OtherKindSuffices(nz, z, n); }
      HalfRounds(z, n, m);
      HalfRounds(nz, n, m);
    }
    var half := n % 2 == 1 && HalfShare(z, n, m);
    SettledQuotas(cfg, z, nz, RoundShare(z, n, m), RoundShare(nz, n, m), half,
                  FloorShare(z, n, m), FloorShare(nz, n, m));
  }

  lemma HalfRounds(z: nat, n: nat, m: nat)
    requires m > 0 && HalfShare(z, n, m)
    ensures RoundShare(z, n, m) == if FloorShare(z, n, m) % 2 == 0 then FloorShare(z, n, m) else FloorShare(z, n, m) + 1
  {
  }

  lemma SettledQuotas(cfg: Config, z: nat, nz: nat, a: nat, b: nat, half: bool, f: nat, g: nat)
    requires NoMinimums(cfg) && 0 < cfg.target < z + nz && a <= z && b <= nz
    requires !half ==> a + b == cfg.target
    requires half ==> f + g == cfg.target - 1 && cfg.target % 2 == 1
    requires half ==> a == if f % 2 == 0 then f else f + 1
    requires half ==> b == if g % 2 == 0 then g else g + 1
    requires half ==> (f == 0 ==> nz >= cfg.target) && (g == 0 ==> z >= cfg.target)
    ensures var (zq, nzq) := WithMinimums(cfg, z, nz, a, b);
            && 0 <= zq <= z && 0 <= nzq <= nz
            && (zq + nzq == cfg.target <==> !(half && f > 0 && g > 0))
            && (!half ==> zq == a && nzq == b)
            && (half && f == 0 ==> zq == 0)
            && (half && g == 0 && f > 0 ==> nzq == 0)
  {
  }

  // ----- what is kept of a large group ------------------------------------------------------------

  /** `s` is `low` and then samples whose penalty is no smaller. */
  ghost predicate LowestOf(penalty: seq<real>, low: seq<nat>, s: seq<nat>) {
    && low <= s
    && forall i, j :: 0 <= i < |low| <= j < |s| ==> At(penalty, s[i]) <= At(penalty, s[j])
  }

  lemma PrefixIsLowest(penalty: seq<real>, s: seq<nat>, q: int)
    ensures LowestOf(penalty, Prefix(Sort(ByPenalty(penalty), s), q), Sort(ByPenalty(penalty), s))
  {
    PenaltyOrders(penalty);
    SortSorts(ByPenalty(penalty), s);
    var sorted := Sort(ByPenalty(penalty), s);
    forall i, j | 0 <= i < |Prefix(sorted, q)| <= j < |sorted|
      ensures At(penalty, sorted[i]) <= At(penalty, sorted[j])
    {
      assert !ByPenalty(penalty)(sorted[j], sorted[i]);
    }
    hide Sort;
  }

  /**
    A group larger than the target, no minimums: the quotas decide unless they miss. Then the
    kept zero-reward samples are the first `zq` of the group, the kept rewarded ones are the `nzq`
    with the lowest penalties, and the two numbers are the rounded shares, except for an
    odd target and a half share of 1/2, where one kind gets the whole target.
   */
  lemma QuotaTheorem(cfg: Config, rewards: seq<real>, penalty: seq<real>, idxs: seq<nat>)
    requires InRange(idxs, |rewards|) && NoMinimums(cfg) && 0 < cfg.target < |idxs|
    ensures var zeros, ranked := WithReward(rewards, idxs, false), Ranked(rewards, penalty, idxs);
            var z, nz, n, m := |zeros|, |ranked|, cfg.target, |idxs|;
            z + nz == m
            && (|ByQuota(cfg, rewards, penalty, idxs)| == n <==> !QuotasMiss(z, n, m))
            && (!QuotasMiss(z, n, m) ==>
                  var (zq, nzq) := Quotas(cfg, z, nz);
                  && 0 <= zq <= z && 0 <= nzq <= nz && zq + nzq == n
                  && Choice(cfg, rewards, penalty, idxs) == ranked[..nzq] + zeros[..zq]
                  && LowestOf(penalty, ranked[..nzq], ranked)
                  && (n % 2 == 0 || !HalfShare(z, n, m) ==> zq == RoundShare(z, n, m) && nzq == RoundShare(nz, n, m))
                  && (n % 2 == 1 && HalfShare(z, n, m) ==> zq == if FloorShare(z, n, m) == 0 then 0 else n))
  {
    hide RoundShare, FloorShare, HalfShare, Quotas, Sort, WithReward, LowestOf;
    var zeros, ranked := WithReward(rewards, idxs, false), Ranked(rewards, penalty, idxs);
    KindsSplit(rewards, idxs);
    var (zq, nzq) := Quotas(cfg, |zeros|, |ranked|);
    QuotasWithoutMinimums(cfg, |zeros|, |ranked|);
    HalfIsMutual(|zeros|, |ranked|, cfg.target);
    PrefixIsLowest(penalty, WithReward(rewards, idxs, true), nzq);
    assert Prefix(ranked, nzq) == ranked[..nzq] && Prefix(zeros, zq) == zeros[..zq];
  }

  /** When the quotas miss, rewards no longer matter: the whole group is ranked by penalty. */
  lemma FallbackKeepsLowest(cfg: Config, rewards: seq<real>, penalty: seq<real>, idxs: seq<nat>)
    requires InRange(idxs, |rewards|) && 0 < cfg.target < |idxs|
    ensures |ByQuota(cfg, rewards, penalty, idxs)| != cfg.target ==>
              exists all: seq<nat> ::
                && multiset(all) == multiset(idxs)
                && LowestOf(penalty, Choice(cfg, rewards, penalty, idxs), all)
                && |Choice(cfg, rewards, penalty, idxs)| == cfg.target
  {
    hide ByQuota, WithReward, Sort, LowestOf;
    KindsSplit(rewards, idxs);
    var all := Ranked(rewards, penalty, idxs) + WithReward(rewards, idxs, false);
    PrefixIsLowest(penalty, all, cfg.target);
    PrefixIsPart(Sort(ByPenalty(penalty), all), cfg.target);
    var sorted := Sort(ByPenalty(penalty), all);
    assert multiset(sorted) == multiset(all) == multiset(idxs);
    assert |ByQuota(cfg, rewards, penalty, idxs)| != cfg.target ==>
        LowestOf(penalty, Choice(cfg, rewards, penalty, idxs), sorted);
  }

  /** The quotas leave room for both minimums, as far as the group has such samples and the target allows. */
  lemma QuotasHonourMinimums(cfg: Config, z: nat, nz: nat, a: nat, b: nat)
    requires cfg.target > 0 && cfg.minZero >= 0 && cfg.minNonZero >= 0
    requires Min(cfg.minZero, z) + Min(cfg.minNonZero, nz) <= cfg.target
    ensures var (zq, nzq) := WithMinimums(cfg, z, nz, a, b);
            zq >= Min(cfg.minZero, z) && nzq >= Min(cfg.minNonZero, nz)
  {
  }

  /**
    When the quotas decide, at least the configured minimum of each kind is kept, or all samples of
    that kind if there are fewer; the two minimums together must not exceed the target.
   */
  lemma MinimumsHonoured(cfg: Config, rewards: seq<real>, penalty: seq<real>, idxs: seq<nat>)
    requires InRange(idxs, |rewards|) && 0 < cfg.target < |idxs| && cfg.minZero >= 0 && cfg.minNonZero >= 0
    ensures && Min(cfg.minZero, |WithReward(rewards, idxs, false)|)
               + Min(cfg.minNonZero, |WithReward(rewards, idxs, true)|) <= cfg.target
            && |ByQuota(cfg, rewards, penalty, idxs)| == cfg.target ==>
            exists zeros, ranked ::
              && Choice(cfg, rewards, penalty, idxs) == ranked + zeros
              && |zeros| >= Min(cfg.minZero, |WithReward(rewards, idxs, false)|)
              && |ranked| >= Min(cfg.minNonZero, |WithReward(rewards, idxs, true)|)
              && (forall i :: i in zeros ==> i in WithReward(rewards, idxs, false))
              && (forall i :: i in ranked ==> i in WithReward(rewards, idxs, true))
  {
    hide WithReward, Sort, Quotas, Prefix;
    KindsSplit(rewards, idxs);
    var zeros, ranked := WithReward(rewards, idxs, false), Ranked(rewards, penalty, idxs);
    var (zq, nzq) := Quotas(cfg, |zeros|, |ranked|);
    if Min(cfg.minZero, |zeros|) + Min(cfg.minNonZero, |ranked|) > cfg.target {
      return;
    }
    QuotasAre(cfg, |zeros|, |ranked|);
    PrefixAtLeast(ranked, nzq, Min(cfg.minNonZero, |ranked|));
    PrefixAtLeast(zeros, zq, Min(cfg.minZero, |zeros|));
    SameMembers<nat>(ranked, WithReward(rewards, idxs, true));
    assert |ByQuota(cfg, rewards, penalty, idxs)| == cfg.target ==>
        Choice(cfg, rewards, penalty, idxs) == Prefix(ranked, nzq) + Prefix(zeros, zq);
  }

  lemma QuotasAre(cfg: Config, z: nat, nz: nat)
    requires cfg.target > 0 && z + nz > 0 && cfg.minZero >= 0 && cfg.minNonZero >= 0
    requires Min(cfg.minZero, z) + Min(cfg.minNonZero, nz) <= cfg.target
    ensures var (zq, nzq) := Quotas(cfg, z, nz);
            zq >= Min(cfg.minZero, z) && nzq >= Min(cfg.minNonZero, nz)
  {
    QuotasHonourMinimums(cfg, z, nz, RoundShare(z, cfg.target, z + nz), RoundShare(nz, cfg.target, z + nz));
    hide WithMinimums, RoundShare, Min;
  }

  lemma PrefixAtLeast(s: seq<nat>, q: int, low: int)
    requires 0 <= low <= q && low <= |s|
    ensures |Prefix(s, q)| >= low && forall i :: i in Prefix(s, q) ==> i in s
  {
  }
}
