/**
  Mean and variance over masked data that is spread over ranks: the one-pass form, which adds
  up counts, sums and squared sums, and the two-pass form, which sums squared deviations from
  the global mean. Numbers are exact reals; a collective is the sum over all ranks.
 */
module Statistics {
  import opened Results
  import opened Arithmetic

  /** The values of one rank and which of them are valid; without a mask all are. */
  datatype Shard = Shard(values: seq<real>, mask: Option<seq<bool>>) {
    predicate Valid() {
      mask.Some? ==> |mask.value| == |values|
    }
  }

  function Square(x: real): real {
    x * x
  }

  function SumSquares(x: seq<real>): real {
    if x == [] then 0.0 else Square(x[0]) + SumSquares(x[1..])
  }

  /** Boolean indexing. */
  function Masked(values: seq<real>, mask: seq<bool>): seq<real>
    requires |values| == |mask|
  {
    if values == [] then []
    else if mask[0] then [values[0]] + Masked(values[1..], mask[1..])
    else Masked(values[1..], mask[1..])
  }

  function Kept(s: Shard): seq<real>
    requires s.Valid()
  {
    if s.mask.None? then s.values else Masked(s.values, s.mask.value)
  }

  ghost predicate AllValid(shards: seq<Shard>) {
    forall i :: 0 <= i < |shards| ==> shards[i].Valid()
  }

  /** The valid values of all ranks, one rank after the other. */
  function AllKept(shards: seq<Shard>): seq<real>
    requires AllValid(shards)
  {
    if shards == [] then [] else Kept(shards[0]) + AllKept(shards[1..])
  }

  // ----- the one-pass form -------------------------------------------------------------------------

  datatype Stats = Stats(count: nat, sum: real, squares: real)

  function Add(a: Stats, b: Stats): Stats {
    Stats(a.count + b.count, a.sum + b.sum, a.squares + b.squares)
  }

  function StatsOf(x: seq<real>): Stats {
    Stats(|x|, Sum(x), SumSquares(x))
  }

  function MaskedStats(s: Shard): Stats
    requires s.Valid()
  {
    StatsOf(Kept(s))
  }

  /** The statistics after they are summed over the ranks. */
  function ReducedStats(shards: seq<Shard>): Stats
    requires AllValid(shards)
  {
    if shards == [] then Stats(0, 0.0, 0.0) else Add(MaskedStats(shards[0]), ReducedStats(shards[1..]))
  }

  lemma {:induction false} StatsOfConcat(a: seq<real>, b: seq<real>)
    ensures StatsOf(a + b) == Add(StatsOf(a), StatsOf(b))
  {
    if a == [] {
      assert a + b == b;
    } else {
      assert (a + b)[1..] == a[1..] + b;
      StatsOfConcat(a[1..], b);
    }
  }

  /** However the data is spread over ranks, the reduced statistics are those of the whole. */
  lemma {:induction false} StatsOfAnySplit(shards: seq<Shard>)
    requires AllValid(shards)
    ensures ReducedStats(shards) == StatsOf(AllKept(shards))
  {
    if shards != [] {
      StatsOfAnySplit(shards[1..]);
      StatsOfConcat(Kept(shards[0]), AllKept(shards[1..]));
    }
  }

  function ClampedCount(s: Stats): real {
    if s.count < 1 then 1.0 else s.count as real
  }

  /** Mean and variance as the normalisation derives them; the variance before its clamp at zero. */
  function OnePassMean(s: Stats): real {
    s.sum / ClampedCount(s)
  }

  function OnePassVariance(s: Stats): real {
    s.squares / ClampedCount(s) - Square(OnePassMean(s))
  }

  function ClampMinZero(x: real): real {
    if x < 0.0 then 0.0 else x
  }

  // ----- the two-pass form -------------------------------------------------------------------------

  function Indicator(m: bool): real {
    if m then 1.0 else 0.0
  }

  /** The sum of values * mask. */
  function MaskedSum(values: seq<real>, mask: seq<bool>): real
    requires |values| == |mask|
  {
    if values == [] then 0.0 else values[0] * Indicator(mask[0]) + MaskedSum(values[1..], mask[1..])
  }

  function MaskCount(mask: seq<bool>): nat {
    if mask == [] then 0 else (if mask[0] then 1 else 0) + MaskCount(mask[1..])
  }

  /** The sum of (values * mask - mean)^2 * mask. */
  function MaskedDeviations(values: seq<real>, mask: seq<bool>, mean: real): real
    requires |values| == |mask|
  {
    if values == [] then 0.0
    else Square(values[0] * Indicator(mask[0]) - mean) * Indicator(mask[0])
         + MaskedDeviations(values[1..], mask[1..], mean)
  }

  ghost predicate HaveMasks(shards: seq<Shard>) {
    AllValid(shards) && forall i :: 0 <= i < |shards| ==> shards[i].mask.Some?
  }

  function GlobalSum(shards: seq<Shard>): real
    requires HaveMasks(shards)
  {
    if shards == [] then 0.0 else MaskedSum(shards[0].values, shards[0].mask.value) + GlobalSum(shards[1..])
  }

  function GlobalCount(shards: seq<Shard>): nat
    requires HaveMasks(shards)
  {
    if shards == [] then 0 else MaskCount(shards[0].mask.value) + GlobalCount(shards[1..])
  }

  function GlobalDeviations(shards: seq<Shard>, mean: real): real
    requires HaveMasks(shards)
  {
    if shards == [] then 0.0
    else MaskedDeviations(shards[0].values, shards[0].mask.value, mean) + GlobalDeviations(shards[1..], mean)
  }

  /** The global mean and the uncorrected global variance; there is none when nothing is valid. */
  function GlobalMeanVar(shards: seq<Shard>): Option<(real, real)>
    requires HaveMasks(shards)
  {
    var count := GlobalCount(shards);
    if count == 0 then None
    else
      var mean := GlobalSum(shards) / count as real;
      Some((mean, GlobalDeviations(shards, mean) / count as real))
  }

  // ----- the two forms agree -----------------------------------------------------------------------

  function Deviations(x: seq<real>, mean: real): real {
    if x == [] then 0.0 else Square(x[0] - mean) + Deviations(x[1..], mean)
  }

  lemma {:induction false} DeviationsOfConcat(a: seq<real>, b: seq<real>, mean: real)
    ensures Deviations(a + b, mean) == Deviations(a, mean) + Deviations(b, mean)
  {
    if a == [] {
      assert a + b == b;
    } else {
      assert (a + b)[1..] == a[1..] + b;
      DeviationsOfConcat(a[1..], b, mean);
    }
  }

  lemma IndicatorProducts(x: real, m: bool, mean: real)
    ensures x * Indicator(m) == if m then x else 0.0
    ensures Square(x * Indicator(m) - mean) * Indicator(m) == if m then Square(x - mean) else 0.0
  {
  }

  /** Multiplying by the mask sums the same values as indexing with it. */
  lemma {:induction false} MaskedIsIndexed(values: seq<real>, mask: seq<bool>, mean: real)
    requires |values| == |mask|
    ensures MaskedSum(values, mask) == Sum(Masked(values, mask))
    ensures MaskCount(mask) == |Masked(values, mask)|
    ensures MaskedDeviations(values, mask, mean) == Deviations(Masked(values, mask), mean)
  {
    if values != [] {
      var rest := Masked(values[1..], mask[1..]);
      assert ([values[0]] + rest)[1..] == rest;
      IndicatorProducts(values[0], mask[0], mean);
      MaskedIsIndexed(values[1..], mask[1..], mean);
    }
  }

  lemma {:induction false} GlobalIsWhole(shards: seq<Shard>, mean: real)
    requires HaveMasks(shards)
    ensures GlobalSum(shards) == Sum(AllKept(shards)) && GlobalCount(shards) == |AllKept(shards)|
    ensures GlobalDeviations(shards, mean) == Deviations(AllKept(shards), mean)
  {
    if shards != [] {
      GlobalIsWhole(shards[1..], mean);
      MaskedIsIndexed(shards[0].values, shards[0].mask.value, mean);
      StatsOfConcat(Kept(shards[0]), AllKept(shards[1..]));
      DeviationsOfConcat(Kept(shards[0]), AllKept(shards[1..]), mean);
    }
  }

  /** The squared deviations around `mean`, from the three sums alone. */
  function Expanded(s: Stats, mean: real): real {
    s.squares - 2.0 * mean * s.sum + s.count as real * Square(mean)
  }

  lemma ExpandedStep(x: real, rest: Stats, mean: real)
    ensures Expanded(Add(Stats(1, x, Square(x)), rest), mean) == Square(x - mean) + Expanded(rest, mean)
  {
    var all := Add(Stats(1, x, Square(x)), rest);
    assert all.count as real == 1.0 + rest.count as real;
    assert Square(x - mean) == Square(x) - 2.0 * mean * x + Square(mean);
    assert 2.0 * mean * all.sum == 2.0 * mean * x + 2.0 * mean * rest.sum;
    MoreOf(rest.count as real, Square(mean));
  }

  lemma MoreOf(n: real, square: real)
    ensures (1.0 + n) * square == square + n * square
  {
  }

  lemma {:induction false} DeviationsExpanded(x: seq<real>, mean: real)
    ensures Deviations(x, mean) == Expanded(StatsOf(x), mean)
  {
    if x == [] {
      assert 2.0 * mean * 0.0 == 0.0;
    } else {
      DeviationsExpanded(x[1..], mean);
      ExpandedStep(x[0], StatsOf(x[1..]), mean);
      hide Expanded, Square;
    }
  }

  lemma ExpandedAtMean(s: Stats)
    requires s.count >= 1
    ensures Expanded(s, OnePassMean(s)) / ClampedCount(s) == OnePassVariance(s)
  {
    var n, mean := ClampedCount(s), OnePassMean(s);
    assert s.sum == mean * n;
    assert 2.0 * mean * s.sum == 2.0 * (n * Square(mean));
    assert Expanded(s, mean) == s.squares - n * Square(mean);
    SplitRatio(s.squares, n, Square(mean));
  }

  lemma SplitRatio(a: real, n: real, m: real)
    requires n > 0.0
    ensures (a - n * m) / n == a / n - m
  {
  }

  lemma SquareNonNegative(x: real)
    ensures Square(x) >= 0.0
  {
  }

  lemma {:induction false} DeviationsNonNegative(x: seq<real>, mean: real)
    ensures Deviations(x, mean) >= 0.0
  {
    if x != [] {
      SquareNonNegative(x[0] - mean);
      DeviationsNonNegative(x[1..], mean);
    }
  }

  lemma RatioNonNegative(a: real, b: real)
    requires a >= 0.0 && b > 0.0
    ensures a / b >= 0.0
  {
  }

  /**
    With at least one valid value the one-pass mean and variance are the two-pass ones, on every
    spread over ranks; the variance is never negative, so clamping it changes nothing.
   */
  lemma OnePassRefinesTwoPass(shards: seq<Shard>)
    requires HaveMasks(shards) && GlobalCount(shards) >= 1
    ensures var s := ReducedStats(shards);
            && GlobalMeanVar(shards) == Some((OnePassMean(s), OnePassVariance(s)))
            && OnePassVariance(s) >= 0.0
            && ClampMinZero(OnePassVariance(s)) == OnePassVariance(s)
  {
    var all, s := AllKept(shards), ReducedStats(shards);
    StatsOfAnySplit(shards);
    var mean := OnePassMean(s);
    GlobalIsWhole(shards, mean);
    assert ClampedCount(s) == GlobalCount(shards) as real && s.count == GlobalCount(shards);
    assert mean == GlobalSum(shards) / GlobalCount(shards) as real;
    DeviationsExpanded(all, mean);
    ExpandedAtMean(s);
    DeviationsNonNegative(all, mean);
    RatioNonNegative(Deviations(all, mean), ClampedCount(s));
    hide OnePassMean, OnePassVariance, ClampedCount, Expanded, Sum, SumSquares, Deviations;
    hide GlobalSum, GlobalCount, GlobalDeviations, AllKept, ReducedStats;
  }

  /** Both forms give the mean of the valid values of all ranks and their mean squared distance from it. */
  lemma MeanAndVariance(shards: seq<Shard>)
    requires HaveMasks(shards) && AllKept(shards) != []
    ensures var all, s := AllKept(shards), ReducedStats(shards);
            var mean := Sum(all) / |all| as real;
            && OnePassMean(s) == mean && OnePassVariance(s) == Deviations(all, mean) / |all| as real
            && GlobalMeanVar(shards) == Some((mean, Deviations(all, mean) / |all| as real))
  {
    var all := AllKept(shards);
    StatsOfAnySplit(shards);
    GlobalIsWhole(shards, Sum(all) / |all| as real);
    OnePassRefinesTwoPass(shards);
    hide OnePassVariance, Sum, SumSquares, Deviations, AllKept, ReducedStats;
    hide GlobalSum, GlobalCount, GlobalDeviations;
  }

  /** With no valid value the one-pass form still answers, with zeros, where the two-pass form has no answer. */
  lemma NothingValid(shards: seq<Shard>)
    requires HaveMasks(shards) && GlobalCount(shards) == 0
    ensures GlobalMeanVar(shards) == None
    ensures OnePassMean(ReducedStats(shards)) == 0.0 && OnePassVariance(ReducedStats(shards)) == 0.0
  {
    StatsOfAnySplit(shards);
    GlobalIsWhole(shards, 0.0);
    assert AllKept(shards) == [];
  }
}
