/**
  The dictionary branch of get_iterator_dynamic: how many micro-batches to use,
  the search that raises their number until every one fits, and the index map
  that restores the original order afterwards.
 */
module DynamicBatching {
  import opened Arithmetic
  import opened Results
  import opened Sequences
  import KarmarkarKarp
  import KarmarkarKarpObjects
  import BestFitDecreasing

  /** One row of a batch: tokens under the attention mask, prompt and response lengths. */
  datatype Sample = Sample(tokens: nat, prompt: nat, response: nat)

  /** The samples that one data-parallel rank holds. */
  type Batch = seq<Sample>

  function Tokens(b: Batch): (r: seq<nat>)
    ensures |r| == |b|
    ensures forall i :: 0 <= i < |r| ==> r[i] == b[i].tokens
  {
    seq(|b|, i requires 0 <= i < |b| => b[i].tokens)
  }

  /** Prompt plus response length, which is what the cap is checked against. */
  function Costs(b: Batch): (r: seq<nat>)
    ensures |r| == |b|
    ensures forall i :: 0 <= i < |r| ==> r[i] == b[i].prompt + b[i].response
  {
    seq(|b|, i requires 0 <= i < |b| => b[i].prompt + b[i].response)
  }

  function RoundUp(a: nat, b: nat): nat
    requires b > 0
  {
    ((a + b - 1) / b) * b
  }

  /** The least multiple of b that is not below a. */
  lemma RoundUpIsLeast(a: nat, b: nat)
    requires b > 0
    ensures RoundUp(a, b) % b == 0 && a <= RoundUp(a, b) < a + b
  {
    var q := (a + b - 1) / b;
    MultipleMod(q, b);
    assert q * b == b * q;
    assert a + b - 1 == b * q + (a + b - 1) % b;
  }

  // ----- the first guess ----------------------------------------------------------

  ghost predicate WithinWidth(ranks: seq<Batch>, width: nat) {
    forall r :: 0 <= r < |ranks| ==> forall i :: 0 <= i < |ranks[r]| ==> ranks[r][i].tokens <= width
  }

  lemma WidthFits(ranks: seq<Batch>, width: nat, cap: nat, r: nat)
    requires WithinWidth(ranks, width) && width <= cap && r < |ranks|
    ensures BestFitDecreasing.AllFit(Tokens(ranks[r]), cap)
  {
  }

  /** What the width assertion gives the packer: every sample fits a bin. */
  ghost predicate Startable(ranks: seq<Batch>, cap: nat) {
    forall r :: 0 <= r < |ranks| ==> BestFitDecreasing.AllFit(Tokens(ranks[r]), cap)
  }

  /** The bins one rank needs, raised to the configured minimum. */
  function LocalCount(b: Batch, cap: nat, minCount: Option<nat>): nat
    requires BestFitDecreasing.AllFit(Tokens(b), cap)
  {
    var bins := |BestFitDecreasing.Packing(Tokens(b), cap)|;
    if minCount.Some? then Max(minCount.value, bins) else bins
  }

  /** all_reduce(MAX) over the ranks. */
  function GlobalCount(ranks: seq<Batch>, cap: nat, minCount: Option<nat>): nat
    requires Startable(ranks, cap)
  {
    if ranks == [] then 0 else Max(LocalCount(ranks[0], cap, minCount), GlobalCount(ranks[1..], cap, minCount))
  }

  function StartCount(ranks: seq<Batch>, cap: nat, minCount: Option<nat>, divisor: Option<nat>): nat
    requires Startable(ranks, cap)
    requires divisor.Some? ==> divisor.value > 0
  {
    var count := GlobalCount(ranks, cap, minCount);
    if divisor.Some? then RoundUp(count, divisor.value) else count
  }

  /**
    What a first count has to satisfy: no rank's packing needs more bins, the configured minimum is
    met, and the count is a multiple of the divisor.
   */
  ghost predicate Enough(ranks: seq<Batch>, cap: nat, minCount: Option<nat>, divisor: Option<nat>, count: nat)
    requires Startable(ranks, cap) && (divisor.Some? ==> divisor.value > 0)
  {
    && (forall r :: 0 <= r < |ranks| ==> |BestFitDecreasing.Packing(Tokens(ranks[r]), cap)| <= count)
    && (minCount.Some? ==> minCount.value <= count)
    && (divisor.Some? ==> count % divisor.value == 0)
  }

  /** The least such count. */
  ghost predicate IsStart(ranks: seq<Batch>, cap: nat, minCount: Option<nat>, divisor: Option<nat>, start: nat)
    requires Startable(ranks, cap) && (divisor.Some? ==> divisor.value > 0)
  {
    && Enough(ranks, cap, minCount, divisor, start)
    && forall count: nat :: Enough(ranks, cap, minCount, divisor, count) ==> start <= count
  }

  lemma {:induction false} GlobalIsLeast(ranks: seq<Batch>, cap: nat, minCount: Option<nat>)
    requires ranks != [] && Startable(ranks, cap)
    ensures IsStart(ranks, cap, minCount, None, GlobalCount(ranks, cap, minCount))
  {
    var rest, start := ranks[1..], GlobalCount(ranks, cap, minCount);
    EnoughCons(ranks, cap, minCount, start);
    LocalMeans(ranks[0], cap, minCount);
    assert start == Max(LocalCount(ranks[0], cap, minCount), GlobalCount(rest, cap, minCount));
    hide BestFitDecreasing.Packing, BestFitDecreasing.AllFit, Startable, Enough, LocalCount, GlobalCount;
    if rest == [] {
      NoRanks(cap, minCount, start);
    } else {
      GlobalIsLeast(rest, cap, minCount);
      EnoughGrows(rest, cap, minCount, GlobalCount(rest, cap, minCount), start);
    }
    forall count: nat | Enough(ranks, cap, minCount, None, count) ensures start <= count {
      EnoughCons(ranks, cap, minCount, count);
      NoRanks(cap, minCount, count);
      MinimumMet(ranks, cap, minCount, count);
    }
  }

  lemma LocalMeans(b: Batch, cap: nat, minCount: Option<nat>)
    requires BestFitDecreasing.AllFit(Tokens(b), cap)
    ensures var bins := |BestFitDecreasing.Packing(Tokens(b), cap)|;
            LocalCount(b, cap, minCount) == if minCount.Some? then Max(minCount.value, bins) else bins
  {
  }

  lemma NoRanks(cap: nat, minCount: Option<nat>, count: nat)
    ensures Startable([], cap) && GlobalCount([], cap, minCount) == 0
    ensures Enough([], cap, minCount, None, count) <==> (minCount.Some? ==> minCount.value <= count)
  {
  }

  lemma MinimumMet(ranks: seq<Batch>, cap: nat, minCount: Option<nat>, count: nat)
    requires Startable(ranks, cap) && Enough(ranks, cap, minCount, None, count)
    ensures minCount.Some? ==> minCount.value <= count
  {
  }

  lemma EnoughGrows(ranks: seq<Batch>, cap: nat, minCount: Option<nat>, low: nat, high: nat)
    requires Startable(ranks, cap) && Enough(ranks, cap, minCount, None, low) && low <= high
    ensures Enough(ranks, cap, minCount, None, high)
  {
    hide BestFitDecreasing.Packing;
  }

  lemma EnoughCons(ranks: seq<Batch>, cap: nat, minCount: Option<nat>, count: nat)
    requires ranks != [] && Startable(ranks, cap)
    ensures Startable(ranks[1..], cap)
    ensures Enough(ranks, cap, minCount, None, count)
        <==> |BestFitDecreasing.Packing(Tokens(ranks[0]), cap)| <= count
             && Enough(ranks[1..], cap, minCount, None, count)
  {
    var rest := ranks[1..];
    hide BestFitDecreasing.Packing, BestFitDecreasing.AllFit;
    forall r | 0 <= r < |rest| ensures BestFitDecreasing.AllFit(Tokens(rest[r]), cap) && rest[r] == ranks[r + 1] { }
    if Enough(ranks, cap, minCount, None, count) {
      forall r | 0 <= r < |rest| ensures |BestFitDecreasing.Packing(Tokens(rest[r]), cap)| <= count {
        assert rest[r] == ranks[r + 1];
      }
    }
  }

  /** The start is the least count that is enough for every rank, the minimum and the divisor together. */
  lemma StartIsLeast(ranks: seq<Batch>, cap: nat, minCount: Option<nat>, divisor: Option<nat>)
    requires ranks != [] && Startable(ranks, cap) && (divisor.Some? ==> divisor.value > 0)
    ensures IsStart(ranks, cap, minCount, divisor, StartCount(ranks, cap, minCount, divisor))
  {
    GlobalIsLeast(ranks, cap, minCount);
    var base, start := GlobalCount(ranks, cap, minCount), StartCount(ranks, cap, minCount, divisor);
    hide BestFitDecreasing.Packing, BestFitDecreasing.AllFit, GlobalCount, RoundUp, Startable;
    if divisor.Some? {
      RoundUpIsLeast(base, divisor.value);
      forall count: nat | Enough(ranks, cap, minCount, divisor, count) ensures start <= count {
        assert Enough(ranks, cap, minCount, None, count);
        NoMultipleBelow(base, divisor.value, start, count);
      }
    }
  }

  /** Of the multiples of d not below a, one that is less than d above a is the least. */
  lemma NoMultipleBelow(a: nat, d: nat, m: nat, n: nat)
    requires d > 0 && m % d == 0 && n % d == 0 && a <= m < a + d && a <= n
    ensures m <= n
  {
    if n < m {
      NextMultiple(n, d, m);
    }
  }

  // ----- one attempt ----------------------------------------------------------------

  /** The rows of k balanced micro-batches. */
  function Rows(b: Batch, k: nat): seq<seq<nat>> {
    KarmarkarKarp.Balanced(Tokens(b), k, false)
  }

  /** Each of k balanced micro-batches stays within the cap. */
  ghost predicate Fits(b: Batch, k: nat, cap: nat) {
    forall j :: 0 <= j < |Rows(b, k)| ==> Load(Costs(b), Rows(b, k)[j]) <= cap
  }

  function TotalCost(b: Batch): nat {
    if b == [] then 0 else b[0].prompt + b[0].response + TotalCost(b[1..])
  }

  lemma {:induction false} GatheredCost(b: Batch, p: seq<nat>)
    requires InRange(p, |b|)
    ensures TotalCost(Gather(b, p)) == Load(Costs(b), p)
  {
    if p != [] {
      GatheredCost(b, p[1..]);
      assert Gather(b, p)[1..] == Gather(b, p[1..]);
    }
  }

  /** k non-empty micro-batches, each row of the batch in exactly one. */
  lemma RowsCover(b: Batch, k: nat)
    requires 0 < k <= |b|
    ensures |Rows(b, k)| == k
    ensures IsPermutation(Concat(Rows(b, k)), |b|) && |Concat(Rows(b, k))| == |b|
    ensures AllInRange(Rows(b, k), |b|)
    ensures forall j :: 0 <= j < k ==> Rows(b, k)[j] != []
  {
    KarmarkarKarp.BalancedTheorem(Tokens(b), k, false);
    var parts := Rows(b, k);
    PermutationIsBijective(Concat(parts), |b|);
    forall j | 0 <= j < k ensures InRange(parts[j], |b|) && parts[j] != [] {
      assert parts[j] in parts;
      forall i | 0 <= i < |parts[j]| ensures parts[j][i] < |b| {
        ConcatMembers<nat>(parts, parts[j][i]);
      }
    }
  }

  method ComputeRows(b: Batch, k: nat) returns (parts: seq<seq<nat>>)
    requires 0 < k <= |b|
    ensures parts == Rows(b, k)
  {
    hide KarmarkarKarp.Balanced;
    parts := KarmarkarKarpObjects.BalancedPartitions(Tokens(b), k, false);
  }

  /** Builds the micro-batches of one rank and stops at the first that is over the cap. */
  method SplitRank(b: Batch, k: nat, cap: nat)
    returns (valid: bool, parts: seq<seq<nat>>, micro: seq<Batch>)
    requires 0 < k <= |b|
    ensures valid <==> Fits(b, k, cap)
    ensures parts == Rows(b, k)
    ensures AllInRange(parts, |b|) && |parts| == k
    ensures valid ==> |micro| == k && forall j :: 0 <= j < k ==> micro[j] == Gather(b, parts[j])
  {
    hide Rows, Load, TotalCost;
    parts := ComputeRows(b, k);
    RowsCover(b, k);
    valid, micro := true, [];
    var j := 0;
    while j < |parts|
      invariant j <= |parts| && |micro| == j && valid
      invariant forall m :: 0 <= m < j ==> micro[m] == Gather(b, parts[m]) && Load(Costs(b), parts[m]) <= cap
    {
      var p := parts[j];
      GatheredCost(b, p);
      micro := micro + [Gather(b, p)];
      if TotalCost(Gather(b, p)) > cap {
        valid := false;
        break;
      }
      j := j + 1;
    }
  }

  // ----- the search ------------------------------------------------------------------

  datatype Split = Split(count: nat, parts: seq<seq<seq<nat>>>, micro: seq<seq<Batch>>)

  /** CapTooSmall: the width assertion. Unsplittable: a rank cannot be cut into `count` parts. */
  datatype SearchError = CapTooSmall | Unsplittable(count: nat)

  /** Every rank can be cut into k micro-batches and they all fit. */
  ghost predicate AllRanksFit(ranks: seq<Batch>, k: nat, cap: nat) {
    forall r :: 0 <= r < |ranks| ==> Fits(ranks[r], k, cap)
  }

  ghost predicate CanSplit(ranks: seq<Batch>, k: nat) {
    forall r :: 0 <= r < |ranks| ==> 0 < k <= |ranks[r]|
  }

  /** One round over all ranks, ending in the all_reduce(MIN) of their verdicts. */
  method TryCount(ranks: seq<Batch>, k: nat, cap: nat) returns (valid: bool, split: Split)
    requires CanSplit(ranks, k)
    ensures valid <==> AllRanksFit(ranks, k, cap)
    ensures split.count == k && (valid ==> IsSplit(ranks, k, split))
  {
    hide Fits, Rows;
    valid := true;
    var parts: seq<seq<seq<nat>>>, micro: seq<seq<Batch>> := [], [];
    var r := 0;
    while r < |ranks|
      invariant r <= |ranks|
      invariant |parts| == |micro| == r
      invariant valid <==> forall s :: 0 <= s < r ==> Fits(ranks[s], k, cap)
      invariant valid ==> forall s :: 0 <= s < r ==> IsRankSplit(ranks[s], k, parts[s], micro[s])
    {
      var ok, p, m := SplitRank(ranks[r], k, cap);
      valid := valid && ok;
      parts, micro := parts + [p], micro + [m];
      r := r + 1;
    }
    split := Split(k, parts, micro);
  }

  ghost predicate IsRankSplit(b: Batch, k: nat, parts: seq<seq<nat>>, micro: seq<Batch>) {
    && parts == Rows(b, k)
    && AllInRange(parts, |b|)
    && |micro| == |parts| == k
    && forall j :: 0 <= j < k ==> micro[j] == Gather(b, parts[j])
  }

  ghost predicate IsSplit(ranks: seq<Batch>, k: nat, s: Split) {
    && s.count == k && |s.parts| == |s.micro| == |ranks|
    && forall r :: 0 <= r < |ranks| ==> IsRankSplit(ranks[r], k, s.parts[r], s.micro[r])
  }

  /**
    What the search returns from a given start: the least count that fits, or
    the first count that some rank cannot be cut into when none before it fits.
   */
  ghost predicate Outcome(ranks: seq<Batch>, cap: nat, start: nat, r: Result<Split, SearchError>) {
    match r
    case Ok(s) =>
      && s.count >= start && CanSplit(ranks, s.count) && AllRanksFit(ranks, s.count, cap)
      && IsSplit(ranks, s.count, s)
      && forall k :: start <= k < s.count ==> CanSplit(ranks, k) && !AllRanksFit(ranks, k, cap)
    case Err(CapTooSmall) => false
    case Err(Unsplittable(count)) =>
      && count >= start && !CanSplit(ranks, count)
      && forall k :: start <= k < count ==> CanSplit(ranks, k) && !AllRanksFit(ranks, k, cap)
  }

  /** The loop that raises the count by one until every micro-batch of every rank fits. */
  method Settle(ranks: seq<Batch>, cap: nat, start: nat) returns (r: Result<Split, SearchError>)
    requires ranks != []
    ensures Outcome(ranks, cap, start, r)
  {
    hide AllRanksFit, IsSplit;
    var count := start;
    while true
      invariant count >= start
      invariant forall k :: start <= k < count ==> CanSplit(ranks, k) && !AllRanksFit(ranks, k, cap)
      decreases |ranks[0]| + 1 - count
    {
      if exists r :: 0 <= r < |ranks| && !(0 < count <= |ranks[r]|) {
        return Err(Unsplittable(count));
      }
      var valid, split := TryCount(ranks, count, cap);
      if valid { return Ok(split); }
      count := count + 1;
    }
  }

  method Search(ranks: seq<Batch>, width: nat, cap: nat, minCount: Option<nat>, divisor: Option<nat>)
    returns (r: Result<Split, SearchError>)
    requires ranks != [] && WithinWidth(ranks, width)
    requires divisor.Some? ==> divisor.value > 0
    ensures cap < width ==> r == Err(CapTooSmall)
    ensures cap >= width ==>
      && Startable(ranks, cap)
      && IsStart(ranks, cap, minCount, divisor, StartCount(ranks, cap, minCount, divisor))
      && Outcome(ranks, cap, StartCount(ranks, cap, minCount, divisor), r)
  {
    hide StartCount, Outcome, IsStart, BestFitDecreasing.AllFit;
    if cap < width { return Err(CapTooSmall); }
    forall r | 0 <= r < |ranks| ensures BestFitDecreasing.AllFit(Tokens(ranks[r]), cap) {
      WidthFits(ranks, width, cap, r);
    }
    StartIsLeast(ranks, cap, minCount, divisor);
    r := Settle(ranks, cap, StartCount(ranks, cap, minCount, divisor));
  }

  // ----- what the search returns ---------------------------------------------------------------

  /**
    Micro-batches of one rank as the caller sees them: every row once and none empty, rows in
    ascending order, each within the cap by prompt plus response, and token loads that come
    heaviest first and differ by at most `longest`.
   */
  ghost predicate GoodMicroBatches(
    b: Batch, k: nat, cap: nat, longest: nat, parts: seq<seq<nat>>, micro: seq<Batch>)
  {
    && |parts| == |micro| == k
    && IsPermutation(Concat(parts), |b|) && AllInRange(parts, |b|)
    && (forall j :: 0 <= j < k ==> parts[j] != [] && Sorted(KarmarkarKarp.Smaller, parts[j]))
    && (forall j :: 0 <= j < k ==> micro[j] == Gather(b, parts[j]) && TotalCost(micro[j]) <= cap)
    && KarmarkarKarp.LoadsWithin(Tokens(b), parts, longest)
    && KarmarkarKarp.HeaviestFirst(Tokens(b), parts)
  }

  lemma RowsAreBalanced(b: Batch, k: nat, longest: nat)
    requires 0 < k <= |b| && forall i :: 0 <= i < |b| ==> b[i].tokens <= longest
    ensures KarmarkarKarp.LoadsWithin(Tokens(b), Rows(b, k), longest)
    ensures KarmarkarKarp.HeaviestFirst(Tokens(b), Rows(b, k))
    ensures forall j :: 0 <= j < |Rows(b, k)| ==> Sorted(KarmarkarKarp.Smaller, Rows(b, k)[j])
  {
    KarmarkarKarp.BalancedTheorem(Tokens(b), k, false);
    KarmarkarKarp.LoadsAreCloseByLongest(Tokens(b), k, longest);
    forall j | 0 <= j < |Rows(b, k)| ensures Sorted(KarmarkarKarp.Smaller, Rows(b, k)[j]) {
      assert Rows(b, k)[j] in Rows(b, k);
    }
  }

  lemma RankSplitIsGood(b: Batch, k: nat, cap: nat, longest: nat, parts: seq<seq<nat>>, micro: seq<Batch>)
    requires 0 < k <= |b| && (forall i :: 0 <= i < |b| ==> b[i].tokens <= longest)
    requires IsRankSplit(b, k, parts, micro) && Fits(b, k, cap)
    ensures GoodMicroBatches(b, k, cap, longest, parts, micro)
  {
    RowsCover(b, k);
    RowsAreBalanced(b, k, longest);
    hide Rows, Load, TotalCost;
    forall j | 0 <= j < k ensures TotalCost(micro[j]) <= cap {
      GatheredCost(b, parts[j]);
    }
  }

  /** Some micro-batch of the balanced partition of some rank into k parts is over the cap. */
  ghost predicate OverTheCap(ranks: seq<Batch>, k: nat, cap: nat) {
    exists q: nat, p :: q < |ranks| && p in KarmarkarKarp.Balanced(Tokens(ranks[q]), k, false)
      && InRange(p, |ranks[q]|) && TotalCost(Gather(ranks[q], p)) > cap
  }

  lemma RejectedIsOver(ranks: seq<Batch>, k: nat, cap: nat)
    requires CanSplit(ranks, k) && !AllRanksFit(ranks, k, cap)
    ensures OverTheCap(ranks, k, cap)
  {
    var q :| 0 <= q < |ranks| && !Fits(ranks[q], k, cap);
    var parts := Rows(ranks[q], k);
    RowsCover(ranks[q], k);
    var j :| 0 <= j < |parts| && Load(Costs(ranks[q]), parts[j]) > cap;
    GatheredCost(ranks[q], parts[j]);
    hide KarmarkarKarp.Balanced, Load, TotalCost;
    assert parts[j] in KarmarkarKarp.Balanced(Tokens(ranks[q]), k, false);
  }

  /** A successful search: good micro-batches on every rank; every smaller count from the start on is over the cap. */
  lemma SearchTheorem(ranks: seq<Batch>, cap: nat, start: nat, longest: nat, r: Result<Split, SearchError>)
    requires Outcome(ranks, cap, start, r) && r.Ok? && WithinWidth(ranks, longest)
    ensures |r.value.parts| == |r.value.micro| == |ranks| && r.value.count >= start
    ensures forall q: nat :: q < |ranks| ==>
              GoodMicroBatches(ranks[q], r.value.count, cap, longest, r.value.parts[q], r.value.micro[q])
    ensures forall k: nat :: start <= k < r.value.count ==> OverTheCap(ranks, k, cap)
  {
    hide GoodMicroBatches, OverTheCap, Fits, IsRankSplit;
    var s := r.value;
    forall q: nat | q < |ranks|
      ensures GoodMicroBatches(ranks[q], s.count, cap, longest, s.parts[q], s.micro[q])
    {
      RankSplitIsGood(ranks[q], s.count, cap, longest, s.parts[q], s.micro[q]);
    }
    forall k: nat | start <= k < s.count ensures OverTheCap(ranks, k, cap) {
      RejectedIsOver(ranks, k, cap);
    }
  }

  // ----- when the search succeeds -----------------------------------------------------

  /** Every rank holds n samples. */
  ghost predicate EvenRanks(ranks: seq<Batch>, n: nat) {
    forall r :: 0 <= r < |ranks| ==> |ranks[r]| == n
  }

  /** No single sample is over the cap. */
  ghost predicate SamplesFit(ranks: seq<Batch>, cap: nat) {
    forall r :: 0 <= r < |ranks| ==> BestFitDecreasing.AllFit(Costs(ranks[r]), cap)
  }

  lemma {:induction false} NonEmptyParts(parts: seq<seq<nat>>)
    requires forall i :: 0 <= i < |parts| ==> parts[i] != []
    ensures |Concat(parts)| >= |parts|
    ensures |Concat(parts)| == |parts| <==> forall i :: 0 <= i < |parts| ==> |parts[i]| == 1
  {
    if parts != [] {
      NonEmptyParts(parts[1..]);
      assert forall i :: 0 < i < |parts| ==> parts[i] == parts[1..][i - 1];
    }
  }

  /** With as many parts as samples, each part is one sample. */
  lemma SingletonsFit(b: Batch, cap: nat)
    requires b != [] && BestFitDecreasing.AllFit(Costs(b), cap)
    ensures Fits(b, |b|, cap)
  {
    hide Rows;
    var parts := Rows(b, |b|);
    RowsCover(b, |b|);
    NonEmptyParts(parts);
    forall j | 0 <= j < |parts| ensures Load(Costs(b), parts[j]) <= cap {
      var p := parts[j];
      assert |p| == 1 && p[1..] == [];
      assert Load(Costs(b), p) == LenAt(Costs(b), p[0]);
    }
  }

  lemma {:induction false} LoadOfMember(lens: seq<nat>, p: seq<nat>, i: nat)
    requires i in p
    ensures Load(lens, p) >= LenAt(lens, i)
  {
    if p[0] != i { LoadOfMember(lens, p[1..], i); }
  }

  /** A sample over the cap spoils every attempt. */
  lemma FitsMeansFits(b: Batch, k: nat, cap: nat)
    requires 0 < k <= |b| && Fits(b, k, cap)
    ensures BestFitDecreasing.AllFit(Costs(b), cap)
  {
    hide Rows;
    var parts := Rows(b, k);
    RowsCover(b, k);
    PermutationIsBijective(Concat(parts), |b|);
    forall i | 0 <= i < |b| ensures Costs(b)[i] <= cap {
      ConcatMembers<nat>(parts, i);
      var j :| 0 <= j < k && i in parts[j];
      LoadOfMember(Costs(b), parts[j], i);
    }
  }

  /**
    Main theorem. With n > 0 samples on every rank, the search succeeds exactly
    when it starts at n or below and no sample is over the cap on its own; it
    then stops at n or below.
   */
  lemma SearchSucceedsIff(ranks: seq<Batch>, n: nat, cap: nat, start: nat, r: Result<Split, SearchError>)
    requires ranks != [] && n > 0 && start > 0 && EvenRanks(ranks, n)
    ensures Outcome(ranks, cap, start, r) ==> (r.Ok? <==> start <= n && SamplesFit(ranks, cap))
    ensures Outcome(ranks, cap, start, r) && r.Ok? ==> start <= r.value.count <= n
  {
    hide Fits, IsSplit, BestFitDecreasing.AllFit;
    assert |ranks[0]| == n;
    if !Outcome(ranks, cap, start, r) {
    } else if r.Ok? {
      forall q | 0 <= q < |ranks| ensures BestFitDecreasing.AllFit(Costs(ranks[q]), cap) {
        FitsMeansFits(ranks[q], r.value.count, cap);
      }
    } else if start <= n {
      FailedAt(ranks, n, cap, start, r);
      var q :| 0 <= q < |ranks| && !Fits(ranks[q], n, cap);
      if BestFitDecreasing.AllFit(Costs(ranks[q]), cap) { SingletonsFit(ranks[q], cap); }
    }
  }

  /** The search gave up although it could have tried n: n was tried and did not fit. */
  lemma FailedAt(ranks: seq<Batch>, n: nat, cap: nat, start: nat, r: Result<Split, SearchError>)
    requires ranks != [] && 0 < start <= n && EvenRanks(ranks, n)
    requires Outcome(ranks, cap, start, r) && r.Err?
    ensures !AllRanksFit(ranks, n, cap)
  {
    hide AllRanksFit;
    assert |ranks[0]| == n;
  }

  /** Without rounding or a configured minimum the start never exceeds n, and is positive. */
  lemma StartWithinSamples(ranks: seq<Batch>, n: nat, cap: nat)
    requires ranks != [] && n > 0 && EvenRanks(ranks, n) && Startable(ranks, cap)
    ensures 0 < StartCount(ranks, cap, None, None) <= n
  {
    GlobalWithin(ranks, n, cap);
  }

  lemma {:induction false} GlobalWithin(ranks: seq<Batch>, n: nat, cap: nat)
    requires n > 0 && EvenRanks(ranks, n) && Startable(ranks, cap)
    ensures GlobalCount(ranks, cap, None) <= n
    ensures ranks != [] ==> GlobalCount(ranks, cap, None) > 0
  {
    if ranks != [] {
      var lens := Tokens(ranks[0]);
      assert BestFitDecreasing.AllFit(lens, cap);
      BestFitDecreasing.PackingTheorem(lens, cap);
      SameMembers<nat>(Concat(BestFitDecreasing.Packing(lens, cap)), Range(n));
      NonEmptyParts(BestFitDecreasing.Packing(lens, cap));
      assert Startable(ranks[1..], cap) && EvenRanks(ranks[1..], n);
      GlobalWithin(ranks[1..], n, cap);
    }
  }

  // ----- when the count stays divisible ------------------------------------------------------

  /**
    The documented divisibility by num_batches_divided_by, from a start that is a multiple of the
    divisor: it holds exactly when the first count that fits on every rank is itself a multiple.
   */
  lemma DivisibleIff(ranks: seq<Batch>, cap: nat, start: nat, divisor: nat, r: Result<Split, SearchError>)
    requires divisor > 0
    ensures Outcome(ranks, cap, start, r) && r.Ok? ==>
              (r.value.count % divisor == 0 <==>
               exists k: nat :: FirstFit(ranks, cap, start, k) && k % divisor == 0)
  {
    if Outcome(ranks, cap, start, r) && r.Ok? {
      hide AllRanksFit, IsSplit, CanSplit;
      assert FirstFit(ranks, cap, start, r.value.count);
      forall k: nat | FirstFit(ranks, cap, start, k) ensures k == r.value.count {
        OneFirstFit(ranks, cap, start, k, r.value.count);
      }
    }
  }

  /** k is the first count from `start` on that fits on every rank. */
  ghost predicate FirstFit(ranks: seq<Batch>, cap: nat, start: nat, k: nat) {
    start <= k && AllRanksFit(ranks, k, cap) && forall j: nat :: start <= j < k ==> !AllRanksFit(ranks, j, cap)
  }

  lemma OneFirstFit(ranks: seq<Batch>, cap: nat, start: nat, k: nat, m: nat)
    requires FirstFit(ranks, cap, start, k) && FirstFit(ranks, cap, start, m)
    ensures k == m
  {
    hide AllRanksFit;
  }

  /**
    A test that can be made before the search: with fewer than divisor samples on a rank beyond the
    rounded start, the count stays divisible if and only if the very first round fits.
   */
  lemma DivisibleIffFirstRoundFits(
    ranks: seq<Batch>, n: nat, cap: nat, start: nat, divisor: nat, r: Result<Split, SearchError>)
    requires ranks != [] && start > 0 && EvenRanks(ranks, n)
    requires divisor > 0 && start % divisor == 0 && n < start + divisor
    ensures Outcome(ranks, cap, start, r) && r.Ok? ==>
              (r.value.count % divisor == 0 <==> AllRanksFit(ranks, start, cap))
  {
    if Outcome(ranks, cap, start, r) && r.Ok? {
      FirstRoundDecides(ranks, cap, start, r);
      assert |ranks[0]| == n && r.value.count <= |ranks[0]|;
      hide *;
      NextMultiple(start, divisor, r.value.count);
    }
  }

  lemma FirstRoundDecides(ranks: seq<Batch>, cap: nat, start: nat, r: Result<Split, SearchError>)
    requires Outcome(ranks, cap, start, r) && r.Ok?
    ensures r.value.count >= start
    ensures r.value.count == start <==> AllRanksFit(ranks, start, cap)
  {
    hide AllRanksFit, IsSplit, CanSplit;
  }
}
