/**
  RolloutDataBalance.from_rollout_batches_dynamic: gather every rank's samples,
  pad them to a common multiple, and deal them out in equal, balanced shares.
 */
module RankBalance {
  import opened Arithmetic
  import opened Sequences
  import KarmarkarKarp
  import KarmarkarKarpObjects

  /** Named columns; each cell stands for one row of a tensor. */
  type Columns = map<string, seq<int>>

  type Row = map<string, int>

  ghost predicate Rectangular(c: Columns, n: nat) {
    forall k :: k in c ==> |c[k]| == n
  }

  function RowAt(c: Columns, i: nat): Row
    requires forall k :: k in c ==> i < |c[k]|
  {
    map k | k in c :: c[k][i]
  }

  function Rows(c: Columns, n: nat): (r: seq<Row>)
    requires Rectangular(c, n)
    ensures |r| == n
    ensures forall i :: 0 <= i < n ==> r[i] == RowAt(c, i)
  {
    seq(n, i requires 0 <= i < n => RowAt(c, i))
  }

  function Size(c: Columns): nat {
    if "input_ids" in c then |c["input_ids"]| else 0
  }

  /** Every rank's batch has the same columns, all of one height. */
  ghost predicate SameKeys(gathered: seq<Columns>, keys: set<string>) {
    forall c :: c in gathered ==> c.Keys == keys && Rectangular(c, Size(c))
  }

  /** What the assertions at the top of the function demand. */
  ghost predicate Acceptable(gathered: seq<Columns>, pad: Columns) {
    && gathered != []
    && "input_ids" in pad && "prompt_lengths" in pad && "response_lengths" in pad
    && Rectangular(pad, 1)
    && SameKeys(gathered, pad.Keys)
  }

  /** Lengths are counts of tokens. */
  ghost predicate LengthsCount(gathered: seq<Columns>, pad: Columns) {
    forall c, k :: c in gathered + [pad] && k in c && k in {"prompt_lengths", "response_lengths"} ==>
      forall x :: x in c[k] ==> x >= 0
  }

  // ----- padding ------------------------------------------------------------------

  function PadSize(total: nat, unit: nat): nat
    requires unit > 0
  {
    if total % unit == 0 then 0 else unit - total % unit
  }

  /** Fewer pads than one unit, and the padded total is a whole number of units. */
  lemma PadFits(total: nat, unit: nat)
    requires unit > 0
    ensures PadSize(total, unit) < unit && (total + PadSize(total, unit)) % unit == 0
  {
    var q, r := total / unit, total % unit;
    assert total == unit * q + r;
    if r != 0 {
      assert unit * (q + 1) == unit * q + unit;
      MultipleMod(q + 1, unit);
    }
  }

  /** An equal share of a whole number of dp * chunk rows is a whole number of chunks. */
  lemma ShareIsWholeChunks(total: nat, dp: nat, chunk: nat, share: nat)
    requires dp > 0 && chunk > 0 && dp * chunk > 0 && total % (dp * chunk) == 0 && dp * share == total
    ensures share % chunk == 0 && total % dp == 0
  {
    var m := total / (dp * chunk);
    assert total == (dp * chunk) * m;
    assert (dp * chunk) * m == dp * (chunk * m);
    assert share == chunk * m by {
      if share < chunk * m { Monotone(share + 1, chunk * m, dp); }
      if share > chunk * m { Monotone(chunk * m + 1, share, dp); }
    }
    MultipleMod(m, chunk);
    MultipleMod(share, dp);
  }

  // ----- merging --------------------------------------------------------------------

  function TotalSize(gathered: seq<Columns>): nat {
    if gathered == [] then 0 else Size(gathered[0]) + TotalSize(gathered[1..])
  }

  /** One column of all ranks, one after the other. */
  function Column(gathered: seq<Columns>, k: string): seq<int>
  {
    if gathered == [] then [] else (if k in gathered[0] then gathered[0][k] else []) + Column(gathered[1..], k)
  }

  function Repeat<T>(x: T, n: nat): (r: seq<T>)
    ensures |r| == n && forall i :: 0 <= i < n ==> r[i] == x
  {
    seq(n, _ => x)
  }

  lemma {:induction false} ColumnSize(gathered: seq<Columns>, keys: set<string>, k: string)
    requires SameKeys(gathered, keys) && k in keys
    ensures |Column(gathered, k)| == TotalSize(gathered)
  {
    if gathered != [] {
      var first, rest := gathered[0], gathered[1..];
      assert SameKeys(rest, keys) && first.Keys == keys && k in first;
      ColumnSize(gathered[1..], keys, k);
    }
  }

  /** All rows that were gathered, rank by rank. */
  function AllRows(gathered: seq<Columns>): seq<Row>
    requires forall c :: c in gathered ==> Rectangular(c, Size(c))
  {
    if gathered == [] then [] else Rows(gathered[0], Size(gathered[0])) + AllRows(gathered[1..])
  }

  /** Cell k of row i of the concatenated ranks is cell i of the concatenated column k. */
  lemma {:induction false} RowCell(gathered: seq<Columns>, keys: set<string>, i: nat, k: string)
    requires SameKeys(gathered, keys) && i < TotalSize(gathered) && k in keys
    ensures |AllRows(gathered)| == |Column(gathered, k)| == TotalSize(gathered)
    ensures AllRows(gathered)[i].Keys == keys && AllRows(gathered)[i][k] == Column(gathered, k)[i]
  {
    var first, rest := gathered[0], gathered[1..];
    assert SameKeys(rest, keys) && first.Keys == keys && Rectangular(first, Size(first));
    ColumnSize(rest, keys, k);
    AllRowsSize(rest);
    if i >= Size(first) { RowCell(rest, keys, i - Size(first), k); }
  }

  lemma {:induction false} AllRowsSize(gathered: seq<Columns>)
    requires forall c :: c in gathered ==> Rectangular(c, Size(c))
    ensures |AllRows(gathered)| == TotalSize(gathered)
  {
    if gathered != [] { AllRowsSize(gathered[1..]); }
  }

  /** The rows stand rank by rank, each rank's in its own order. */
  lemma {:induction false} RowPosition(gathered: seq<Columns>, r: nat, j: nat)
    requires r < |gathered| && forall c :: c in gathered ==> Rectangular(c, Size(c))
    requires j < Size(gathered[r])
    ensures TotalSize(gathered[..r]) + j < |AllRows(gathered)|
    ensures Rectangular(gathered[r], Size(gathered[r]))
    ensures AllRows(gathered)[TotalSize(gathered[..r]) + j] == RowAt(gathered[r], j)
  {
    AllRowsSize(gathered[1..]);
    if r > 0 {
      RowPosition(gathered[1..], r - 1, j);
      assert gathered[..r][1..] == gathered[1..][..r - 1];
    }
  }

  /** The merged batch: every rank's rows, then `pads` copies of the padding row. */
  function Merged(gathered: seq<Columns>, pad: Columns, pads: nat): Columns
    requires Acceptable(gathered, pad)
  {
    map k | k in pad :: Column(gathered, k) + Repeat(pad[k][0], pads)
  }

  lemma MergedSize(gathered: seq<Columns>, pad: Columns, pads: nat)
    requires Acceptable(gathered, pad)
    ensures SameKeys(gathered, pad.Keys)
    ensures forall k :: k in pad ==> |Column(gathered, k)| == TotalSize(gathered)
    ensures Rectangular(Merged(gathered, pad, pads), TotalSize(gathered) + pads)
    ensures |AllRows(gathered)| == TotalSize(gathered)
  {
    assert SameKeys(gathered, pad.Keys);
    forall k | k in pad ensures |Column(gathered, k)| == TotalSize(gathered) { ColumnSize(gathered, pad.Keys, k); }
    AllRowsSize(gathered);
  }

  lemma MergedCell(gathered: seq<Columns>, pad: Columns, pads: nat, i: nat, k: string)
    requires Acceptable(gathered, pad) && i < TotalSize(gathered) + pads && k in pad
    ensures |AllRows(gathered)| == TotalSize(gathered)
    ensures Merged(gathered, pad, pads).Keys == pad.Keys
    ensures |Merged(gathered, pad, pads)[k]| == TotalSize(gathered) + pads
    ensures i < TotalSize(gathered) ==> AllRows(gathered)[i].Keys == pad.Keys
    ensures Merged(gathered, pad, pads)[k][i]
         == if i < TotalSize(gathered) then AllRows(gathered)[i][k] else pad[k][0]
  {
    hide AllRows, TotalSize, SameKeys;
    MergedSize(gathered, pad, pads);
    if i < TotalSize(gathered) { RowCell(gathered, pad.Keys, i, k); }
  }

  lemma SameRow(a: Row, b: Row, keys: set<string>)
    requires a.Keys == keys && b.Keys == keys && forall k :: k in keys ==> a[k] == b[k]
    ensures a == b
  {
  }

  lemma RowCells(c: Columns, n: nat, i: nat)
    requires Rectangular(c, n) && i < n
    ensures RowAt(c, i).Keys == c.Keys
    ensures forall k :: k in c.Keys ==> |c[k]| == n && RowAt(c, i)[k] == c[k][i]
  {
  }

  lemma RowOfCells(c: Columns, n: nat, i: nat, row: Row)
    requires Rectangular(c, n) && i < n && c.Keys == row.Keys
    requires forall k :: k in c.Keys ==> |c[k]| == n && c[k][i] == row[k]
    ensures RowAt(c, i) == row
  {
    RowCells(c, n, i);
    hide *;
    SameRow(RowAt(c, i), row, row.Keys);
  }

  lemma MergedDataRow(gathered: seq<Columns>, pad: Columns, pads: nat, i: nat)
    requires Acceptable(gathered, pad) && i < TotalSize(gathered)
    requires Rectangular(Merged(gathered, pad, pads), TotalSize(gathered) + pads)
    ensures |AllRows(gathered)| == TotalSize(gathered)
    ensures RowAt(Merged(gathered, pad, pads), i) == AllRows(gathered)[i]
  {
    assert "input_ids" in pad;
    hide *;
    MergedCell(gathered, pad, pads, i, "input_ids");
    var n, merged, row := TotalSize(gathered) + pads, Merged(gathered, pad, pads), AllRows(gathered)[i];
    forall k | k in merged.Keys ensures |merged[k]| == n && merged[k][i] == row[k] {
      MergedCell(gathered, pad, pads, i, k);
    }
    RowOfCells(merged, n, i, row);
  }

  lemma MergedPadRow(gathered: seq<Columns>, pad: Columns, pads: nat, i: nat)
    requires Acceptable(gathered, pad) && TotalSize(gathered) <= i < TotalSize(gathered) + pads
    requires Rectangular(Merged(gathered, pad, pads), TotalSize(gathered) + pads) && Rectangular(pad, 1)
    ensures RowAt(Merged(gathered, pad, pads), i) == RowAt(pad, 0)
  {
    assert "input_ids" in pad;
    hide *;
    MergedCell(gathered, pad, pads, i, "input_ids");
    RowCells(pad, 1, 0);
    var n, merged, row := TotalSize(gathered) + pads, Merged(gathered, pad, pads), RowAt(pad, 0);
    forall k | k in merged.Keys ensures |merged[k]| == n && merged[k][i] == row[k] {
      MergedCell(gathered, pad, pads, i, k);
    }
    RowOfCells(merged, n, i, row);
  }

  lemma MergedRow(gathered: seq<Columns>, pad: Columns, pads: nat, i: nat)
    requires Acceptable(gathered, pad) && i < TotalSize(gathered) + pads
    ensures Rectangular(Merged(gathered, pad, pads), TotalSize(gathered) + pads) && Rectangular(pad, 1)
    ensures |AllRows(gathered)| == TotalSize(gathered)
    ensures RowAt(Merged(gathered, pad, pads), i)
         == if i < TotalSize(gathered) then AllRows(gathered)[i] else RowAt(pad, 0)
  {
    assert Rectangular(pad, 1);
    hide *;
    MergedSize(gathered, pad, pads);
    if i < TotalSize(gathered) {
      MergedDataRow(gathered, pad, pads, i);
    } else {
      MergedPadRow(gathered, pad, pads, i);
    }
  }

  lemma MergedRows(gathered: seq<Columns>, pad: Columns, pads: nat)
    requires Acceptable(gathered, pad)
    ensures Rectangular(Merged(gathered, pad, pads), TotalSize(gathered) + pads)
    ensures Rows(Merged(gathered, pad, pads), TotalSize(gathered) + pads)
         == AllRows(gathered) + Repeat(RowAt(pad, 0), pads)
  {
    MergedSize(gathered, pad, pads);
    assert Rectangular(pad, 1);
    hide Merged, AllRows, RowAt, TotalSize, Acceptable;
    var n := TotalSize(gathered) + pads;
    forall i | 0 <= i < n
      ensures Rows(Merged(gathered, pad, pads), n)[i] == (AllRows(gathered) + Repeat(RowAt(pad, 0), pads))[i]
    {
      MergedRow(gathered, pad, pads, i);
    }
  }

  // ----- dealing out ----------------------------------------------------------------------

  function SampleLength(merged: Columns, i: nat): nat
    requires "prompt_lengths" in merged && "response_lengths" in merged
    requires i < |merged["prompt_lengths"]| && i < |merged["response_lengths"]|
    requires forall x :: x in merged["prompt_lengths"] || x in merged["response_lengths"] ==> x >= 0
  {
    var prompt, response := merged["prompt_lengths"][i], merged["response_lengths"][i];
    assert prompt in merged["prompt_lengths"] && response in merged["response_lengths"];
    prompt + response
  }

  function Select(merged: Columns, n: nat, part: seq<nat>): (r: Columns)
    requires Rectangular(merged, n) && InRange(part, n)
    ensures r.Keys == merged.Keys && Rectangular(r, |part|)
  {
    map k | k in merged :: Gather(merged[k], part)
  }

  lemma SelectedRows(merged: Columns, n: nat, part: seq<nat>)
    requires Rectangular(merged, n) && InRange(part, n)
    ensures Rows(Select(merged, n, part), |part|) == Gather(Rows(merged, n), part)
  {
    var r := Select(merged, n, part);
    forall i | 0 <= i < |part| ensures RowAt(r, i) == RowAt(merged, part[i]) {
      assert forall k :: k in r ==> r[k][i] == merged[k][part[i]];
    }
  }

  /** The shares of all ranks: rank r gets the rows that part r names. */
  function Shares(merged: Columns, n: nat, parts: seq<seq<nat>>): (r: seq<Columns>)
    requires Rectangular(merged, n) && AllInRange(parts, n)
    ensures |r| == |parts|
    ensures forall i :: 0 <= i < |r| ==> r[i] == Select(merged, n, parts[i])
  {
    seq(|parts|, i requires 0 <= i < |parts| => Select(merged, n, parts[i]))
  }

  lemma ConcatCons<T>(head: seq<T>, tail: seq<seq<T>>)
    ensures Concat([head] + tail) == head + Concat(tail)
  {
    assert ([head] + tail)[1..] == tail;
  }

  lemma OneShare(merged: Columns, n: nat, head: seq<nat>, tail: seq<seq<nat>>)
    requires Rectangular(merged, n) && InRange(head, n) && AllInRange(tail, n) && "input_ids" in merged
    ensures AllInRange([head] + tail, n)
    ensures Shares(merged, n, [head] + tail) == [Select(merged, n, head)] + Shares(merged, n, tail)
    ensures Size(Select(merged, n, head)) == |head|
  {
  }

  lemma AllRowsCons(c: Columns, rest: seq<Columns>, keys: set<string>)
    requires c.Keys == keys && Rectangular(c, Size(c)) && SameKeys(rest, keys)
    ensures SameKeys([c] + rest, keys) && AllRows([c] + rest) == Rows(c, Size(c)) + AllRows(rest)
  {
    assert ([c] + rest)[1..] == rest;
  }

  /** Dealing rows out share by share is gathering them part after part. */
  lemma {:induction false} ShareRowsGather(merged: Columns, n: nat, parts: seq<seq<nat>>)
    requires Rectangular(merged, n) && AllInRange(parts, n) && "input_ids" in merged
    ensures SameKeys(Shares(merged, n, parts), merged.Keys) && InRange(Concat(parts), n)
    ensures AllRows(Shares(merged, n, parts)) == Gather(Rows(merged, n), Concat(parts))
  {
    if parts != [] {
      var head, tail := parts[0], parts[1..];
      assert parts == [head] + tail && InRange(head, n) && AllInRange(tail, n);
      hide *;
      ShareRowsGather(merged, n, tail);
      OneShare(merged, n, head, tail);
      AllRowsCons(Select(merged, n, head), Shares(merged, n, tail), merged.Keys);
      SelectedRows(merged, n, head);
      GatherConcat(Rows(merged, n), head, Concat(tail));
      ConcatCons(head, tail);
    }
  }

  lemma PartsInRange(parts: seq<seq<nat>>, n: nat)
    requires IsPermutation(Concat(parts), n)
    ensures AllInRange(parts, n)
  {
    PermutationIsBijective(Concat(parts), n);
    forall r | 0 <= r < |parts| ensures InRange(parts[r], n) {
      forall i | 0 <= i < |parts[r]| ensures parts[r][i] < n { ConcatMembers<nat>(parts, parts[r][i]); }
    }
  }

  /** All ranks' rows together are exactly the gathered rows and the pads, each once. */
  lemma NothingLost(gathered: seq<Columns>, pad: Columns, pads: nat, parts: seq<seq<nat>>)
    requires Acceptable(gathered, pad)
    requires IsPermutation(Concat(parts), TotalSize(gathered) + pads)
    ensures var n := TotalSize(gathered) + pads;
      && Rectangular(Merged(gathered, pad, pads), n) && AllInRange(parts, n)
      && SameKeys(Shares(Merged(gathered, pad, pads), n, parts), pad.Keys)
      && multiset(AllRows(Shares(Merged(gathered, pad, pads), n, parts)))
         == multiset(AllRows(gathered)) + multiset(Repeat(RowAt(pad, 0), pads))
  {
    var n, m := TotalSize(gathered) + pads, Merged(gathered, pad, pads);
    MergedRows(gathered, pad, pads);
    PartsInRange(parts, n);
    assert "input_ids" in m && m.Keys == pad.Keys && SameKeys(gathered, pad.Keys);
    hide Merged, AllRows, Acceptable;
    ShareRowsGather(m, n, parts);
    GatherAll(Rows(m, n), Concat(parts));
  }

  lemma {:induction false} ColumnCounts(gathered: seq<Columns>, k: string)
    requires forall c, x :: c in gathered && k in c && x in c[k] ==> x >= 0
    ensures forall x :: x in Column(gathered, k) ==> x >= 0
  {
    if gathered != [] {
      assert gathered[0] in gathered;
      ColumnCounts(gathered[1..], k);
    }
  }

  /** The merged lengths are still counts. */
  lemma MergedCounts(gathered: seq<Columns>, pad: Columns, pads: nat, k: string)
    requires Acceptable(gathered, pad) && LengthsCount(gathered, pad)
    requires k in pad && k in {"prompt_lengths", "response_lengths"}
    ensures forall x :: x in Merged(gathered, pad, pads)[k] ==> x >= 0
  {
    forall c, x | c in gathered && k in c && x in c[k] ensures x >= 0 { assert c in gathered + [pad]; }
    ColumnCounts(gathered, k);
    assert pad in gathered + [pad] && pad[k][0] in pad[k];
  }

  // ----- the whole redistribution ------------------------------------------------------------

  /** What the library asserts and assumes before it redistributes. */
  ghost predicate Ready(gathered: seq<Columns>, pad: Columns, chunk: nat) {
    Acceptable(gathered, pad) && LengthsCount(gathered, pad) && TotalSize(gathered) > 0 && chunk > 0
  }

  /** Rows dealt in one round: a chunk for every rank. */
  function Unit(gathered: seq<Columns>, chunk: nat): nat {
    |gathered| * chunk
  }

  lemma UnitPositive(gathered: seq<Columns>, chunk: nat)
    requires gathered != [] && chunk > 0
    ensures Unit(gathered, chunk) > 0
  {
    Monotone(1, chunk, |gathered|);
  }

  function Pads(gathered: seq<Columns>, pad: Columns, chunk: nat): nat
    requires Ready(gathered, pad, chunk)
  {
    UnitPositive(gathered, chunk);
    PadSize(TotalSize(gathered), Unit(gathered, chunk))
  }

  function PaddedSize(gathered: seq<Columns>, pad: Columns, chunk: nat): nat
    requires Ready(gathered, pad, chunk)
  {
    TotalSize(gathered) + Pads(gathered, pad, chunk)
  }

  /** Prompt and response lengths added up row by row. */
  function MergedLengths(gathered: seq<Columns>, pad: Columns, pads: nat): (r: seq<nat>)
    requires Acceptable(gathered, pad) && LengthsCount(gathered, pad)
    ensures |r| == TotalSize(gathered) + pads
  {
    MergedSize(gathered, pad, pads);
    MergedCounts(gathered, pad, pads, "prompt_lengths");
    MergedCounts(gathered, pad, pads, "response_lengths");
    var merged := Merged(gathered, pad, pads);
    seq(TotalSize(gathered) + pads, i requires 0 <= i < TotalSize(gathered) + pads => SampleLength(merged, i))
  }

  /** The merged and padded batch. */
  function Padded(gathered: seq<Columns>, pad: Columns, chunk: nat): (r: Columns)
    requires Ready(gathered, pad, chunk)
    ensures Rectangular(r, PaddedSize(gathered, pad, chunk))
  {
    MergedSize(gathered, pad, Pads(gathered, pad, chunk));
    Merged(gathered, pad, Pads(gathered, pad, chunk))
  }

  function Lengths(gathered: seq<Columns>, pad: Columns, chunk: nat): (r: seq<nat>)
    requires Ready(gathered, pad, chunk)
    ensures |r| == PaddedSize(gathered, pad, chunk)
  {
    MergedLengths(gathered, pad, Pads(gathered, pad, chunk))
  }

  /** The partition every rank computes; part r is rank r's. */
  function Deal(gathered: seq<Columns>, pad: Columns, chunk: nat): seq<seq<nat>>
    requires Ready(gathered, pad, chunk)
  {
    KarmarkarKarp.Balanced(Lengths(gathered, pad, chunk), |gathered|, true)
  }

  method MergeColumns(gathered: seq<Columns>, pad: Columns, pads: nat) returns (merged: Columns)
    requires Acceptable(gathered, pad)
    ensures merged == Merged(gathered, pad, pads)
  {
    merged := map[];
    var todo := pad.Keys;
    while todo != {}
      invariant todo <= pad.Keys && merged.Keys == pad.Keys - todo
      invariant forall k :: k in merged ==> merged[k] == Merged(gathered, pad, pads)[k]
      decreases |todo|
    {
      hide Column, Repeat;
      var k :| k in todo;
      merged := merged[k := Column(gathered, k) + Repeat(pad[k][0], pads)];
      todo := todo - {k};
    }
  }

  lemma WholeUnits(n: nat, dp: nat, chunk: nat)
    requires dp > 0 && chunk > 0 && dp * chunk > 0 && n > 0 && n % (dp * chunk) == 0
    ensures dp <= n && n % dp == 0
  {
    var m := n / (dp * chunk);
    assert n == (dp * chunk) * m;
    assert (dp * chunk) * m == dp * (chunk * m);
    MultipleMod(chunk * m, dp);
    if chunk * m > 0 { Monotone(1, chunk * m, dp); }
  }

  /** Fewer pads than one round; the padded total is whole rounds and splits evenly over the ranks. */
  lemma PadsTheorem(gathered: seq<Columns>, pad: Columns, chunk: nat)
    requires Ready(gathered, pad, chunk)
    ensures Pads(gathered, pad, chunk) < Unit(gathered, chunk)
    ensures Unit(gathered, chunk) > 0 && PaddedSize(gathered, pad, chunk) % Unit(gathered, chunk) == 0
    ensures 0 < |gathered| <= PaddedSize(gathered, pad, chunk)
    ensures PaddedSize(gathered, pad, chunk) % |gathered| == 0
  {
    UnitPositive(gathered, chunk);
    PadFits(TotalSize(gathered), Unit(gathered, chunk));
    hide PadSize;
    WholeUnits(PaddedSize(gathered, pad, chunk), |gathered|, chunk);
  }

  lemma GoodMeans(lens: seq<nat>, k: nat, bound: int, parts: seq<seq<nat>>)
    requires KarmarkarKarp.GoodParts(lens, k, true, bound, parts)
    ensures |parts| == k && IsPermutation(Concat(parts), |lens|)
    ensures forall r :: 0 <= r < k ==> k * |parts[r]| == |lens|
    ensures forall r, s :: 0 <= r < k && 0 <= s < k ==> Load(lens, parts[r]) - Load(lens, parts[s]) <= bound
  {
  }

  lemma Definitions(gathered: seq<Columns>, pad: Columns, chunk: nat)
    requires Ready(gathered, pad, chunk)
    ensures Acceptable(gathered, pad) && SameKeys(gathered, pad.Keys)
    ensures PaddedSize(gathered, pad, chunk) == TotalSize(gathered) + Pads(gathered, pad, chunk)
    ensures Padded(gathered, pad, chunk) == Merged(gathered, pad, Pads(gathered, pad, chunk))
    ensures Deal(gathered, pad, chunk) == KarmarkarKarp.Balanced(Lengths(gathered, pad, chunk), |gathered|, true)
  {
    hide PadSize, Unit, KarmarkarKarp.Balanced, Merged, MergedLengths, TotalSize;
  }

  /** The partition is a balanced one of all padded rows. */
  lemma DealFacts(gathered: seq<Columns>, pad: Columns, chunk: nat)
    requires Ready(gathered, pad, chunk)
    ensures var parts, lens := Deal(gathered, pad, chunk), Lengths(gathered, pad, chunk);
      && |parts| == |gathered| && IsPermutation(Concat(parts), |lens|)
      && (forall r :: 0 <= r < |gathered| ==> |gathered| * |parts[r]| == |lens|)
      && forall r, s :: 0 <= r < |gathered| && 0 <= s < |gathered| ==>
        Load(lens, parts[r]) - Load(lens, parts[s]) <= KarmarkarKarp.SpreadBound(lens, |gathered|, true)
    ensures AllInRange(Deal(gathered, pad, chunk), PaddedSize(gathered, pad, chunk))
  {
    hide *;
    Definitions(gathered, pad, chunk);
    var parts, lens := Deal(gathered, pad, chunk), Lengths(gathered, pad, chunk);
    PadsTheorem(gathered, pad, chunk);
    KarmarkarKarp.BalancedTheorem(lens, |gathered|, true);
    GoodMeans(lens, |gathered|, KarmarkarKarp.SpreadBound(lens, |gathered|, true), parts);
    PartsInRange(parts, |lens|);
  }

  // ----- what the ranks end up with ----------------------------------------------------------

  /** The merged batch row by row: all ranks' rows in order, then copies of the padding row. */
  ghost function PaddedRows(gathered: seq<Columns>, pad: Columns, pads: nat): seq<Row>
    requires Acceptable(gathered, pad)
  {
    assert Rectangular(pad, 1);
    AllRows(gathered) + Repeat(RowAt(pad, 0), pads)
  }

  /** lens[i] is the prompt plus the response length of row i. */
  ghost predicate CountsTokens(rows: seq<Row>, lens: seq<nat>) {
    && |lens| == |rows|
    && forall i :: 0 <= i < |rows| ==>
         && "prompt_lengths" in rows[i] && "response_lengths" in rows[i]
         && lens[i] == rows[i]["prompt_lengths"] + rows[i]["response_lengths"]
  }

  /** Share r is the rows that part r names, column for column and in that order. */
  ghost predicate HoldsRows(share: Columns, keys: set<string>, rows: seq<Row>, part: seq<nat>) {
    && share.Keys == keys && Rectangular(share, |part|)
    && InRange(part, |rows|) && Rows(share, |part|) == Gather(rows, part)
  }

  /**
    A redistribution as the ranks see it. Every padded row is in exactly one share, every share holds
    as many rows, in merged order. The token loads come heaviest first over the ranks. They are no
    further apart than b whenever each run of dp rows, in the order of their token counts, spans no more than b.
   */
  ghost predicate IsRedistribution(gathered: seq<Columns>, pad: Columns, chunk: nat, shares: seq<Columns>,
                                   pads: nat, lens: seq<nat>, parts: seq<seq<nat>>)
    requires Acceptable(gathered, pad)
  {
    var rows, dp := PaddedRows(gathered, pad, pads), |gathered|;
    && pads < dp * chunk && |rows| % (dp * chunk) == 0
    && CountsTokens(rows, lens)
    && |shares| == |parts| == dp && IsPermutation(Concat(parts), |rows|)
    && (forall r :: 0 <= r < dp ==> HoldsRows(shares[r], pad.Keys, rows, parts[r]))
    && (forall r :: 0 <= r < dp ==> dp * |parts[r]| == |rows| && Sorted(KarmarkarKarp.Smaller, parts[r]))
    && KarmarkarKarp.HeaviestFirst(lens, parts)
    && (forall s: seq<nat>, b: nat :: CloseRuns(lens, dp, s, b) ==> KarmarkarKarp.LoadsWithin(lens, parts, b))
  }

  /** s is the lengths in ascending order, and every k-th run of k of them spans at most b. */
  ghost predicate CloseRuns(lens: seq<nat>, k: nat, s: seq<nat>, b: nat) {
    && KarmarkarKarp.AscendingLengths(s) && multiset(s) == multiset(lens)
    && forall c: nat :: KarmarkarKarp.ChunkRange(s, k, c) <= b
  }

  lemma LengthsCountTokens(gathered: seq<Columns>, pad: Columns, chunk: nat)
    requires Ready(gathered, pad, chunk)
    ensures CountsTokens(PaddedRows(gathered, pad, Pads(gathered, pad, chunk)), Lengths(gathered, pad, chunk))
  {
    var pads := Pads(gathered, pad, chunk);
    var rows, lens := PaddedRows(gathered, pad, pads), Lengths(gathered, pad, chunk);
    var n, merged := TotalSize(gathered) + pads, Merged(gathered, pad, pads);
    MergedRows(gathered, pad, pads);
    assert rows == Rows(merged, n) && |lens| == n;
    MergedCounts(gathered, pad, pads, "prompt_lengths");
    MergedCounts(gathered, pad, pads, "response_lengths");
    hide Merged, AllRows, TotalSize, Acceptable, LengthsCount, PaddedRows, Pads;
    forall i: nat | i < n
      ensures "prompt_lengths" in rows[i] && "response_lengths" in rows[i]
           && lens[i] == rows[i]["prompt_lengths"] + rows[i]["response_lengths"]
    {
      assert rows[i] == RowAt(merged, i);
    }
  }

  lemma ShareHolds(gathered: seq<Columns>, pad: Columns, pads: nat, part: seq<nat>)
    requires Acceptable(gathered, pad) && InRange(part, TotalSize(gathered) + pads)
    ensures Rectangular(Merged(gathered, pad, pads), TotalSize(gathered) + pads)
    ensures HoldsRows(Select(Merged(gathered, pad, pads), TotalSize(gathered) + pads, part), pad.Keys,
                      PaddedRows(gathered, pad, pads), part)
  {
    MergedRows(gathered, pad, pads);
    var n, merged := TotalSize(gathered) + pads, Merged(gathered, pad, pads);
    assert merged.Keys == pad.Keys;
    hide AllRows, TotalSize, Acceptable, Gather, RowAt, Merged;
    SelectedRows(merged, n, part);
  }

  lemma DealIsBalanced(gathered: seq<Columns>, pad: Columns, chunk: nat)
    requires Ready(gathered, pad, chunk)
    ensures var lens, parts := Lengths(gathered, pad, chunk), Deal(gathered, pad, chunk);
      && KarmarkarKarp.HeaviestFirst(lens, parts)
      && (forall p :: p in parts ==> Sorted(KarmarkarKarp.Smaller, p))
      && (forall s: seq<nat>, b: nat :: CloseRuns(lens, |gathered|, s, b) ==> KarmarkarKarp.LoadsWithin(lens, parts, b))
  {
    var lens, dp := Lengths(gathered, pad, chunk), |gathered|;
    assert dp > 0;
    PadsTheorem(gathered, pad, chunk);
    Definitions(gathered, pad, chunk);
    assert |lens| == PaddedSize(gathered, pad, chunk);
    hide *;
    KarmarkarKarp.BalancedTheorem(lens, dp, true);
    forall s: seq<nat>, b: nat | CloseRuns(lens, dp, s, b)
      ensures KarmarkarKarp.LoadsWithin(lens, KarmarkarKarp.Balanced(lens, dp, true), b)
    {
      RunsBound(lens, dp, s, b);
    }
  }

  lemma RunsBound(lens: seq<nat>, k: nat, s: seq<nat>, b: nat)
    requires CloseRuns(lens, k, s, b) && 0 < k <= |lens| && |lens| % k == 0
    ensures KarmarkarKarp.LoadsWithin(lens, KarmarkarKarp.Balanced(lens, k, true), b)
  {
    hide KarmarkarKarp.LoadsWithin, KarmarkarKarp.Balanced, KarmarkarKarp.ChunkRange;
    KarmarkarKarp.LoadsAreClose(KarmarkarKarp.HeapTop, lens, k, true, s, b);
  }

  lemma SharesAreRedistribution(gathered: seq<Columns>, pad: Columns, chunk: nat)
    requires Ready(gathered, pad, chunk)
    ensures AllInRange(Deal(gathered, pad, chunk), PaddedSize(gathered, pad, chunk))
    ensures IsRedistribution(gathered, pad, chunk,
                             Shares(Padded(gathered, pad, chunk), PaddedSize(gathered, pad, chunk),
                                    Deal(gathered, pad, chunk)),
                             Pads(gathered, pad, chunk), Lengths(gathered, pad, chunk), Deal(gathered, pad, chunk))
  {
    assert Unit(gathered, chunk) == |gathered| * chunk;
    hide *;
    Definitions(gathered, pad, chunk);
    PadsTheorem(gathered, pad, chunk);
    DealFacts(gathered, pad, chunk);
    DealIsBalanced(gathered, pad, chunk);
    LengthsCountTokens(gathered, pad, chunk);
    PaddedRowsSize(gathered, pad, Pads(gathered, pad, chunk));
    AllSharesHold(gathered, pad, chunk);
    Assembled(gathered, pad, chunk,
              Shares(Padded(gathered, pad, chunk), PaddedSize(gathered, pad, chunk), Deal(gathered, pad, chunk)),
              Pads(gathered, pad, chunk), Lengths(gathered, pad, chunk), Deal(gathered, pad, chunk));
  }

  lemma PaddedRowsSize(gathered: seq<Columns>, pad: Columns, pads: nat)
    requires Acceptable(gathered, pad)
    ensures |PaddedRows(gathered, pad, pads)| == TotalSize(gathered) + pads
  {
    AllRowsSize(gathered);
    hide AllRows, RowAt, TotalSize;
  }

  lemma AllSharesHold(gathered: seq<Columns>, pad: Columns, chunk: nat)
    requires Ready(gathered, pad, chunk) && AllInRange(Deal(gathered, pad, chunk), PaddedSize(gathered, pad, chunk))
    ensures var parts := Deal(gathered, pad, chunk);
      var shares := Shares(Padded(gathered, pad, chunk), PaddedSize(gathered, pad, chunk), parts);
      && |shares| == |parts|
      && forall r :: 0 <= r < |parts| ==>
           HoldsRows(shares[r], pad.Keys, PaddedRows(gathered, pad, Pads(gathered, pad, chunk)), parts[r])
  {
    hide *;
    Definitions(gathered, pad, chunk);
    SharesHold(gathered, pad, Pads(gathered, pad, chunk), Deal(gathered, pad, chunk));
  }

  lemma SharesHold(gathered: seq<Columns>, pad: Columns, pads: nat, parts: seq<seq<nat>>)
    requires Acceptable(gathered, pad) && AllInRange(parts, TotalSize(gathered) + pads)
    ensures Rectangular(Merged(gathered, pad, pads), TotalSize(gathered) + pads)
    ensures var shares := Shares(Merged(gathered, pad, pads), TotalSize(gathered) + pads, parts);
      forall r :: 0 <= r < |parts| ==> HoldsRows(shares[r], pad.Keys, PaddedRows(gathered, pad, pads), parts[r])
  {
    assert forall r :: 0 <= r < |parts| ==> InRange(parts[r], TotalSize(gathered) + pads);
    hide *;
    MergedSize(gathered, pad, pads);
    forall r | 0 <= r < |parts|
      ensures HoldsRows(Select(Merged(gathered, pad, pads), TotalSize(gathered) + pads, parts[r]), pad.Keys,
                        PaddedRows(gathered, pad, pads), parts[r])
    {
      ShareHolds(gathered, pad, pads, parts[r]);
    }
  }

  /** The parts of the description put together. */
  lemma Assembled(gathered: seq<Columns>, pad: Columns, chunk: nat, shares: seq<Columns>,
                  pads: nat, lens: seq<nat>, parts: seq<seq<nat>>)
    requires Acceptable(gathered, pad) && |gathered| * chunk > 0
    requires pads < |gathered| * chunk && |PaddedRows(gathered, pad, pads)| % (|gathered| * chunk) == 0
    requires CountsTokens(PaddedRows(gathered, pad, pads), lens) && |lens| == |PaddedRows(gathered, pad, pads)|
    requires |shares| == |parts| == |gathered| && IsPermutation(Concat(parts), |lens|)
    requires forall r :: 0 <= r < |parts| ==>
               HoldsRows(shares[r], pad.Keys, PaddedRows(gathered, pad, pads), parts[r])
    requires forall r :: 0 <= r < |parts| ==> |gathered| * |parts[r]| == |lens|
    requires forall p :: p in parts ==> Sorted(KarmarkarKarp.Smaller, p)
    requires KarmarkarKarp.HeaviestFirst(lens, parts)
    requires forall s: seq<nat>, b: nat ::
               CloseRuns(lens, |gathered|, s, b) ==> KarmarkarKarp.LoadsWithin(lens, parts, b)
    ensures IsRedistribution(gathered, pad, chunk, shares, pads, lens, parts)
  {
    hide PaddedRows, CountsTokens, HoldsRows, Sorted, KarmarkarKarp.HeaviestFirst, KarmarkarKarp.LoadsWithin,
         CloseRuns, IsPermutation, Acceptable;
  }

  /**
    The whole redistribution. Every rank computes the same partition, so one run
    stands for all of them; `shares[r]` is what rank r keeps.
   */
  method Redistribute(gathered: seq<Columns>, pad: Columns, chunk: nat) returns (shares: seq<Columns>)
    requires Ready(gathered, pad, chunk)
    ensures AllInRange(Deal(gathered, pad, chunk), PaddedSize(gathered, pad, chunk))
    ensures shares ==
      Shares(Padded(gathered, pad, chunk), PaddedSize(gathered, pad, chunk), Deal(gathered, pad, chunk))
    ensures IsRedistribution(gathered, pad, chunk, shares,
                             Pads(gathered, pad, chunk), Lengths(gathered, pad, chunk), Deal(gathered, pad, chunk))
  {
    hide *;
    Definitions(gathered, pad, chunk);
    PadsTheorem(gathered, pad, chunk);
    DealFacts(gathered, pad, chunk);
    var merged := MergeColumns(gathered, pad, Pads(gathered, pad, chunk));
    var parts := KarmarkarKarpObjects.BalancedPartitions(Lengths(gathered, pad, chunk), |gathered|, true);
    shares := Shares(merged, PaddedSize(gathered, pad, chunk), parts);
    SharesAreRedistribution(gathered, pad, chunk);
  }

  /** Every rank gets the same number of rows, a whole number of chunks. */
  lemma SharesAreEqual(gathered: seq<Columns>, pad: Columns, chunk: nat, r: nat)
    requires Ready(gathered, pad, chunk) && r < |gathered|
    ensures |Deal(gathered, pad, chunk)| == |gathered|
    ensures |gathered| * |Deal(gathered, pad, chunk)[r]| == PaddedSize(gathered, pad, chunk)
    ensures |Deal(gathered, pad, chunk)[r]| % chunk == 0
  {
    assert Unit(gathered, chunk) == |gathered| * chunk && chunk > 0;
    hide *;
    PadsTheorem(gathered, pad, chunk);
    DealFacts(gathered, pad, chunk);
    ShareIsWholeChunks(PaddedSize(gathered, pad, chunk), |gathered|, chunk, |Deal(gathered, pad, chunk)[r]|);
  }

  /** No two ranks' token totals differ by more than the longest and the shortest sample do. */
  lemma SharesAreBalanced(gathered: seq<Columns>, pad: Columns, chunk: nat, r: nat, s: nat, lo: nat)
    requires Ready(gathered, pad, chunk) && r < |gathered| && s < |gathered|
    requires forall x :: x in Lengths(gathered, pad, chunk) ==> lo <= x
    ensures var lens, parts := Lengths(gathered, pad, chunk), Deal(gathered, pad, chunk);
      && |parts| == |gathered|
      && Load(lens, parts[r]) - Load(lens, parts[s]) <= Max(0, Longest(lens) - lo)
  {
    hide *;
    DealFacts(gathered, pad, chunk);
    KarmarkarKarp.EqualSizeBound(Lengths(gathered, pad, chunk), |gathered|, lo);
  }

  /** The ranks' shares together hold every gathered row and every pad exactly once. */
  lemma SharesCover(gathered: seq<Columns>, pad: Columns, chunk: nat)
    requires Ready(gathered, pad, chunk)
    ensures AllInRange(Deal(gathered, pad, chunk), PaddedSize(gathered, pad, chunk))
    ensures var n, parts := PaddedSize(gathered, pad, chunk), Deal(gathered, pad, chunk);
      var shares := Shares(Padded(gathered, pad, chunk), n, parts);
      && Acceptable(gathered, pad) && SameKeys(shares, pad.Keys) && SameKeys(gathered, pad.Keys)
      && multiset(AllRows(shares))
         == multiset(AllRows(gathered)) + multiset(Repeat(RowAt(pad, 0), Pads(gathered, pad, chunk)))
  {
    hide *;
    Definitions(gathered, pad, chunk);
    DealFacts(gathered, pad, chunk);
    NothingLost(gathered, pad, Pads(gathered, pad, chunk), Deal(gathered, pad, chunk));
  }
}
