/**
  The chunked layout of embodied rollouts, [chunk][batch][position], and the flat layout of the
  advantage functions, [step][batch]: flattening, its inverse, and the shifted slices that line
  up done flags and values with the flat steps.
 */
module EmbodiedLayout {
  import opened Results
  import Arithmetic
  import Advantages

  /** A tensor of rank two or three as nested lists. */
  type Matrix<T> = seq<seq<T>>
  type Cube<T> = seq<seq<seq<T>>>

  predicate IsMatrix<T>(m: Matrix<T>, rows: nat, cols: nat) {
    |m| == rows && forall i :: 0 <= i < rows ==> |m[i]| == cols
  }

  predicate IsCube<T>(x: Cube<T>, chunks: nat, batch: nat, size: nat) {
    |x| == chunks && forall c :: 0 <= c < chunks ==> IsMatrix(x[c], batch, size)
  }

  function Transposed<T>(m: Matrix<T>, rows: nat, cols: nat): (r: Matrix<T>)
    requires IsMatrix(m, rows, cols)
    ensures IsMatrix(r, cols, rows)
    ensures forall i, j :: 0 <= i < rows && 0 <= j < cols ==> r[j][i] == m[i][j]
  {
    seq(cols, j requires 0 <= j < cols => seq(rows, i requires 0 <= i < rows => m[i][j]))
  }

  /** transpose(1, 2).reshape(chunks * size, batch): the chunks' transposes, one after the other. */
  function Flatten<T>(x: Cube<T>, chunks: nat, batch: nat, size: nat): (r: Matrix<T>)
    requires IsCube(x, chunks, batch, size)
  {
    if chunks == 0 then []
    else Flatten(x[..chunks - 1], chunks - 1, batch, size) + Transposed(x[chunks - 1], batch, size)
  }

  lemma ChunkInside(c: int, chunks: nat, size: nat)
    requires 0 <= c < chunks
    ensures 0 <= c * size && c * size + size <= chunks * size
  {
    Arithmetic.Monotone(c + 1, chunks, size);
    Arithmetic.Distribute(c, size);
  }

  /** The flat rows of chunk `c`. */
  function ChunkRows<T>(m: Matrix<T>, chunks: nat, batch: nat, size: nat, c: nat): (r: Matrix<T>)
    requires IsMatrix(m, chunks * size, batch) && c < chunks
    ensures IsMatrix(r, size, batch)
    ensures 0 <= c * size <= c * size + size <= chunks * size
    ensures forall p :: 0 <= p < size ==> r[p] == m[c * size + p]
  {
    ChunkInside(c, chunks, size);
    m[c * size..c * size + size]
  }

  /** reshape(chunks, size, -1).transpose(1, 2) */
  function Unflatten<T>(m: Matrix<T>, chunks: nat, batch: nat, size: nat): (r: Cube<T>)
    requires IsMatrix(m, chunks * size, batch)
  {
    seq(chunks, c requires 0 <= c < chunks => Transposed(ChunkRows(m, chunks, batch, size, c), size, batch))
  }

  lemma {:induction false} FlattenShape<T>(x: Cube<T>, chunks: nat, batch: nat, size: nat)
    requires IsCube(x, chunks, batch, size)
    ensures IsMatrix(Flatten(x, chunks, batch, size), chunks * size, batch)
  {
    if chunks > 0 {
      FlattenShape(x[..chunks - 1], chunks - 1, batch, size);
      Arithmetic.Distribute(chunks - 1, size);
    }
  }

  /** The index law of flattening: flat step c * size + p is position p of chunk c. */
  lemma {:induction false} FlattenAt<T>(x: Cube<T>, chunks: nat, batch: nat, size: nat, c: nat, b: nat, p: nat)
    requires IsCube(x, chunks, batch, size) && c < chunks && b < batch && p < size
    ensures IsMatrix(Flatten(x, chunks, batch, size), chunks * size, batch)
    ensures 0 <= c * size + p < chunks * size
    ensures Flatten(x, chunks, batch, size)[c * size + p][b] == x[c][b][p]
  {
    FlattenShape(x, chunks, batch, size);
    FlattenShape(x[..chunks - 1], chunks - 1, batch, size);
    ChunkInside(c, chunks, size);
    if c < chunks - 1 {
      FlattenAt(x[..chunks - 1], chunks - 1, batch, size, c, b, p);
    }
  }

  /** Flattening and unflattening are inverse: nothing is moved to another chunk, batch row or position. */
  lemma UnflattenFlatten<T>(x: Cube<T>, chunks: nat, batch: nat, size: nat)
    requires IsCube(x, chunks, batch, size)
    ensures IsMatrix(Flatten(x, chunks, batch, size), chunks * size, batch)
    ensures Unflatten(Flatten(x, chunks, batch, size), chunks, batch, size) == x
  {
    var flat := Flatten(x, chunks, batch, size);
    FlattenShape(x, chunks, batch, size);
    var back := Unflatten(flat, chunks, batch, size);
    forall c | 0 <= c < chunks ensures back[c] == x[c] {
      var rows := ChunkRows(flat, chunks, batch, size, c);
      forall b, p | 0 <= b < batch && 0 <= p < size ensures back[c][b][p] == x[c][b][p] {
        FlattenAt(x, chunks, batch, size, c, b, p);
        assert rows[p] == flat[c * size + p];
      }
      SameMatrix(back[c], x[c], batch, size);
    }
  }

  lemma SameMatrix<T>(a: Matrix<T>, b: Matrix<T>, rows: nat, cols: nat)
    requires IsMatrix(a, rows, cols) && IsMatrix(b, rows, cols)
    requires forall i, j :: 0 <= i < rows && 0 <= j < cols ==> a[i][j] == b[i][j]
    ensures a == b
  {
    forall i | 0 <= i < rows ensures a[i] == b[i] { }
  }

  lemma UnflattenAt<T>(m: Matrix<T>, chunks: nat, batch: nat, size: nat, c: nat, b: nat, p: nat)
    requires IsMatrix(m, chunks * size, batch) && c < chunks && b < batch && p < size
    ensures IsCube(Unflatten(m, chunks, batch, size), chunks, batch, size)
    ensures 0 <= c * size + p < chunks * size
    ensures Unflatten(m, chunks, batch, size)[c][b][p] == m[c * size + p][b]
  {
    UnflattenShape(m, chunks, batch, size);
    ChunkInside(c, chunks, size);
    assert ChunkRows(m, chunks, batch, size, c)[p] == m[c * size + p];
  }

  lemma UnflattenShape<T>(m: Matrix<T>, chunks: nat, batch: nat, size: nat)
    requires IsMatrix(m, chunks * size, batch)
    ensures IsCube(Unflatten(m, chunks, batch, size), chunks, batch, size)
  {
    var x := Unflatten(m, chunks, batch, size);
    forall c | 0 <= c < chunks ensures IsMatrix(x[c], batch, size) {
      var rows := ChunkRows(m, chunks, batch, size, c);
      assert x[c] == Transposed(rows, size, batch);
    }
  }

  /** And flattening what was unflattened gives the flat tensor back. */
  lemma FlattenUnflatten<T>(m: Matrix<T>, chunks: nat, batch: nat, size: nat)
    requires IsMatrix(m, chunks * size, batch)
    ensures IsCube(Unflatten(m, chunks, batch, size), chunks, batch, size)
    ensures Flatten(Unflatten(m, chunks, batch, size), chunks, batch, size) == m
  {
    var x := Unflatten(m, chunks, batch, size);
    UnflattenShape(m, chunks, batch, size);
    FlattenShape(x, chunks, batch, size);
    var flat := Flatten(x, chunks, batch, size);
    forall t, b | 0 <= t < chunks * size && 0 <= b < batch ensures flat[t][b] == m[t][b] {
      StepOf(t, chunks, size);
      FlattenAt(x, chunks, batch, size, t / size, b, t % size);
      UnflattenAt(m, chunks, batch, size, t / size, b, t % size);
    }
    SameMatrix(flat, m, chunks * size, batch);
  }

  lemma StepOf(t: nat, chunks: nat, size: nat)
    requires t < chunks * size
    ensures size > 0 && t / size < chunks && t % size < size && t / size * size + t % size == t
  {
    assert size > 0;
    Arithmetic.Cancel(t / size, chunks, size);
  }

  /** The chunk of flat step t. */
  function ChunkOf(t: nat, size: nat): nat
    requires size > 0
  {
    t / size
  }

  /** The position of flat step t in its chunk. */
  function PositionOf(t: nat, size: nat): (p: nat)
    requires size > 0
    ensures p < size
  {
    t % size
  }

  lemma StepSplits(t: nat, chunks: nat, size: nat)
    requires t < chunks * size
    ensures size > 0 && ChunkOf(t, size) < chunks && t == ChunkOf(t, size) * size + PositionOf(t, size)
  {
    StepOf(t, chunks, size);
  }

  // ----- the inputs of the advantage functions -------------------------------------------------

  /** Rewards for n steps, done flags and values for n + 1, each as [step][batch]. */
  datatype Flat = Flat(rewards: Matrix<real>, dones: Matrix<bool>, values: Option<Matrix<real>>)

  /** The last n + 1 of the flattened done flags. */
  function FlatDones(dones: Cube<bool>, chunks: nat, batch: nat, size: nat): (r: Matrix<bool>)
    requires size > 0 && IsCube(dones, chunks + 1, batch, size)
    ensures IsMatrix(r, chunks * size + 1, batch)
  {
    FlattenShape(dones, chunks + 1, batch, size);
    Arithmetic.Distribute(chunks, size);
    var all := Flatten(dones, chunks + 1, batch, size);
    all[|all| - (chunks * size + 1)..]
  }

  /** The first n + 1 of the flattened values. */
  function FlatValues(values: Cube<real>, chunks: nat, batch: nat, size: nat): (r: Matrix<real>)
    requires size > 0 && IsCube(values, chunks + 1, batch, size)
    ensures IsMatrix(r, chunks * size + 1, batch)
  {
    FlattenShape(values, chunks + 1, batch, size);
    Arithmetic.Distribute(chunks, size);
    Flatten(values, chunks + 1, batch, size)[..chunks * size + 1]
  }

  function Preprocess(rewards: Cube<real>, dones: Cube<bool>, values: Option<Cube<real>>,
                      chunks: nat, batch: nat, size: nat): (r: Flat)
    requires size > 0 && IsCube(rewards, chunks, batch, size) && IsCube(dones, chunks + 1, batch, size)
    requires values.Some? ==> IsCube(values.value, chunks + 1, batch, size)
    ensures IsMatrix(r.rewards, chunks * size, batch) && IsMatrix(r.dones, chunks * size + 1, batch)
    ensures r.values.Some? <==> values.Some?
    ensures r.values.Some? ==> IsMatrix(r.values.value, chunks * size + 1, batch)
  {
    FlattenShape(rewards, chunks, batch, size);
    Flat(Flatten(rewards, chunks, batch, size),
         FlatDones(dones, chunks, batch, size),
         if values.None? then None else Some(FlatValues(values.value, chunks, batch, size)))
  }

  /** The slice of the done flags drops the first chunk but for its last entry. */
  lemma DonesShift(dones: Cube<bool>, chunks: nat, batch: nat, size: nat, i: nat)
    requires size > 0 && IsCube(dones, chunks + 1, batch, size) && i < chunks * size + 1
    ensures IsMatrix(Flatten(dones, chunks + 1, batch, size), (chunks + 1) * size, batch)
    ensures i + size - 1 < (chunks + 1) * size
    ensures FlatDones(dones, chunks, batch, size)[i] == Flatten(dones, chunks + 1, batch, size)[i + size - 1]
  {
    FlattenShape(dones, chunks + 1, batch, size);
    Arithmetic.Distribute(chunks, size);
    hide Flatten, IsCube;
  }

  /** The flag after flat step (c, p) is entry p of the next chunk. */
  lemma DonesAlign(dones: Cube<bool>, chunks: nat, batch: nat, size: nat, c: nat, b: nat, p: nat)
    requires size > 0 && IsCube(dones, chunks + 1, batch, size) && c < chunks && b < batch && p < size
    ensures 0 <= c * size + p < chunks * size
    ensures FlatDones(dones, chunks, batch, size)[c * size + p + 1][b] == dones[c + 1][b][p]
  {
    hide Flatten, FlatDones;
    ChunkInside(c, chunks, size);
    DonesShift(dones, chunks, batch, size, c * size + p + 1);
    FlattenAt(dones, chunks + 1, batch, size, c + 1, b, p);
    Arithmetic.Distribute(c, size);
  }

  lemma ValuesAlign(values: Cube<real>, chunks: nat, batch: nat, size: nat, c: nat, b: nat, p: nat)
    requires size > 0 && IsCube(values, chunks + 1, batch, size) && c < chunks && b < batch && p < size
    ensures 0 <= c * size + p < chunks * size
    ensures FlatValues(values, chunks, batch, size)[c * size + p][b] == values[c][b][p]
  {
    ChunkInside(c, chunks, size);
    FlattenAt(values, chunks + 1, batch, size, c, b, p);
    hide Flatten, IsCube;
  }

  lemma BootstrapAligns(values: Cube<real>, chunks: nat, batch: nat, size: nat, b: nat)
    requires size > 0 && IsCube(values, chunks + 1, batch, size) && b < batch
    ensures FlatValues(values, chunks, batch, size)[chunks * size][b] == values[chunks][b][0]
  {
    FlattenAt(values, chunks + 1, batch, size, chunks, b, 0);
    hide Flatten, IsCube;
  }

  /**
    What the shifted slices line up with. For flat step t = (c, p): the reward of the step itself,
    the done flag of the next chunk's entry p as the flag after the step, and the step's own value.
    The bootstrap value is the first one of the extra chunk.
   */
  lemma SlicesAlign(rewards: Cube<real>, dones: Cube<bool>, values: Option<Cube<real>>,
                    chunks: nat, batch: nat, size: nat, c: nat, b: nat, p: nat)
    requires size > 0 && IsCube(rewards, chunks, batch, size) && IsCube(dones, chunks + 1, batch, size)
    requires values.Some? ==> IsCube(values.value, chunks + 1, batch, size)
    requires c < chunks && b < batch && p < size
    ensures var flat, t := Preprocess(rewards, dones, values, chunks, batch, size), c * size + p;
            && 0 <= t < chunks * size
            && flat.rewards[t][b] == rewards[c][b][p]
            && flat.dones[t + 1][b] == dones[c + 1][b][p]
            && (values.Some? ==> flat.values.value[t][b] == values.value[c][b][p]
                                 && flat.values.value[chunks * size][b] == values.value[chunks][b][0])
  {
    hide Flatten, FlatDones, FlatValues;
    FlattenAt(rewards, chunks, batch, size, c, b, p);
    DonesAlign(dones, chunks, batch, size, c, b, p);
    if values.Some? {
      ValuesAlign(values.value, chunks, batch, size, c, b, p);
      BootstrapAligns(values.value, chunks, batch, size, b);
    }
  }

  function Column<T>(m: Matrix<T>, rows: nat, cols: nat, b: nat): (r: seq<T>)
    requires IsMatrix(m, rows, cols) && b < cols
    ensures |r| == rows && forall i :: 0 <= i < rows ==> r[i] == m[i][b]
  {
    seq(rows, i requires 0 <= i < rows => m[i][b])
  }

  /** The advantage of flat step `t` in batch column `b`. */
  function FlatAdvantage(flat: Flat, steps: nat, batch: nat, gamma: real, smoothing: real, t: nat, b: nat): real
    requires IsMatrix(flat.rewards, steps, batch) && IsMatrix(flat.dones, steps + 1, batch)
    requires flat.values.Some? ==> IsMatrix(flat.values.value, steps + 1, batch)
    requires t < steps && b < batch
  {
    Advantages.AdvantageAt(
      Column(flat.rewards, steps, batch, b), gamma, smoothing,
      if flat.values.None? then None else Some(Column(flat.values.value, steps + 1, batch, b)),
      Column(flat.dones, steps + 1, batch, b), t)
  }

  function FlatAdvantages(flat: Flat, steps: nat, batch: nat, gamma: real, smoothing: real): (r: Matrix<real>)
    requires IsMatrix(flat.rewards, steps, batch) && IsMatrix(flat.dones, steps + 1, batch)
    requires flat.values.Some? ==> IsMatrix(flat.values.value, steps + 1, batch)
    ensures IsMatrix(r, steps, batch)
    ensures forall t, b :: 0 <= t < steps && 0 <= b < batch ==>
              r[t][b] == FlatAdvantage(flat, steps, batch, gamma, smoothing, t, b)
  {
    seq(steps, t requires 0 <= t < steps =>
      seq(batch, b requires 0 <= b < batch => FlatAdvantage(flat, steps, batch, gamma, smoothing, t, b)))
  }

  /** The whole path: flatten and align the inputs, run the backward loop, unflatten its output. */
  function ChunkedAdvantages(rewards: Cube<real>, dones: Cube<bool>, values: Cube<real>,
                             chunks: nat, batch: nat, size: nat, gamma: real, smoothing: real): (r: Cube<real>)
    requires size > 0 && IsCube(rewards, chunks, batch, size) && IsCube(dones, chunks + 1, batch, size)
    requires IsCube(values, chunks + 1, batch, size)
    ensures IsCube(r, chunks, batch, size)
  {
    var flat := Preprocess(rewards, dones, Some(values), chunks, batch, size);
    var adv := FlatAdvantages(flat, chunks * size, batch, gamma, smoothing);
    UnflattenShape(adv, chunks, batch, size);
    Unflatten(adv, chunks, batch, size)
  }

  /**
    The whole path for one entry when the flag after it is set: the output at (c, b, p) is the
    input reward minus the input value at the same place, whatever the rest of the batch holds.
   */
  lemma DoneEntry(rewards: Cube<real>, dones: Cube<bool>, values: Cube<real>,
                  chunks: nat, batch: nat, size: nat, gamma: real, smoothing: real, c: nat, b: nat, p: nat)
    requires size > 0 && IsCube(rewards, chunks, batch, size) && IsCube(dones, chunks + 1, batch, size)
    requires IsCube(values, chunks + 1, batch, size) && c < chunks && b < batch && p < size
    requires dones[c + 1][b][p]
    ensures ChunkedAdvantages(rewards, dones, values, chunks, batch, size, gamma, smoothing)[c][b][p]
         == rewards[c][b][p] - values[c][b][p]
  {
    var flat := Preprocess(rewards, dones, Some(values), chunks, batch, size);
    var steps := chunks * size;
    SlicesAlign(rewards, dones, Some(values), chunks, batch, size, c, b, p);
    UnflattenAt(FlatAdvantages(flat, steps, batch, gamma, smoothing), chunks, batch, size, c, b, p);
    Advantages.AdvantageStep(Column(flat.rewards, steps, batch, b), gamma, smoothing,
                             Some(Column(flat.values.value, steps + 1, batch, b)),
                             Column(flat.dones, steps + 1, batch, b), c * size + p);
    Advantages.TimesUnits(gamma);
    Advantages.TimesUnits(Advantages.Times(gamma, smoothing));
    hide Flatten, Unflatten, Preprocess, Advantages.AdvantageAt, Advantages.Times, Column;
  }

  // ----- the whole path, for any entry --------------------------------------------------------------

  /** The value after position p of chunk c: the next position's, or the first of the next chunk. */
  function NextValue(values: Cube<real>, chunks: nat, batch: nat, size: nat, c: nat, b: nat, p: nat): real
    requires IsCube(values, chunks + 1, batch, size) && c < chunks && b < batch && p < size
  {
    if p + 1 < size then values[c][b][p + 1] else values[c + 1][b][0]
  }

  /** The temporal difference of an entry, read off the chunked tensors. */
  function CubeDelta(rewards: Cube<real>, dones: Cube<bool>, values: Cube<real>, chunks: nat, batch: nat, size: nat,
                     gamma: real, c: nat, b: nat, p: nat): real
    requires IsCube(rewards, chunks, batch, size) && IsCube(dones, chunks + 1, batch, size)
    requires IsCube(values, chunks + 1, batch, size) && c < chunks && b < batch && p < size
  {
    rewards[c][b][p]
    + Advantages.Times(gamma, Advantages.Gate(dones[c + 1][b][p], NextValue(values, chunks, batch, size, c, b, p)))
    - values[c][b][p]
  }

  lemma NextValueAligns(values: Cube<real>, chunks: nat, batch: nat, size: nat, c: nat, b: nat, p: nat)
    requires size > 0 && IsCube(values, chunks + 1, batch, size) && c < chunks && b < batch && p < size
    ensures 0 <= c * size + p < chunks * size
    ensures FlatValues(values, chunks, batch, size)[c * size + p + 1][b]
         == NextValue(values, chunks, batch, size, c, b, p)
  {
    hide FlatValues;
    ChunkInside(c, chunks, size);
    if p + 1 < size {
      ValuesAlign(values, chunks, batch, size, c, b, p + 1);
    } else {
      Arithmetic.Distribute(c, size);
      if c + 1 < chunks {
        ValuesAlign(values, chunks, batch, size, c + 1, b, 0);
      } else {
        BootstrapAligns(values, chunks, batch, size, b);
      }
    }
  }

  /** The flat trajectory of one batch column. */
  function ColumnOf(rewards: Cube<real>, dones: Cube<bool>, values: Cube<real>, chunks: nat, batch: nat, size: nat,
                    b: nat): (e: Advantages.Trajectory)
    requires size > 0 && IsCube(rewards, chunks, batch, size) && IsCube(dones, chunks + 1, batch, size)
    requires IsCube(values, chunks + 1, batch, size) && b < batch
    ensures e.Valid() && |e.rewards| == chunks * size
  {
    var flat := Preprocess(rewards, dones, Some(values), chunks, batch, size);
    var steps := chunks * size;
    Advantages.Trajectory(Column(flat.rewards, steps, batch, b), Column(flat.dones, steps + 1, batch, b),
                          Column(flat.values.value, steps + 1, batch, b))
  }

  /** Flat step t = (c, p) of a column holds the entry's reward and value, the flag and the value after it. */
  lemma ColumnHolds(rewards: Cube<real>, dones: Cube<bool>, values: Cube<real>,
                    chunks: nat, batch: nat, size: nat, c: nat, b: nat, p: nat)
    requires size > 0 && IsCube(rewards, chunks, batch, size) && IsCube(dones, chunks + 1, batch, size)
    requires IsCube(values, chunks + 1, batch, size) && c < chunks && b < batch && p < size
    ensures 0 <= c * size + p < chunks * size
    ensures var e, t := ColumnOf(rewards, dones, values, chunks, batch, size, b), c * size + p;
            && e.rewards[t] == rewards[c][b][p] && e.dones[t + 1] == dones[c + 1][b][p]
            && e.values[t] == values[c][b][p] && e.values[t + 1] == NextValue(values, chunks, batch, size, c, b, p)
  {
    SlicesAlign(rewards, dones, Some(values), chunks, batch, size, c, b, p);
    NextValueAligns(values, chunks, batch, size, c, b, p);
    hide FlatValues, FlatDones, Flatten, NextValue, IsCube;
  }

  lemma StepDelta(rewards: Cube<real>, dones: Cube<bool>, values: Cube<real>,
                  chunks: nat, batch: nat, size: nat, gamma: real, c: nat, b: nat, p: nat, t: nat)
    requires size > 0 && IsCube(rewards, chunks, batch, size) && IsCube(dones, chunks + 1, batch, size)
    requires IsCube(values, chunks + 1, batch, size) && c < chunks && b < batch && p < size
    requires t == c * size + p && t < chunks * size
    ensures var e := ColumnOf(rewards, dones, values, chunks, batch, size, b);
            && Advantages.Delta(e, gamma, t) == CubeDelta(rewards, dones, values, chunks, batch, size, gamma, c, b, p)
            && e.dones[t + 1] == dones[c + 1][b][p]
  {
    ColumnHolds(rewards, dones, values, chunks, batch, size, c, b, p);
    hide ColumnOf, Advantages.Times, NextValue, IsCube;
  }

  /** The same, from the flat step to the entry: its difference and the flag after it. */
  lemma ColumnAligns(rewards: Cube<real>, dones: Cube<bool>, values: Cube<real>,
                     chunks: nat, batch: nat, size: nat, gamma: real, b: nat, t: nat)
    requires size > 0 && IsCube(rewards, chunks, batch, size) && IsCube(dones, chunks + 1, batch, size)
    requires IsCube(values, chunks + 1, batch, size) && b < batch && t < chunks * size
    ensures ChunkOf(t, size) < chunks
    ensures var e := ColumnOf(rewards, dones, values, chunks, batch, size, b);
            && Advantages.Delta(e, gamma, t)
               == CubeDelta(rewards, dones, values, chunks, batch, size, gamma,
                         ChunkOf(t, size), b, PositionOf(t, size))
            && e.dones[t + 1] == dones[ChunkOf(t, size) + 1][b][PositionOf(t, size)]
  {
    StepSplits(t, chunks, size);
    hide ChunkOf, PositionOf, ColumnOf, CubeDelta, IsCube, Advantages.Delta;
    StepDelta(rewards, dones, values, chunks, batch, size, gamma, ChunkOf(t, size), b, PositionOf(t, size), t);
  }

  /** The temporal differences of one batch column in step order, from entry `from` up to entry `to`. */
  function CubeDeltas(rewards: Cube<real>, dones: Cube<bool>, values: Cube<real>, chunks: nat, batch: nat, size: nat,
                      gamma: real, b: nat, from: nat, to: nat): (r: seq<real>)
    requires size > 0 && IsCube(rewards, chunks, batch, size) && IsCube(dones, chunks + 1, batch, size)
    requires IsCube(values, chunks + 1, batch, size) && b < batch && from <= to <= chunks * size
    ensures |r| == to - from
  {
    seq(to - from, i requires 0 <= i < to - from =>
      StepSplits(from + i, chunks, size);
      CubeDelta(rewards, dones, values, chunks, batch, size, gamma,
                ChunkOf(from + i, size), b, PositionOf(from + i, size)))
  }

  /** The first step from t on whose following done entry is set, or the last step of all. */
  ghost predicate EpisodeEnd(dones: Cube<bool>, chunks: nat, batch: nat, size: nat, b: nat, t: nat, last: nat)
    requires size > 0 && IsCube(dones, chunks + 1, batch, size) && b < batch
  {
    && t <= last < chunks * size
    && (forall i :: t <= i < last ==> ChunkOf(i, size) < chunks && !dones[ChunkOf(i, size) + 1][b][PositionOf(i, size)])
    && ChunkOf(last, size) < chunks
    && (dones[ChunkOf(last, size) + 1][b][PositionOf(last, size)] || last + 1 == chunks * size)
  }

  /** x is the discounted sum of the temporal differences from step t to the end of its episode. */
  ghost predicate EntrySum(rewards: Cube<real>, dones: Cube<bool>, values: Cube<real>,
                           chunks: nat, batch: nat, size: nat, gamma: real, smoothing: real,
                           b: nat, t: nat, x: real)
    requires size > 0 && IsCube(rewards, chunks, batch, size) && IsCube(dones, chunks + 1, batch, size)
    requires IsCube(values, chunks + 1, batch, size) && b < batch
  {
    exists last: nat ::
      && EpisodeEnd(dones, chunks, batch, size, b, t, last)
      && x == Advantages.PowerSum(Advantages.Times(gamma, smoothing),
                                  CubeDeltas(rewards, dones, values, chunks, batch, size, gamma, b, t, last + 1))
  }

  lemma DeltasAlign(rewards: Cube<real>, dones: Cube<bool>, values: Cube<real>, chunks: nat, batch: nat, size: nat,
                    gamma: real, b: nat, from: nat, to: nat)
    requires size > 0 && IsCube(rewards, chunks, batch, size) && IsCube(dones, chunks + 1, batch, size)
    requires IsCube(values, chunks + 1, batch, size) && b < batch && from <= to <= chunks * size
    ensures Advantages.Deltas(ColumnOf(rewards, dones, values, chunks, batch, size, b), gamma, from, to)
         == CubeDeltas(rewards, dones, values, chunks, batch, size, gamma, b, from, to)
  {
    hide ColumnOf, CubeDelta, Advantages.Delta, ChunkOf, PositionOf;
    var e := ColumnOf(rewards, dones, values, chunks, batch, size, b);
    forall i | 0 <= i < to - from
      ensures Advantages.Deltas(e, gamma, from, to)[i]
           == CubeDeltas(rewards, dones, values, chunks, batch, size, gamma, b, from, to)[i]
    {
      ColumnAligns(rewards, dones, values, chunks, batch, size, gamma, b, from + i);
    }
  }

  lemma LastStepAligns(rewards: Cube<real>, dones: Cube<bool>, values: Cube<real>,
                       chunks: nat, batch: nat, size: nat, b: nat, t: nat)
    requires size > 0 && IsCube(rewards, chunks, batch, size) && IsCube(dones, chunks + 1, batch, size)
    requires IsCube(values, chunks + 1, batch, size) && b < batch && t < chunks * size
    ensures var e := ColumnOf(rewards, dones, values, chunks, batch, size, b);
            EpisodeEnd(dones, chunks, batch, size, b, t, Advantages.LastStep(e.dones, t))
  {
    hide ColumnOf, CubeDelta, Advantages.Delta, ChunkOf, PositionOf;
    var e := ColumnOf(rewards, dones, values, chunks, batch, size, b);
    var last := Advantages.LastStep(e.dones, t);
    forall i: nat | t <= i <= last
      ensures ChunkOf(i, size) < chunks && e.dones[i + 1] == dones[ChunkOf(i, size) + 1][b][PositionOf(i, size)]
    {
      ColumnAligns(rewards, dones, values, chunks, batch, size, 0.0, b, i);
    }
  }

  /** The loop's value at flat step t, read off the chunked tensors. */
  lemma GaeOfCubes(rewards: Cube<real>, dones: Cube<bool>, values: Cube<real>,
                   chunks: nat, batch: nat, size: nat, gamma: real, smoothing: real, b: nat, t: nat)
    requires size > 0 && IsCube(rewards, chunks, batch, size) && IsCube(dones, chunks + 1, batch, size)
    requires IsCube(values, chunks + 1, batch, size) && b < batch && t < chunks * size
    ensures var e := ColumnOf(rewards, dones, values, chunks, batch, size, b);
            EntrySum(rewards, dones, values, chunks, batch, size, gamma, smoothing, b, t,
                     Advantages.GaeAt(e, gamma, smoothing, t))
  {
    var e := ColumnOf(rewards, dones, values, chunks, batch, size, b);
    var last := Advantages.LastStep(e.dones, t);
    assert last + 1 <= chunks * size;
    hide ColumnOf, CubeDeltas, EpisodeEnd, IsCube, Advantages.Deltas, Advantages.Times, Advantages.PowerSum,
         Advantages.GaeAt;
    LastStepAligns(rewards, dones, values, chunks, batch, size, b, t);
    Advantages.GaeClosedForm(e, gamma, smoothing, t);
    DeltasAlign(rewards, dones, values, chunks, batch, size, gamma, b, t, last + 1);
  }

  /** The output at (c, b, p) is the loop's value at step c * size + p of column b. */
  lemma EntryIsGae(rewards: Cube<real>, dones: Cube<bool>, values: Cube<real>,
                   chunks: nat, batch: nat, size: nat, gamma: real, smoothing: real, c: nat, b: nat, p: nat)
    requires size > 0 && IsCube(rewards, chunks, batch, size) && IsCube(dones, chunks + 1, batch, size)
    requires IsCube(values, chunks + 1, batch, size) && c < chunks && b < batch && p < size
    ensures 0 <= c * size + p < chunks * size
    ensures ChunkedAdvantages(rewards, dones, values, chunks, batch, size, gamma, smoothing)[c][b][p]
         == Advantages.GaeAt(ColumnOf(rewards, dones, values, chunks, batch, size, b), gamma, smoothing, c * size + p)
  {
    var flat, steps := Preprocess(rewards, dones, Some(values), chunks, batch, size), chunks * size;
    var adv := FlatAdvantages(flat, steps, batch, gamma, smoothing);
    UnflattenAt(adv, chunks, batch, size, c, b, p);
    hide Flatten, Unflatten, Preprocess, Advantages.GaeAt, Column;
  }

  /**
    The whole path, for every entry: flattening, the backward loop and unflattening leave at (c, b, p)
    the discounted sum of the entry's and the following temporal differences of its batch row, through
    positions and then chunks, up to the first following done entry.
   */
  lemma EntryClosedForm(rewards: Cube<real>, dones: Cube<bool>, values: Cube<real>,
                        chunks: nat, batch: nat, size: nat, gamma: real, smoothing: real, c: nat, b: nat, p: nat)
    requires size > 0 && IsCube(rewards, chunks, batch, size) && IsCube(dones, chunks + 1, batch, size)
    requires IsCube(values, chunks + 1, batch, size) && c < chunks && b < batch && p < size
    ensures 0 <= c * size + p < chunks * size
    ensures var out := ChunkedAdvantages(rewards, dones, values, chunks, batch, size, gamma, smoothing);
            EntrySum(rewards, dones, values, chunks, batch, size, gamma, smoothing, b, c * size + p, out[c][b][p])
  {
    hide *;
    EntryIsGae(rewards, dones, values, chunks, batch, size, gamma, smoothing, c, b, p);
    var t := c * size + p;
    GaeOfCubes(rewards, dones, values, chunks, batch, size, gamma, smoothing, b, t);
  }

  // ----- chunk-level rewards ----------------------------------------------------------------------

  function AnyOf(s: seq<bool>): (r: bool)
    ensures r <==> true in s
  {
    s != [] && (s[0] || AnyOf(s[1..]))
  }

  /** One entry a chunk: the sum of the chunk's rewards. */
  function SumPositions(x: Cube<real>, chunks: nat, batch: nat, size: nat): (r: Cube<real>)
    requires IsCube(x, chunks, batch, size)
    ensures IsCube(r, chunks, batch, 1)
    ensures forall c, b :: 0 <= c < chunks && 0 <= b < batch ==> r[c][b] == [Arithmetic.Sum(x[c][b])]
  {
    seq(chunks, c requires 0 <= c < chunks => seq(batch, b requires 0 <= b < batch => [Arithmetic.Sum(x[c][b])]))
  }

  /** One entry a chunk: whether the chunk holds a done flag. */
  function AnyPosition(x: Cube<bool>, chunks: nat, batch: nat, size: nat): (r: Cube<bool>)
    requires IsCube(x, chunks, batch, size)
    ensures IsCube(r, chunks, batch, 1)
    ensures forall c, b :: 0 <= c < chunks && 0 <= b < batch ==> r[c][b] == [AnyOf(x[c][b])]
  {
    seq(chunks, c requires 0 <= c < chunks => seq(batch, b requires 0 <= b < batch => [AnyOf(x[c][b])]))
  }

  /** At chunk level a flat step is a chunk: its reward is the chunk's sum, its flag the next chunk's. */
  lemma ChunkLevelAligns(rewards: Cube<real>, dones: Cube<bool>, chunks: nat, batch: nat, size: nat, c: nat, b: nat)
    requires IsCube(rewards, chunks, batch, size) && IsCube(dones, chunks + 1, batch, size) && c < chunks && b < batch
    ensures var flat := Preprocess(SumPositions(rewards, chunks, batch, size),
                                   AnyPosition(dones, chunks + 1, batch, size), None, chunks, batch, 1);
            && flat.rewards[c][b] == Arithmetic.Sum(rewards[c][b])
            && (flat.dones[c + 1][b] <==> true in dones[c + 1][b])
  {
    SlicesAlign(SumPositions(rewards, chunks, batch, size), AnyPosition(dones, chunks + 1, batch, size), None,
                chunks, batch, 1, c, b, 0);
    hide Preprocess;
  }
}
