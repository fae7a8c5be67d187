/**
  Generalized advantage estimation on one batch column (every operation of the recurrence acts
  on each column by itself): the backward loop, its closed form, and what a done flag cuts off.
  Rewards and values are exact reals; the optional normalisation is not part of the model.
 */
module Advantages {
  import opened Arithmetic
  import opened Results

  /** Rewards of T steps, done flags before and after every step, and T + 1 values. */
  datatype Trajectory = Trajectory(rewards: seq<real>, dones: seq<bool>, values: seq<real>) {
    ghost predicate Valid() {
      |dones| == |values| == |rewards| + 1
    }
  }

  /** Multiplication by the negated done flag. */
  function Gate(done: bool, x: real): real {
    if done then 0.0 else x
  }

  /** Real multiplication, named so that proofs can treat a product as one term. */
  function Times(a: real, b: real): real {
    a * b
  }

  lemma TimesUnits(x: real)
    ensures Times(1.0, x) == x && Times(x, 1.0) == x && Times(x, 0.0) == 0.0 && Times(0.0, x) == 0.0
  {
  }

  lemma TimesDistributes(x: real, a: real, b: real)
    ensures Times(x, a + b) == Times(x, a) + Times(x, b)
    ensures Times(x, a - b) == Times(x, a) - Times(x, b)
  {
  }

  lemma TimesAssociates(x: real, y: real, a: real)
    ensures Times(Times(x, y), a) == Times(x, Times(y, a))
  {
  }

  // ----- the recurrence --------------------------------------------------------------------------

  function Delta(e: Trajectory, gamma: real, t: nat): real
    requires e.Valid() && t < |e.rewards|
  {
    e.rewards[t] + Times(gamma, Gate(e.dones[t + 1], e.values[t + 1])) - e.values[t]
  }

  /** What the backward loop holds once it has done step `t`. */
  function GaeAt(e: Trajectory, gamma: real, smoothing: real, t: nat): real
    requires e.Valid() && t <= |e.rewards|
    decreases |e.rewards| - t
  {
    if t == |e.rewards| then 0.0
    else Delta(e, gamma, t) + Times(Times(gamma, smoothing), Gate(e.dones[t + 1], GaeAt(e, gamma, smoothing, t + 1)))
  }

  /** Without a critic: the rewards from `t` on, up to and including the step that ends the episode. */
  function ReturnAt(rewards: seq<real>, dones: seq<bool>, t: nat): real
    requires |dones| == |rewards| + 1 && t <= |rewards|
    decreases |rewards| - t
  {
    if t == |rewards| then 0.0
    else rewards[t] + Gate(dones[t + 1], ReturnAt(rewards, dones, t + 1))
  }

  /** The advantage at `t`, with or without a critic. */
  function AdvantageAt(rewards: seq<real>, gamma: real, smoothing: real, values: Option<seq<real>>,
                       dones: seq<bool>, t: nat): real
    requires |dones| == |rewards| + 1 && (values.Some? ==> |values.value| == |rewards| + 1) && t <= |rewards|
  {
    if values.None? then ReturnAt(rewards, dones, t)
    else GaeAt(Trajectory(rewards, dones, values.value), gamma, smoothing, t)
  }

  function Baseline(values: Option<seq<real>>, t: nat): real
    requires values.Some? ==> t < |values.value|
  {
    if values.None? then 0.0 else values.value[t]
  }

  lemma AdvantageStep(rewards: seq<real>, gamma: real, smoothing: real, values: Option<seq<real>>,
                      dones: seq<bool>, t: nat)
    requires |dones| == |rewards| + 1 && (values.Some? ==> |values.value| == |rewards| + 1) && t < |rewards|
    requires values.None? ==> gamma == smoothing == 1.0
    ensures AdvantageAt(rewards, gamma, smoothing, values, dones, |rewards|) == 0.0
    ensures AdvantageAt(rewards, gamma, smoothing, values, dones, t)
         == (if values.None? then rewards[t]
             else rewards[t] + Times(gamma, Gate(dones[t + 1], values.value[t + 1])) - values.value[t])
            + Times(Times(gamma, smoothing),
                    Gate(dones[t + 1], AdvantageAt(rewards, gamma, smoothing, values, dones, t + 1)))
  {
  }

  /**
    The backward loop. Without values both the discount and the smoothing factor are forced
    to one and the advantages are the returns.
   */
  method GaeAdvantagesAndReturns(rewards: seq<real>, gamma: real, gaeLambda: real, values: Option<seq<real>>,
                                 dones: seq<bool>)
    returns (advantages: seq<real>, discountedReturns: seq<real>)
    requires |dones| == |rewards| + 1 && (values.Some? ==> |values.value| == |rewards| + 1)
    ensures |advantages| == |discountedReturns| == |rewards|
    ensures forall t :: 0 <= t < |rewards| ==>
              advantages[t] == AdvantageAt(rewards, gamma, gaeLambda, values, dones, t)
    ensures values.Some? ==> forall t :: 0 <= t < |rewards| ==> discountedReturns[t] == advantages[t] + values.value[t]
    ensures values.None? ==> forall t :: 0 <= t < |rewards| ==>
              discountedReturns[t] == advantages[t] == ReturnAt(rewards, dones, t)
  {
    hide Times;
    var T := |rewards|;
    var buffer := new real[T](_ => 0.0);
    var gae := 0.0;
    var criticFree := values.None?;
    var smoothing, discount := gaeLambda, gamma;
    if criticFree {
      smoothing, discount := 1.0, 1.0;
    }
    var step := T;
    if T > 0 { AdvantageStep(rewards, discount, smoothing, values, dones, 0); }
    while step > 0
      invariant 0 <= step <= T
      invariant step < T || gae == 0.0
      invariant T > 0 ==> gae == AdvantageAt(rewards, discount, smoothing, values, dones, step)
      invariant forall t :: step <= t < T ==>
                  buffer[t] == AdvantageAt(rewards, discount, smoothing, values, dones, t) + Baseline(values, t)
    {
      step := step - 1;
      AdvantageStep(rewards, discount, smoothing, values, dones, step);
      var delta :=
        if criticFree then rewards[step]
        else rewards[step] + Times(discount, Gate(dones[step + 1], values.value[step + 1])) - values.value[step];
      gae := delta + Times(Times(discount, smoothing), Gate(dones[step + 1], gae));
      buffer[step] := if criticFree then gae else gae + values.value[step];
    }
    discountedReturns := buffer[..];
    advantages :=
      if criticFree then discountedReturns
      else seq(T, t requires 0 <= t < T => discountedReturns[t] - values.value[t]);
    forall t: nat | t < T
      ensures AdvantageAt(rewards, discount, smoothing, values, dones, t)
           == AdvantageAt(rewards, gamma, gaeLambda, values, dones, t)
    {
      FactorsForced(rewards, gamma, gaeLambda, values, dones, t);
    }
  }

  /**
    What the loop hands out, without its recurrence. With a critic: the advantage is the sum of the
    discounted temporal differences to the end of the episode. Without one: both outputs are the plain
    sum of the rewards to the end of the episode.
   */
  method AdvantagesInClosedForm(rewards: seq<real>, gamma: real, gaeLambda: real, values: Option<seq<real>>,
                                dones: seq<bool>)
    returns (advantages: seq<real>, discountedReturns: seq<real>)
    requires |dones| == |rewards| + 1 && (values.Some? ==> |values.value| == |rewards| + 1)
    ensures |advantages| == |discountedReturns| == |rewards|
    ensures values.Some? ==> forall t: nat :: t < |rewards| ==>
              && discountedReturns[t] == advantages[t] + values.value[t]
              && advantages[t]
                 == PowerSum(Times(gamma, gaeLambda),
                             Deltas(Trajectory(rewards, dones, values.value), gamma, t, LastStep(dones, t) + 1))
    ensures values.None? ==> forall t: nat :: t < |rewards| ==>
              discountedReturns[t] == advantages[t] == Sum(rewards[t..LastStep(dones, t) + 1])
  {
    hide GaeAt, PowerSum, Deltas, Times, ReturnAt, Sum, LastStep;
    advantages, discountedReturns := GaeAdvantagesAndReturns(rewards, gamma, gaeLambda, values, dones);
    if values.Some? {
      var e := Trajectory(rewards, dones, values.value);
      forall t: nat | t < |rewards|
        ensures AdvantageAt(rewards, gamma, gaeLambda, values, dones, t)
             == PowerSum(Times(gamma, gaeLambda), Deltas(e, gamma, t, LastStep(dones, t) + 1))
      {
        GaeClosedForm(e, gamma, gaeLambda, t);
      }
    } else {
      forall t: nat | t < |rewards| ensures ReturnAt(rewards, dones, t) == Sum(rewards[t..LastStep(dones, t) + 1]) {
        ReturnIsEpisodeSum(rewards, dones, t);
      }
    }
  }

  /**
    The returns with lambda one: the discounted rewards to the end of the episode, and after them the
    value at the end unless the episode is done there. No other value enters.
   */
  method LambdaOneReturns(rewards: seq<real>, gamma: real, values: seq<real>, dones: seq<bool>)
    returns (discountedReturns: seq<real>)
    requires |dones| == |values| == |rewards| + 1
    ensures |discountedReturns| == |rewards|
    ensures forall t: nat :: t < |rewards| ==>
              var end := LastStep(dones, t) + 1;
              discountedReturns[t] == PowerSum(gamma, rewards[t..end] + [if dones[end] then 0.0 else values[end]])
  {
    hide GaeAt, PowerSum, LastStep;
    var advantages;
    advantages, discountedReturns := GaeAdvantagesAndReturns(rewards, gamma, 1.0, Some(values), dones);
    var e := Trajectory(rewards, dones, values);
    forall t: nat | t < |rewards|
      ensures var end := LastStep(dones, t) + 1;
              discountedReturns[t] == PowerSum(gamma, rewards[t..end] + [if dones[end] then 0.0 else values[end]])
    {
      LambdaOneTelescopes(e, gamma, t);
    }
  }

  /** Without values the two factors have no effect. */
  lemma FactorsForced(rewards: seq<real>, gamma: real, smoothing: real, values: Option<seq<real>>,
                      dones: seq<bool>, t: nat)
    requires |dones| == |rewards| + 1 && (values.Some? ==> |values.value| == |rewards| + 1) && t <= |rewards|
    ensures values.None? ==>
              AdvantageAt(rewards, gamma, smoothing, values, dones, t)
              == AdvantageAt(rewards, 1.0, 1.0, values, dones, t)
  {
  }

  /** The critic-free return is the estimate for values that are all zero and both factors one. */
  lemma {:induction false} CriticFreeIsZeroValues(e: Trajectory, t: nat)
    requires e.Valid() && t <= |e.rewards| && forall i :: 0 <= i < |e.values| ==> e.values[i] == 0.0
    ensures GaeAt(e, 1.0, 1.0, t) == ReturnAt(e.rewards, e.dones, t)
    decreases |e.rewards| - t
  {
    if t < |e.rewards| { CriticFreeIsZeroValues(e, t + 1); }
  }

  // ----- the closed form --------------------------------------------------------------------------

  function Pow(x: real, n: nat): real {
    if n == 0 then 1.0 else Times(x, Pow(x, n - 1))
  }

  /** s[0] + x * s[1] + x^2 * s[2] + ... */
  function PowerSum(x: real, s: seq<real>): real {
    if s == [] then 0.0 else PowerSum(x, s[..|s| - 1]) + Times(Pow(x, |s| - 1), s[|s| - 1])
  }

  lemma PowerSumSnoc(x: real, front: seq<real>, last: real)
    ensures PowerSum(x, front + [last]) == PowerSum(x, front) + Times(Pow(x, |front|), last)
    ensures PowerSum(x, []) == 0.0 && Pow(x, 0) == 1.0 && Pow(x, |front| + 1) == Times(x, Pow(x, |front|))
  {
    assert (front + [last])[..|front|] == front;
  }

  /** The same sum taken from the front. */
  lemma {:induction false} PowerSumFront(x: real, first: real, rest: seq<real>)
    ensures PowerSum(x, [first] + rest) == first + Times(x, PowerSum(x, rest))
    decreases |rest|
  {
    hide Times, PowerSum, Pow;
    if rest == [] {
      assert [first] + rest == [] + [first];
      PowerSumSnoc(x, [], first);
      TimesUnits(first);
      TimesUnits(x);
    } else {
      var front, last := rest[..|rest| - 1], rest[|rest| - 1];
      assert rest == front + [last];
      assert [first] + rest == ([first] + front) + [last];
      PowerSumFront(x, first, front);
      PowerSumSnoc(x, [first] + front, last);
      PowerSumSnoc(x, front, last);
      TimesAssociates(x, Pow(x, |front|), last);
      TimesDistributes(x, PowerSum(x, front), Times(Pow(x, |front|), last));
    }
  }

  /** The step at or after `t` after which the episode is done, or the last step. */
  function LastStep(dones: seq<bool>, t: nat): (s: nat)
    requires t + 1 < |dones|
    ensures t <= s && s + 1 < |dones|
    ensures forall i :: t < i <= s ==> !dones[i]
    ensures dones[s + 1] || s + 2 == |dones|
    decreases |dones| - t
  {
    if dones[t + 1] || t + 2 == |dones| then t else LastStep(dones, t + 1)
  }

  /** Without a critic the return at `t` is the plain sum of the rewards up to the end of the episode. */
  lemma {:induction false} ReturnIsEpisodeSum(rewards: seq<real>, dones: seq<bool>, t: nat)
    requires |dones| == |rewards| + 1 && t < |rewards|
    ensures ReturnAt(rewards, dones, t) == Sum(rewards[t..LastStep(dones, t) + 1])
    decreases |rewards| - t
  {
    var part := rewards[t..LastStep(dones, t) + 1];
    if LastStep(dones, t) == t {
      assert part[1..] == [];
    } else {
      ReturnIsEpisodeSum(rewards, dones, t + 1);
      assert part[1..] == rewards[t + 1..LastStep(dones, t + 1) + 1];
    }
  }

  function Deltas(e: Trajectory, gamma: real, from: nat, to: nat): (r: seq<real>)
    requires e.Valid() && from <= to <= |e.rewards|
    ensures |r| == to - from && forall i :: 0 <= i < |r| ==> r[i] == Delta(e, gamma, from + i)
  {
    seq(to - from, i requires 0 <= i < to - from => Delta(e, gamma, from + i))
  }

  /** The advantage at `t`: the temporal differences to the end of the episode, discounted by gamma * smoothing. */
  lemma {:induction false} GaeClosedForm(e: Trajectory, gamma: real, smoothing: real, t: nat)
    requires e.Valid() && t < |e.rewards|
    ensures GaeAt(e, gamma, smoothing, t)
         == PowerSum(Times(gamma, smoothing), Deltas(e, gamma, t, LastStep(e.dones, t) + 1))
    decreases |e.rewards| - t
  {
    hide Delta, PowerSum, Times;
    var ds := Deltas(e, gamma, t, LastStep(e.dones, t) + 1);
    PowerSumFront(Times(gamma, smoothing), ds[0], ds[1..]);
    assert ds == [ds[0]] + ds[1..];
    if LastStep(e.dones, t) == t {
      assert ds[1..] == [];
      PowerSumSnoc(Times(gamma, smoothing), [], 0.0);
      assert Gate(e.dones[t + 1], GaeAt(e, gamma, smoothing, t + 1)) == 0.0;
    } else {
      GaeClosedForm(e, gamma, smoothing, t + 1);
      assert ds[1..] == Deltas(e, gamma, t + 1, LastStep(e.dones, t + 1) + 1);
    }
  }

  /** The value that is left at the end: none after a done, the bootstrap value otherwise. */
  function Bootstrap(e: Trajectory, t: nat): real
    requires e.Valid() && t < |e.rewards|
  {
    var s := LastStep(e.dones, t);
    Gate(e.dones[s + 1], e.values[s + 1])
  }

  /**
    With smoothing one the inner values cancel: the return at `t` is the discounted rewards to the end
    of the episode plus at most one discounted bootstrap value.
   */
  lemma {:induction false} LambdaOneTelescopes(e: Trajectory, gamma: real, t: nat)
    requires e.Valid() && t < |e.rewards|
    ensures GaeAt(e, gamma, 1.0, t) + e.values[t]
         == PowerSum(gamma, e.rewards[t..LastStep(e.dones, t) + 1] + [Bootstrap(e, t)])
    decreases |e.rewards| - t
  {
    hide PowerSum, Times;
    var s := LastStep(e.dones, t);
    var rest := e.rewards[t + 1..s + 1] + [Bootstrap(e, t)];
    assert e.rewards[t..s + 1] + [Bootstrap(e, t)] == [e.rewards[t]] + rest;
    PowerSumFront(gamma, e.rewards[t], rest);
    TimesUnits(gamma);
    if s == t {
      assert rest == [] + [Bootstrap(e, t)];
      OneTerm(gamma, Bootstrap(e, t));
    } else {
      LambdaOneTelescopes(e, gamma, t + 1);
      assert rest == e.rewards[t + 1..LastStep(e.dones, t + 1) + 1] + [Bootstrap(e, t + 1)];
      TimesDistributes(gamma, e.values[t + 1], GaeAt(e, gamma, 1.0, t + 1));
    }
  }

  lemma OneTerm(x: real, a: real)
    ensures PowerSum(x, [] + [a]) == a
  {
    PowerSumSnoc(x, [], a);
    TimesUnits(a);
  }

  /** Two trajectories that agree up to a step after which both are done. */
  ghost predicate AgreeUpTo(a: Trajectory, b: Trajectory, s: nat)
    requires a.Valid() && b.Valid()
  {
    && s < |a.rewards| && s < |b.rewards|
    && a.rewards[..s + 1] == b.rewards[..s + 1]
    && a.values[..s + 1] == b.values[..s + 1]
    && a.dones[1..s + 2] == b.dones[1..s + 2]
    && a.dones[s + 1]
  }

  /** Nothing after a done reaches an earlier step, not even the number of later steps. */
  lemma {:induction false} DoneCutsOff(a: Trajectory, b: Trajectory, gamma: real, smoothing: real, s: nat, t: nat)
    requires a.Valid() && b.Valid() && AgreeUpTo(a, b, s) && t <= s
    ensures GaeAt(a, gamma, smoothing, t) == GaeAt(b, gamma, smoothing, t)
    decreases s - t
  {
    hide Times;
    assert a.rewards[t] == a.rewards[..s + 1][t] && b.rewards[t] == b.rewards[..s + 1][t];
    assert a.values[t] == a.values[..s + 1][t] && b.values[t] == b.values[..s + 1][t];
    assert a.dones[t + 1] == a.dones[1..s + 2][t] && b.dones[t + 1] == b.dones[1..s + 2][t];
    if t < s {
      assert a.values[t + 1] == a.values[..s + 1][t + 1] && b.values[t + 1] == b.values[..s + 1][t + 1];
      DoneCutsOff(a, b, gamma, smoothing, s, t + 1);
    }
  }

  // ----- scores and the reasoning layout ------------------------------------------------------------

  /** The score of one column, before the scores are grouped. */
  method CalculateScore(rewards: seq<real>, dones: seq<bool>) returns (score: real)
    requires |dones| == |rewards| + 1
    ensures score == ReturnAt(rewards, dones, 0)
  {
    score := 0.0;
    var step := |rewards|;
    while step > 0
      invariant 0 <= step <= |rewards|
      invariant score == ReturnAt(rewards, dones, step)
    {
      step := step - 1;
      score := Gate(dones[step + 1], score);
      score := score + rewards[step];
    }
  }

  /** The score and the backward loop without a critic agree at step 0, on every reward and done pattern. */
  method ScoreIsFirstReturn(rewards: seq<real>, dones: seq<bool>, gamma: real, smoothing: real)
    returns (score: real, first: real)
    requires |dones| == |rewards| + 1 && rewards != []
    ensures score == first == ReturnAt(rewards, dones, 0)
  {
    score := CalculateScore(rewards, dones);
    var advantages, discountedReturns := GaeAdvantagesAndReturns(rewards, gamma, smoothing, None, dones);
    first := discountedReturns[0];
  }

  /** One reward on the last of T tokens. */
  function ReasoningRewards(reward: real, T: nat): (r: seq<real>)
    requires T > 0
    ensures |r| == T
  {
    seq(T - 1, i => 0.0) + [reward]
  }

  /** Done after the last token only. */
  function ReasoningDones(T: nat): (r: seq<bool>)
    ensures |r| == T + 1
  {
    seq(T, i => false) + [true]
  }

  /** The critic's values with a zero appended for the bootstrap. */
  function PaddedValues(values: seq<real>): seq<real> {
    values + [0.0]
  }

  /** Without a critic every token of a reasoning sample gets the reward of the sample. */
  lemma {:induction false} EveryTokenGetsTheReward(reward: real, T: nat, t: nat)
    requires t < T
    ensures ReturnAt(ReasoningRewards(reward, T), ReasoningDones(T), t) == reward
    decreases T - t
  {
    if t < T - 1 {
      EveryTokenGetsTheReward(reward, T, t + 1);
    } else {
      assert ReturnAt(ReasoningRewards(reward, T), ReasoningDones(T), T) == 0.0;
    }
  }

  lemma {:induction false} ReasoningEnds(T: nat, t: nat)
    requires t < T
    ensures LastStep(ReasoningDones(T), t) == T - 1
    decreases T - t
  {
    if t < T - 1 { ReasoningEnds(T, t + 1); }
  }

  lemma {:induction false} PowerSumOfOne(x: real, k: nat, reward: real)
    ensures PowerSum(x, seq(k, i => 0.0) + [reward, 0.0]) == Times(Pow(x, k), reward)
  {
    hide Times;
    var zeros := seq(k, i => 0.0);
    assert zeros + [reward, 0.0] == zeros + [reward] + [0.0];
    PowerSumSnoc(x, zeros, reward);
    PowerSumSnoc(x, zeros + [reward], 0.0);
    TimesUnits(Pow(x, k + 1));
    ZeroSum(x, k);
  }

  lemma {:induction false} ZeroSum(x: real, k: nat)
    ensures PowerSum(x, seq(k, i => 0.0)) == 0.0
  {
    if k > 0 {
      assert seq(k, i => 0.0)[..k - 1] == seq(k - 1, i => 0.0);
      ZeroSum(x, k - 1);
      TimesUnits(Pow(x, k - 1));
    }
  }

  /** With a critic and smoothing one, the values cancel and only the discounted reward is left. */
  lemma ReasoningReturn(reward: real, values: seq<real>, gamma: real, t: nat)
    requires t < |values|
    ensures var T := |values|;
            var e := Trajectory(ReasoningRewards(reward, T), ReasoningDones(T), PaddedValues(values));
            e.Valid() && GaeAt(e, gamma, 1.0, t) + values[t] == Times(Pow(gamma, T - 1 - t), reward)
  {
    var T := |values|;
    var e := Trajectory(ReasoningRewards(reward, T), ReasoningDones(T), PaddedValues(values));
    ReasoningEnds(T, t);
    LambdaOneTelescopes(e, gamma, t);
    ReasoningTail(reward, values, t);
    PowerSumOfOne(gamma, T - 1 - t, reward);
    assert e.values[t] == values[t];
    hide *;
  }

  /** From `t` on there are zeros, the reward, and no bootstrap value. */
  lemma ReasoningTail(reward: real, values: seq<real>, t: nat)
    requires t < |values|
    ensures var T := |values|;
            var e := Trajectory(ReasoningRewards(reward, T), ReasoningDones(T), PaddedValues(values));
            LastStep(e.dones, t) == T - 1
            && e.rewards[t..T] + [Bootstrap(e, t)] == seq(T - 1 - t, i => 0.0) + [reward, 0.0]
  {
    ReasoningEnds(|values|, t);
    hide LastStep;
  }
}
