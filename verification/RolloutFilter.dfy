/**
  Down-sampling as the code runs it: masks filled in place group by group, and one final mask
  applied to every parallel field of the rollout result.
 */
module RolloutFilter {
  import opened Results
  import opened Sequences
  import opened DownSampling
  import GroupChoice

  datatype Failure = NoResponseTexts | NoRewards | PenaltyNotAList

  /** The parallel lists of a rollout, one entry per sample; some may be missing. */
  class RolloutResult {
    var numSequence: nat
    var groupSize: int
    var promptLengths: seq<nat>
    var promptIds: seq<seq<int>>
    var responseLengths: seq<nat>
    var responseIds: seq<seq<int>>
    var isEnd: seq<bool>
    var rewards: Option<seq<real>>
    var promptTexts: Option<seq<string>>
    var responseTexts: Option<seq<string>>
    var answers: Option<seq<string>>
    var responseMask: Option<seq<seq<int>>>
    var rolloutLogprobs: Option<seq<seq<real>>>
    var refLogprobs: Option<seq<seq<real>>>
    var recomputedLogprobs: Option<seq<seq<real>>>

    ghost function Fields(): Lists
      reads this
    {
      Lists(Required(promptLengths, promptIds, responseLengths, responseIds, isEnd),
            Optional(rewards, promptTexts, responseTexts, answers, responseMask),
            Logprobs(rolloutLogprobs, refLogprobs, recomputedLogprobs))
    }
  }

  /** The value of all the parallel lists at one moment. */
  datatype Lists = Lists(required: Required, optional: Optional, logprobs: Logprobs)

  datatype Required = Required(
    promptLengths: seq<nat>, promptIds: seq<seq<int>>, responseLengths: seq<nat>,
    responseIds: seq<seq<int>>, isEnd: seq<bool>)

  datatype Optional = Optional(
    rewards: Option<seq<real>>, promptTexts: Option<seq<string>>, responseTexts: Option<seq<string>>,
    answers: Option<seq<string>>, responseMask: Option<seq<seq<int>>>)

  datatype Logprobs = Logprobs(
    rollout: Option<seq<seq<real>>>, ref: Option<seq<seq<real>>>, recomputed: Option<seq<seq<real>>>)

  predicate RequiredAligned(f: Required, n: nat) {
    |f.promptLengths| == |f.promptIds| == |f.responseLengths| == |f.responseIds| == |f.isEnd| == n
  }

  predicate OptionalAligned(f: Optional, n: nat) {
    && OfSize(f.rewards, n) && OfSize(f.promptTexts, n) && OfSize(f.responseTexts, n) && OfSize(f.answers, n)
    && OfSize(f.responseMask, n)
  }

  predicate LogprobsAligned(f: Logprobs, n: nat) {
    OfSize(f.rollout, n) && OfSize(f.ref, n) && OfSize(f.recomputed, n)
  }

  /** Every list that is there has one entry per sample. */
  predicate Aligned(f: Lists, n: nat) {
    RequiredAligned(f.required, n) && OptionalAligned(f.optional, n) && LogprobsAligned(f.logprobs, n)
  }

  function GatherRequired(f: Required, n: nat, idx: seq<nat>): (g: Required)
    requires RequiredAligned(f, n) && InRange(idx, n)
    ensures RequiredAligned(g, |idx|)
    ensures g.promptLengths == Gather(f.promptLengths, idx) && g.promptIds == Gather(f.promptIds, idx)
    ensures g.responseLengths == Gather(f.responseLengths, idx) && g.responseIds == Gather(f.responseIds, idx)
    ensures g.isEnd == Gather(f.isEnd, idx)
  {
    Required(Gather(f.promptLengths, idx), Gather(f.promptIds, idx), Gather(f.responseLengths, idx),
             Gather(f.responseIds, idx), Gather(f.isEnd, idx))
  }

  function GatherOptional(f: Optional, n: nat, idx: seq<nat>): (g: Optional)
    requires OptionalAligned(f, n) && InRange(idx, n)
    ensures OptionalAligned(g, |idx|)
    ensures g.rewards == GatherOption(f.rewards, idx) && g.answers == GatherOption(f.answers, idx)
    ensures g.promptTexts == GatherOption(f.promptTexts, idx)
    ensures g.responseTexts == GatherOption(f.responseTexts, idx)
    ensures g.responseMask == GatherOption(f.responseMask, idx)
  {
    Optional(GatherOption(f.rewards, idx), GatherOption(f.promptTexts, idx), GatherOption(f.responseTexts, idx),
             GatherOption(f.answers, idx), GatherOption(f.responseMask, idx))
  }

  function GatherLogprobs(f: Logprobs, n: nat, idx: seq<nat>): (g: Logprobs)
    requires LogprobsAligned(f, n) && InRange(idx, n)
    ensures LogprobsAligned(g, |idx|)
    ensures g.rollout == GatherOption(f.rollout, idx) && g.ref == GatherOption(f.ref, idx)
    ensures g.recomputed == GatherOption(f.recomputed, idx)
  {
    Logprobs(GatherOption(f.rollout, idx), GatherOption(f.ref, idx), GatherOption(f.recomputed, idx))
  }

  /** Every list gathered by the same indices, so that the lists stay aligned. */
  function GatherLists(f: Lists, n: nat, idx: seq<nat>): (g: Lists)
    requires Aligned(f, n) && InRange(idx, n)
    ensures Aligned(g, |idx|)
  {
    Lists(GatherRequired(f.required, n, idx), GatherOptional(f.optional, n, idx), GatherLogprobs(f.logprobs, n, idx))
  }

  predicate OfSize<T>(field: Option<seq<T>>, n: nat) {
    field.Some? ==> |field.value| == n
  }

  function GatherOption<T>(field: Option<seq<T>>, idx: seq<nat>): Option<seq<T>>
    requires field.Some? ==> InRange(idx, |field.value|)
  {
    if field.None? then None else Some(Gather(field.value, idx))
  }

  method SetAll(mask: array<bool>, idxs: seq<nat>, value: bool)
    requires InRange(idxs, mask.Length)
    modifies mask
    ensures forall i: nat :: i < mask.Length ==> mask[i] == if i in idxs then value else old(mask[i])
  {
    for k := 0 to |idxs|
      invariant forall i: nat :: i < mask.Length ==> mask[i] == if i in idxs[..k] then value else old(mask[i])
    {
      assert idxs[..k + 1] == idxs[..k] + [idxs[k]];
      mask[idxs[k]] := value;
    }
    assert idxs[..|idxs|] == idxs;
  }

  /** Clears the groups whose rewards are all close to the first one. */
  method RejectEqualReward(b: Batch) returns (mask: array<bool>)
    requires b.Valid()
    ensures fresh(mask) && mask.Length == b.total
    ensures forall i: nat :: i < b.total ==> mask[i] == !EqualRewards(b.rewards, b.GroupAt(Uid(i, b.c)))
  {
    hide Uid, EqualRewards, Batch.GroupAt, GroupCount;
    mask := new bool[b.total](i => true);
    for u := 0 to GroupCount(b.total, b.c)
      invariant forall i: nat :: i < b.total ==>
                  mask[i] == !(Uid(i, b.c) < u && EqualRewards(b.rewards, b.GroupAt(Uid(i, b.c))))
    {
      GroupAtMembers(b, u);
      if EqualRewards(b.rewards, b.GroupAt(u)) {
        SetAll(mask, b.GroupAt(u), false);
      }
    }
    AllUidsBelow(b);
  }

  lemma GroupAtMembers(b: Batch, u: nat)
    requires b.Valid()
    ensures forall i: nat :: i in b.GroupAt(u) <==> i < b.total && Uid(i, b.c) == u
  {
    GroupMembers(b.total, b.c, u);
  }

  lemma AllUidsBelow(b: Batch)
    requires b.Valid()
    ensures forall i: nat :: i < b.total ==> Uid(i, b.c) < GroupCount(b.total, b.c)
  {
    GroupsCover(b.total, b.c);
    forall i: nat | i < b.total ensures Uid(i, b.c) < GroupCount(b.total, b.c) {
      UidBounds(b.total, b.c, i, GroupCount(b.total, b.c));
    }
  }

  predicate HasPenalty(cfg: Config) {
    cfg.errorRatio || cfg.answerFormat
  }

  /** Adding up the scores that are switched on. */
  function Penalties(cfg: Config, errors: seq<real>, format: seq<real>): (p: seq<real>)
    requires |errors| == |format|
    ensures |p| == |errors|
    ensures cfg.errorRatio && cfg.answerFormat ==> forall i :: 0 <= i < |p| ==> p[i] == errors[i] + format[i]
    ensures cfg.errorRatio && !cfg.answerFormat ==> p == errors
    ensures !cfg.errorRatio && cfg.answerFormat ==> p == format
    ensures !cfg.errorRatio && !cfg.answerFormat ==> forall i :: 0 <= i < |p| ==> p[i] == 0.0
  {
    seq(|errors|, i requires 0 <= i < |errors| =>
      (if cfg.errorRatio then errors[i] else 0.0) + (if cfg.answerFormat then format[i] else 0.0))
  }

  /** Some group is larger than the target, so that its penalties are looked at. */
  ghost predicate NeedsPenalty(cfg: Config, b: Batch)
    requires b.Valid()
  {
    exists u: nat :: u < GroupCount(b.total, b.c) && |b.GroupAt(u)| > cfg.target
  }

  /** Marks the samples that the quotas choose; without a penalty a large group cannot be handled. */
  method WeightedGroupChoice(cfg: Config, b: Batch) returns (r: Result<array<bool>, Failure>)
    requires b.Valid() && cfg.target > 0
    ensures r.Err? <==> !HasPenalty(cfg) && NeedsPenalty(cfg, b)
    ensures r.Err? ==> r.error == PenaltyNotAList
    ensures r.Ok? ==> fresh(r.value) && r.value.Length == b.total
    ensures r.Ok? ==> forall i: nat :: i < b.total ==> r.value[i] == Chosen(cfg, b, i)
  {
    hide Uid, Choice, Batch.GroupAt, GroupCount;
    var mask := new bool[b.total](i => false);
    for u := 0 to GroupCount(b.total, b.c)
      invariant forall i: nat :: i < b.total ==>
                  mask[i] == (Uid(i, b.c) < u && i in Choice(cfg, b.rewards, b.penalty, b.GroupAt(Uid(i, b.c))))
      invariant forall v: nat :: v < u ==> HasPenalty(cfg) || |b.GroupAt(v)| <= cfg.target
    {
      var idxs := b.GroupAt(u);
      GroupAtMembers(b, u);
      if |idxs| > cfg.target && !HasPenalty(cfg) {
        return Err(PenaltyNotAList);
      }
      var chosen := Choice(cfg, b.rewards, b.penalty, idxs);
      GroupIsDistinct(b, u);
      ChoiceSize(cfg, b.rewards, b.penalty, idxs);
      forall k | 0 <= k < |chosen| ensures chosen[k] < b.total { assert chosen[k] in chosen; }
      SetAll(mask, chosen, true);
    }
    AllUidsBelow(b);
    return Ok(mask);
  }

  lemma GroupIsDistinct(b: Batch, u: nat)
    requires b.Valid()
    ensures Distinct(b.GroupAt(u))
  {
    GroupMembers(b.total, b.c, u);
  }

  lemma SelectedStep<T>(s: seq<T>, mask: seq<bool>, i: nat)
    requires i < |mask| == |s|
    ensures InRange(Selected(mask, 0, i), |s|) && InRange(Selected(mask, 0, i + 1), |s|)
    ensures Gather(s, Selected(mask, 0, i + 1)) == Gather(s, Selected(mask, 0, i)) + if mask[i] then [s[i]] else []
  {
    SelectedMembers(mask, 0, i);
    if mask[i] {
      GatherConcat(s, Selected(mask, 0, i), [i]);
      assert Gather(s, [i]) == [s[i]];
    }
  }

  lemma SelectedInRange(mask: seq<bool>, n: nat)
    requires n <= |mask|
    ensures InRange(Selected(mask, 0, n), n)
  {
    SelectedMembers(mask, 0, n);
  }

  /** The list comprehension that applies the mask. */
  method ApplyMask<T>(s: seq<T>, mask: array<bool>) returns (r: seq<T>)
    requires |s| == mask.Length
    ensures InRange(Selected(mask[..], 0, |s|), |s|) && r == Gather(s, Selected(mask[..], 0, |s|))
  {
    r := [];
    SelectedInRange(mask[..], 0);
    for i := 0 to |s|
      invariant InRange(Selected(mask[..], 0, i), |s|) && r == Gather(s, Selected(mask[..], 0, i))
    {
      hide *;
      SelectedStep(s, mask[..], i);
      if mask[i] {
        r := r + [s[i]];
      }
    }
  }

  method ApplyMaskOption<T>(field: Option<seq<T>>, mask: array<bool>) returns (r: Option<seq<T>>)
    requires OfSize(field, mask.Length)
    ensures InRange(Selected(mask[..], 0, mask.Length), mask.Length)
    ensures r == GatherOption(field, Selected(mask[..], 0, mask.Length))
  {
    SelectedInRange(mask[..], mask.Length);
    if field.None? {
      return None;
    }
    var s := ApplyMask(field.value, mask);
    return Some(s);
  }

  /** What the masks are computed from; a missing reward list switches the rejection off. */
  function BatchOf(n: nat, groupSize: int, rewards: Option<seq<real>>, penalty: seq<real>): (b: Batch)
    requires OfSize(rewards, n) && |penalty| == n
    ensures b.Valid() && b.total == n
  {
    Batch(n, ChunkSize(groupSize), if rewards.Some? then rewards.value else seq(n, i => 0.0), penalty)
  }

  function Effective(cfg: Config, rewards: Option<seq<real>>): Config {
    cfg.(rejectEqual := cfg.rejectEqual && rewards.Some?)
  }

  method FirstMask(cfg: Config, b: Batch, hasRewards: bool) returns (mask: array<bool>)
    requires b.Valid()
    ensures fresh(mask) && mask.Length == b.total
    ensures forall i: nat :: i < b.total ==>
              mask[i] == !Rejected(cfg.(rejectEqual := cfg.rejectEqual && hasRewards), b, Uid(i, b.c))
  {
    if cfg.rejectEqual && hasRewards {
      mask := RejectEqualReward(b);
    } else {
      mask := new bool[b.total](i => true);
    }
  }

  method SecondMask(cfg: Config, b: Batch, hasRewards: bool, hasTexts: bool) returns (r: Result<array<bool>, Failure>)
    requires b.Valid()
    ensures r.Err? <==> cfg.target > 0 && !(hasTexts && hasRewards && (HasPenalty(cfg) || !NeedsPenalty(cfg, b)))
    ensures r.Ok? ==> fresh(r.value) && r.value.Length == b.total
    ensures r.Ok? ==> forall i: nat :: i < b.total ==> r.value[i] == Chosen(cfg, b, i)
  {
    if cfg.target <= 0 {
      var mask := new bool[b.total](i => true);
      return Ok(mask);
    }
    if !hasTexts {
      return Err(NoResponseTexts);
    }
    if !hasRewards {
      return Err(NoRewards);
    }
    r := WeightedGroupChoice(cfg, b);
  }

  method Conjoin(a: array<bool>, b: array<bool>) returns (mask: array<bool>)
    requires a.Length == b.Length
    ensures fresh(mask) && mask.Length == a.Length
    ensures forall i :: 0 <= i < a.Length ==> mask[i] == (a[i] && b[i])
  {
    mask := new bool[a.Length];
    for i := 0 to a.Length
      invariant forall j :: 0 <= j < i ==> mask[j] == (a[j] && b[j])
    {
      mask[i] := a[i] && b[i];
    }
  }

  /** The final mask, or the reason why there is none. */
  method Masks(cfg: Config, b: Batch, hasRewards: bool, hasTexts: bool) returns (r: Result<array<bool>, Failure>)
    requires b.Valid()
    ensures r.Err? <==> cfg.target > 0 && !(hasTexts && hasRewards && (HasPenalty(cfg) || !NeedsPenalty(cfg, b)))
    ensures r.Ok? ==> fresh(r.value) && r.value.Length == b.total
    ensures r.Ok? ==> r.value[..] == FinalMask(cfg.(rejectEqual := cfg.rejectEqual && hasRewards), b)
  {
    hide Uid, Rejected, Choice, Batch.GroupAt;
    var first := FirstMask(cfg, b, hasRewards);
    var second := SecondMask(cfg, b, hasRewards, hasTexts);
    if second.Err? {
      return Err(second.error);
    }
    var mask := Conjoin(first, second.value);
    assert mask[..] == FinalMask(cfg.(rejectEqual := cfg.rejectEqual && hasRewards), b);
    return Ok(mask);
  }

  method MaskRequired(rr: RolloutResult, n: nat, mask: array<bool>)
    requires Aligned(rr.Fields(), n) && mask.Length == n
    modifies rr`promptLengths, rr`promptIds, rr`responseLengths, rr`responseIds, rr`isEnd
    ensures InRange(Selected(mask[..], 0, n), n)
    ensures var idx := Selected(mask[..], 0, n);
            rr.Fields() == old(rr.Fields()).(required := GatherRequired(old(rr.Fields()).required, n, idx))
  {
    hide Selected, Gather;
    rr.promptLengths := ApplyMask(rr.promptLengths, mask);
    rr.promptIds := ApplyMask(rr.promptIds, mask);
    rr.responseLengths := ApplyMask(rr.responseLengths, mask);
    rr.responseIds := ApplyMask(rr.responseIds, mask);
    rr.isEnd := ApplyMask(rr.isEnd, mask);
  }

  method MaskOptional(rr: RolloutResult, n: nat, mask: array<bool>)
    requires OptionalAligned(rr.Fields().optional, n) && mask.Length == n
    modifies rr`rewards, rr`promptTexts, rr`responseTexts, rr`answers, rr`responseMask
    ensures InRange(Selected(mask[..], 0, n), n)
    ensures var idx := Selected(mask[..], 0, n);
            rr.Fields() == old(rr.Fields()).(optional := GatherOptional(old(rr.Fields()).optional, n, idx))
  {
    hide Selected, Gather, GatherOption;
    rr.rewards := ApplyMaskOption(rr.rewards, mask);
    rr.promptTexts := ApplyMaskOption(rr.promptTexts, mask);
    rr.responseTexts := ApplyMaskOption(rr.responseTexts, mask);
    rr.answers := ApplyMaskOption(rr.answers, mask);
    rr.responseMask := ApplyMaskOption(rr.responseMask, mask);
  }

  method MaskLogprobs(rr: RolloutResult, n: nat, mask: array<bool>)
    requires LogprobsAligned(rr.Fields().logprobs, n) && mask.Length == n
    modifies rr`rolloutLogprobs, rr`refLogprobs, rr`recomputedLogprobs
    ensures InRange(Selected(mask[..], 0, n), n)
    ensures var idx := Selected(mask[..], 0, n);
            rr.Fields() == old(rr.Fields()).(logprobs := GatherLogprobs(old(rr.Fields()).logprobs, n, idx))
  {
    hide Selected, Gather, GatherOption;
    rr.rolloutLogprobs := ApplyMaskOption(rr.rolloutLogprobs, mask);
    rr.refLogprobs := ApplyMaskOption(rr.refLogprobs, mask);
    rr.recomputedLogprobs := ApplyMaskOption(rr.recomputedLogprobs, mask);
  }

  /**
    Down-sampling needs texts and rewards, and a penalty as soon as a group is larger than the
    target; the first group is the largest.
   */
  ghost predicate CannotDownSample(cfg: Config, n: nat, groupSize: int, hasTexts: bool, hasRewards: bool) {
    && cfg.target > 0
    && (!hasTexts || !hasRewards
        || (!cfg.errorRatio && !cfg.answerFormat
            && n > cfg.target && groupSize > cfg.target))
  }

  lemma LargestGroup(cfg: Config, n: nat, groupSize: int, rewards: Option<seq<real>>, penalty: seq<real>)
    requires OfSize(rewards, n) && |penalty| == n && cfg.target > 0
    ensures NeedsPenalty(cfg, BatchOf(n, groupSize, rewards, penalty)) <==> n > cfg.target && groupSize > cfg.target
  {
    var b := BatchOf(n, groupSize, rewards, penalty);
    hide BatchOf, ChunkSize;
    var c := b.c;
    assert c > cfg.target <==> groupSize > cfg.target by { ChunkIs(n, groupSize, rewards, penalty); }
    forall u: nat ensures |b.GroupAt(u)| <= c && |b.GroupAt(u)| <= n {
      GroupMembers(n, c, u);
      BoundGrows(n, c, u);
    }
    GroupMembers(n, c, 0);
    BoundGrows(n, c, 0);
    if n > 0 { FirstGroupExists(n, c); }
    assert |b.GroupAt(0)| == Bound(n, c, 1);
  }

  lemma HasPenaltyIs(cfg: Config)
    ensures HasPenalty(cfg) <==> cfg.errorRatio || cfg.answerFormat
  {
  }

  lemma ChunkIs(n: nat, groupSize: int, rewards: Option<seq<real>>, penalty: seq<real>)
    requires OfSize(rewards, n) && |penalty| == n
    ensures BatchOf(n, groupSize, rewards, penalty).c == if groupSize > 1 then groupSize else 1
  {
  }

  lemma FirstGroupExists(n: nat, c: nat)
    requires n > 0 && c > 0
    ensures GroupCount(n, c) > 0
  {
    GroupsCover(n, c);
    BoundGrows(n, c, 0);
  }

  // ----- what is kept, from the inputs alone -----------------------------------------------------

  /** The two rewards are equal up to the absolute and the relative tolerance of the comparison. */
  ghost predicate NearlyEqual(a: real, b: real) {
    var tolerance := 0.00000001 + 0.00001 * (if b < 0.0 then -b else b);
    -tolerance <= a - b <= tolerance
  }

  /** The samples of the chunk of c that sample i lies in, in order. */
  ghost predicate IsGroupOf(n: nat, c: nat, i: nat, idxs: seq<nat>)
    requires c > 0
  {
    GroupChoice.Increasing(idxs) && forall j: nat :: j in idxs <==> j < n && j / c == i / c
  }

  /** Of the chunk of c that sample i lies in, some reward differs from the first one. */
  ghost predicate RewardsDiffer(rewards: seq<real>, c: nat, i: nat)
    requires c > 0
  {
    exists f: nat, j: nat :: f < |rewards| && j < |rewards| && f == i / c * c && j / c == i / c
      && !NearlyEqual(rewards[f], rewards[j])
  }

  /** `pick` is the choice inside the chunk of c that sample i lies in. */
  ghost predicate IsPick(cfg: Config, c: nat, rewards: seq<real>, penalty: seq<real>, i: nat, pick: seq<nat>)
    requires c > 0
  {
    exists idxs :: IsGroupOf(|penalty|, c, i, idxs) && GroupChoice.IsChoice(cfg, rewards, penalty, idxs, pick)
  }

  /**
    idx lists the surviving samples in order. A sample survives if, where that is asked for, the rewards
    of its chunk differ, and with a target if it is among the picks of its chunk.
   */
  ghost predicate ListsSurvivors(cfg: Config, c: nat, rewards: Option<seq<real>>, penalty: seq<real>,
                                 idx: seq<nat>, picks: seq<seq<nat>>)
    requires c > 0 && OfSize(rewards, |penalty|) && (cfg.target > 0 ==> rewards.Some?)
  {
    && GroupChoice.Increasing(idx) && |picks| == |penalty|
    && (cfg.target > 0 ==>
          forall i: nat :: i < |penalty| ==> IsPick(cfg, c, rewards.value, penalty, i, picks[i]))
    && (forall i: nat :: i in idx <==>
          && i < |penalty|
          && (cfg.rejectEqual && rewards.Some? ==> RewardsDiffer(rewards.value, c, i))
          && (cfg.target > 0 ==> i in picks[i]))
  }

  /** Every list of `after` is the one of `before` at the surviving samples. */
  ghost predicate KeepsSurvivors(cfg: Config, groupSize: int, penalty: seq<real>, before: Lists, after: Lists) {
    var c, rewards, n := if groupSize > 1 then groupSize else 1, before.optional.rewards, |penalty|;
    && Aligned(before, n) && (cfg.target > 0 ==> rewards.Some?)
    && exists idx: seq<nat>, picks: seq<seq<nat>> ::
         && InRange(idx, n) && ListsSurvivors(cfg, c, rewards, penalty, idx, picks)
         && after == GatherLists(before, n, idx)
  }

  lemma FirstOfGroup(b: Batch, i: nat)
    requires b.Valid() && i < b.total
    ensures Uid(i, b.c) == i / b.c && i / b.c * b.c <= i
    ensures b.GroupAt(i / b.c) != [] && b.GroupAt(i / b.c)[0] == i / b.c * b.c
    ensures IsGroupOf(b.total, b.c, i, b.GroupAt(i / b.c))
  {
    GroupMembers(b.total, b.c, i / b.c);
    UidBounds(b.total, b.c, i, i / b.c);
  }

  /** The rejection test on the rewards themselves. */
  lemma RejectedIff(cfg: Config, b: Batch, i: nat)
    requires b.Valid() && i < b.total
    ensures Rejected(cfg, b, Uid(i, b.c)) <==> cfg.rejectEqual && !RewardsDiffer(b.rewards, b.c, i)
  {
    FirstOfGroup(b, i);
    var g, f := b.GroupAt(i / b.c), i / b.c * b.c;
    hide Batch.GroupAt, Uid;
    forall j: nat | j < b.total
      ensures Close(b.rewards[f], b.rewards[j]) <==> NearlyEqual(b.rewards[f], b.rewards[j])
    {
    }
    hide Close, NearlyEqual;
    RewardsCompared(b.rewards, b.c, i, g, f);
  }

  lemma RewardsCompared(rewards: seq<real>, c: nat, i: nat, g: seq<nat>, f: nat)
    requires c > 0 && i < |rewards| && IsGroupOf(|rewards|, c, i, g) && f == i / c * c <= i && g != [] && g[0] == f
    requires InRange(g, |rewards|)
    requires forall j: nat :: j < |rewards| ==> (Close(rewards[f], rewards[j]) <==> NearlyEqual(rewards[f], rewards[j]))
    ensures EqualRewards(rewards, g) <==> !RewardsDiffer(rewards, c, i)
  {
    hide Close, NearlyEqual;
    if !EqualRewards(rewards, g) {
      var k :| 0 <= k < |g| && !Close(rewards[g[0]], rewards[g[k]]);
      assert g[k] in g;
      assert !NearlyEqual(rewards[f], rewards[g[k]]);
    }
    if j: nat :| j < |rewards| && j / c == i / c && !NearlyEqual(rewards[f], rewards[j]) {
      assert j in g;
      var k :| 0 <= k < |g| && g[k] == j;
      assert !Close(rewards[g[0]], rewards[g[k]]);
    }
  }

  /** The rejection switch plays no part in the choice inside a group. */
  lemma SameChoice(cfg: Config, reject: bool, rewards: seq<real>, penalty: seq<real>, idxs: seq<nat>)
    requires InRange(idxs, |rewards|) && cfg.target > 0
    ensures Choice(cfg.(rejectEqual := reject), rewards, penalty, idxs) == Choice(cfg, rewards, penalty, idxs)
  {
    hide Sort, Prefix, WithReward, RoundShare;
  }

  function PickOf(cfg: Config, b: Batch, i: nat): seq<nat>
    requires b.Valid() && i < b.total && cfg.target > 0
  {
    Choice(cfg, b.rewards, b.penalty, b.GroupAt(i / b.c))
  }

  lemma PickIsPick(cfg: Config, b: Batch, i: nat)
    requires b.Valid() && i < b.total && cfg.target > 0
    ensures IsPick(cfg, b.c, b.rewards, b.penalty, i, PickOf(cfg, b, i))
  {
    FirstOfGroup(b, i);
    hide Batch.GroupAt, Choice, GroupChoice.IsChoice;
    GroupChoice.ChoiceTheorem(cfg, b.rewards, b.penalty, b.GroupAt(i / b.c));
  }

  lemma KeepMeans(cfg: Config, rewards: Option<seq<real>>, b: Batch, i: nat)
    requires b.Valid() && i < b.total && (cfg.target > 0 ==> rewards.Some?)
    requires rewards.Some? ==> b.rewards == rewards.value
    ensures Keep(Effective(cfg, rewards), b, i)
        <==> && (cfg.rejectEqual && rewards.Some? ==> RewardsDiffer(b.rewards, b.c, i))
             && (cfg.target > 0 ==> i in PickOf(cfg, b, i))
  {
    RejectedIff(Effective(cfg, rewards), b, i);
    FirstOfGroup(b, i);
    if cfg.target > 0 {
      SameChoice(cfg, Effective(cfg, rewards).rejectEqual, b.rewards, b.penalty, b.GroupAt(i / b.c));
    }
    hide Batch.GroupAt, Choice, Rejected, RewardsDiffer, Uid;
  }

  /** What the two masks let through. */
  lemma KeptListsSurvivors(cfg: Config, n: nat, groupSize: int, rewards: Option<seq<real>>, penalty: seq<real>)
    returns (picks: seq<seq<nat>>)
    requires OfSize(rewards, n) && |penalty| == n && (cfg.target > 0 ==> rewards.Some?)
    ensures var c := if groupSize > 1 then groupSize else 1;
            ListsSurvivors(cfg, c, rewards, penalty,
                           Kept(Effective(cfg, rewards), BatchOf(n, groupSize, rewards, penalty)), picks)
  {
    var b := BatchOf(n, groupSize, rewards, penalty);
    var cfg' := Effective(cfg, rewards);
    picks := seq(n, i requires 0 <= i < n => if cfg.target > 0 then PickOf(cfg, b, i) else []);
    SelectedMembers(FinalMask(cfg', b), 0, n);
    assert b.penalty == penalty && b.total == n && (rewards.Some? ==> b.rewards == rewards.value);
    hide Effective, Keep, PickOf, RewardsDiffer, IsPick, Selected;
    forall i: nat | i < n
      ensures cfg.target > 0 ==> IsPick(cfg, b.c, b.rewards, penalty, i, picks[i])
      ensures Keep(cfg', b, i)
          <==> && (cfg.rejectEqual && rewards.Some? ==> RewardsDiffer(b.rewards, b.c, i))
               && (cfg.target > 0 ==> i in picks[i])
    {
      KeepMeans(cfg, rewards, b, i);
      if cfg.target > 0 { PickIsPick(cfg, b, i); }
    }
  }

  /**
    Down-samples in place. Every list is gathered by the same indices, so the fields stay
    aligned; the sample count field is left as it was.
   */
  method DownSampleBatch(rr: RolloutResult, cfg: Config, errors: seq<real>, format: seq<real>)
    returns (r: Result<(), Failure>)
    requires Aligned(rr.Fields(), rr.numSequence) && |errors| == |format| == rr.numSequence
    modifies rr
    ensures rr.numSequence == old(rr.numSequence)
    ensures r.Err? ==> rr.Fields() == old(rr.Fields()) && rr.groupSize == old(rr.groupSize)
    ensures var b := BatchOf(old(rr.numSequence), old(rr.groupSize), old(rr.rewards), Penalties(cfg, errors, format));
            r.Err? <==> cfg.target > 0 && !(old(rr.responseTexts).Some? && old(rr.rewards).Some?
                                            && (HasPenalty(cfg) || !NeedsPenalty(cfg, b)))
    ensures var b := BatchOf(old(rr.numSequence), old(rr.groupSize), old(rr.rewards), Penalties(cfg, errors, format));
            var idx := Kept(Effective(cfg, old(rr.rewards)), b);
            r.Ok? ==> InRange(idx, rr.numSequence) && rr.Fields() == GatherLists(old(rr.Fields()), rr.numSequence, idx)
    ensures r.Ok? ==> rr.groupSize == if cfg.target > 0 then cfg.target else old(rr.groupSize)
    ensures r.Err? <==> CannotDownSample(cfg, old(rr.numSequence), old(rr.groupSize),
                                         old(rr.responseTexts).Some?, old(rr.rewards).Some?)
    ensures r.Ok? ==> KeepsSurvivors(cfg, old(rr.groupSize), Penalties(cfg, errors, format),
                                     old(rr.Fields()), rr.Fields())
  {
    hide FinalMask, Penalties, HasPenalty, NeedsPenalty, Selected, Gather, ListsSurvivors;
    hide GatherRequired, GatherOptional, GatherLogprobs;
    var b := BatchOf(rr.numSequence, rr.groupSize, rr.rewards, Penalties(cfg, errors, format));
    if cfg.target > 0 {
      LargestGroup(cfg, rr.numSequence, rr.groupSize, rr.rewards, Penalties(cfg, errors, format));
    }
    assert HasPenalty(cfg) <==> cfg.errorRatio || cfg.answerFormat by { HasPenaltyIs(cfg); }
    var masks := Masks(cfg, b, rr.rewards.Some?, rr.responseTexts.Some?);
    if masks.Err? {
      return Err(masks.error);
    }
    ghost var picks := KeptListsSurvivors(cfg, rr.numSequence, rr.groupSize, rr.rewards,
                                          Penalties(cfg, errors, format));
    MaskRequired(rr, rr.numSequence, masks.value);
    MaskOptional(rr, rr.numSequence, masks.value);
    MaskLogprobs(rr, rr.numSequence, masks.value);
    if cfg.target > 0 {
      rr.groupSize := cfg.target;
    }
    return Ok(());
  }
}
