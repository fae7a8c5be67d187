/**
  Loss scaling over a two-level grouping: turns belong to trajectories, and within a
  trajectory to agents. A turn's weight is the common value of its loss-scale row at the
  turn's valid tokens; every scaling step multiplies whole rows, so it acts on that value.
 */
module LossScales {
  import opened Grouping
  import opened Results
  import opened Sequences

  // ----- the batch -----------------------------------------------------------------------

  datatype Level = GroupLevel | AgentLevel | TurnLevel

  datatype Refusal = OutOfOrder | ZeroTokens

  /** What the scaling functions share: the levels applied so far and the global sizes. */
  class Context {
    var folding: seq<Level>
    const worldSize: nat
    const globalBatchSize: real

    constructor (worldSize: nat, globalBatchSize: real)
      ensures folding == [] && this.worldSize == worldSize && this.globalBatchSize == globalBatchSize
    {
      folding, this.worldSize, this.globalBatchSize := [], worldSize, globalBatchSize;
    }
  }

  /** count * tokens / total, the refinement a turn gets out of its agent's `total` tokens. */
  function Ratio(count: nat, tokens: nat, total: nat): real
    requires total > 0
  {
    count as real * tokens as real / total as real
  }

  /** The share of one of an agent's turns when agents, and each agent's turns, count equally. */
  function EqualShare(agents: nat, turns: nat): real
    requires agents > 0 && turns > 0
  {
    1.0 / agents as real / turns as real
  }

  /** The share of a turn when agents count equally and an agent's turns count by their tokens. */
  function TokenShare(agents: nat, tokens: nat, total: nat): real
    requires agents > 0 && total > 0
  {
    1.0 / agents as real * tokens as real / total as real
  }

  /** A batch of turns: which trajectory and which agent each belongs to, and its valid tokens. */
  datatype Turns = Turns(traj: seq<int>, agent: seq<int>, tokens: seq<nat>) {
    ghost predicate Valid() {
      |traj| == |agent| == |tokens|
    }

    function Size(): nat { |traj| }

    /** The turns of trajectory `t`. */
    function Trajectory(t: int): (r: seq<nat>)
      requires Valid()
      ensures InRange(r, Size()) && forall i: nat :: i in r <==> i < Size() && traj[i] == t
    {
      assert forall i: nat :: i in Range(Size()) <==> i < Size() by { RangeMembers(Size()); }
      IndicesOf(traj, Range(Size()), t)
    }

    /** The agents that act in trajectory `t`. */
    function Agents(t: int): (r: seq<int>)
      requires Valid()
      ensures Distinct(r) && forall i: nat :: i < Size() && traj[i] == t ==> agent[i] in r
    {
      FirstSeen(agent, Trajectory(t))
    }

    /** The turns of agent `a` in trajectory `t`. */
    function AgentTurns(t: int, a: int): (r: seq<nat>)
      requires Valid()
      ensures InRange(r, Size()) && forall i: nat :: i in r <==> i < Size() && traj[i] == t && agent[i] == a
    {
      IndicesOf(agent, Trajectory(t), a)
    }

    /** The tokens that the agent of turn `i` produced in the whole trajectory. */
    function AgentTokens(i: nat): nat
      requires Valid() && i < Size()
    {
      TokenSum(tokens, AgentTurns(traj[i], agent[i]))
    }

    lemma OwnGroup(i: nat)
      requires Valid() && i < Size()
      ensures |Agents(traj[i])| > 0 && |AgentTurns(traj[i], agent[i])| > 0
    {
      assert agent[i] in Agents(traj[i]);
      assert i in AgentTurns(traj[i], agent[i]);
    }

    lemma AgentTurnsProper(t: int, a: int)
      requires Valid() && a in Agents(t)
      ensures Distinct(AgentTurns(t, a)) && AgentTurns(t, a) != []
    {
      IndicesDistinct(traj, Range(Size()), t);
      IndicesDistinct(agent, Trajectory(t), a);
      var i :| i in Trajectory(t) && agent[i] == a;
      assert i in AgentTurns(t, a);
    }

    function AgentFactor(i: nat): real
      requires Valid() && i < Size()
    {
      OwnGroup(i);
      EqualShare(|Agents(traj[i])|, |AgentTurns(traj[i], agent[i])|)
    }

    function TurnFactor(i: nat): real
      requires Valid() && i < Size() && AgentTokens(i) > 0
    {
      Ratio(|AgentTurns(traj[i], agent[i])|, tokens[i], AgentTokens(i))
    }
  }
  // ----- scaling some of the turns ---------------------------------------------------------

  /** `after` is `before` with exactly the turns of `on` multiplied by their factors. */
  ghost predicate ScaledOn(before: seq<real>, after: seq<real>, factors: seq<real>, on: set<nat>) {
    && |before| == |after| == |factors|
    && forall i: nat :: i < |before| ==> after[i] == if i in on then before[i] * factors[i] else before[i]
  }

  lemma ScaledMore(before: seq<real>, mid: seq<real>, after: seq<real>, factors: seq<real>,
                   on: set<nat>, more: set<nat>)
    requires ScaledOn(before, mid, factors, on) && ScaledOn(mid, after, factors, more) && on !! more
    ensures ScaledOn(before, after, factors, on + more)
  {
    forall i: nat | i < |before|
      ensures after[i] == if i in on + more then before[i] * factors[i] else before[i]
    {
      assert mid[i] == if i in on then before[i] * factors[i] else before[i];
      assert i in more ==> i !in on;
    }
  }

  lemma ScaledAlike(before: seq<real>, after: seq<real>, f: seq<real>, g: seq<real>, on: set<nat>)
    requires ScaledOn(before, after, f, on) && |f| == |g| && forall i: nat :: i in on && i < |f| ==> f[i] == g[i]
    ensures ScaledOn(before, after, g, on)
  {
  }

  function Constant(n: nat, c: real): (r: seq<real>)
    ensures |r| == n && forall i :: 0 <= i < n ==> r[i] == c
  {
    seq(n, i => c)
  }

  function SetOf(idxs: seq<nat>): set<nat> {
    set i | i in idxs
  }

  /** Every factor of the agent level. */
  function AgentFactors(b: Turns): (r: seq<real>)
    requires b.Valid()
    ensures |r| == b.Size() && forall i: nat :: i < |r| ==> r[i] == b.AgentFactor(i)
  {
    seq(b.Size(), i requires 0 <= i < b.Size() => b.AgentFactor(i))
  }

  ghost predicate HasTokens(b: Turns)
    requires b.Valid()
  {
    forall i: nat :: i < b.Size() ==> b.AgentTokens(i) > 0
  }

  /** Every factor of the turn level; 0 where the division fails. */
  function TurnFactors(b: Turns): (r: seq<real>)
    requires b.Valid()
    ensures |r| == b.Size() && forall i: nat :: i < |r| && b.AgentTokens(i) > 0 ==> r[i] == b.TurnFactor(i)
  {
    seq(b.Size(), i requires 0 <= i < b.Size() => if b.AgentTokens(i) > 0 then b.TurnFactor(i) else 0.0)
  }

  /** Every weight times its own factor. */
  function Scaled(w: seq<real>, factors: seq<real>): (r: seq<real>)
    requires |w| == |factors|
    ensures |r| == |w| && forall i :: 0 <= i < |w| ==> r[i] == w[i] * factors[i]
  {
    seq(|w|, i requires 0 <= i < |w| => w[i] * factors[i])
  }

  /** Every weight is multiplied by one over the agents of its trajectory and over the turns of its agent. */
  ghost predicate AgentWeighted(b: Turns, before: seq<real>, after: seq<real>)
    requires b.Valid()
  {
    && |before| == |after| == b.Size()
    && forall i: nat :: i < |before| ==> AgentWeightedAt(b, before[i], after[i], i)
  }

  ghost predicate AgentWeightedAt(b: Turns, before: real, after: real, i: nat)
    requires b.Valid() && i < b.Size()
  {
    var agents, turns := |b.Agents(b.traj[i])|, |b.AgentTurns(b.traj[i], b.agent[i])|;
    agents > 0 && turns > 0 && after == before * (1.0 / agents as real / turns as real)
  }

  /** Every weight is multiplied by the turns of its agent times its part of the agent's tokens. */
  ghost predicate TurnWeighted(b: Turns, before: seq<real>, after: seq<real>)
    requires b.Valid()
  {
    && |before| == |after| == b.Size()
    && forall i: nat :: i < |before| ==> TurnWeightedAt(b, before[i], after[i], i)
  }

  ghost predicate TurnWeightedAt(b: Turns, before: real, after: real, i: nat)
    requires b.Valid() && i < b.Size()
  {
    var turns, total := |b.AgentTurns(b.traj[i], b.agent[i])|, b.AgentTokens(i);
    total > 0 && after == before * (turns as real * b.tokens[i] as real / total as real)
  }

  lemma ScaledOnAll(before: seq<real>, after: seq<real>, factors: seq<real>, on: set<nat>)
    requires ScaledOn(before, after, factors, on) && forall i: nat :: i < |before| ==> i in on
    ensures |before| == |factors| && after == Scaled(before, factors)
  {
  }

  lemma ScaledOnNone(w: seq<real>, factors: seq<real>)
    requires |w| == |factors|
    ensures ScaledOn(w, w, factors, {})
  {
  }

  function TurnsOfAgents(b: Turns, t: int, agents: seq<int>): set<nat>
    requires b.Valid()
  {
    set i: nat | i < b.Size() && b.traj[i] == t && b.agent[i] in agents
  }

  function TurnsOfTrajectories(b: Turns, ts: seq<int>): set<nat>
    requires b.Valid()
  {
    set i: nat | i < b.Size() && b.traj[i] in ts
  }

  lemma TurnsGrow(b: Turns, t: int, agents: seq<int>, ts: seq<int>, a: int)
    requires b.Valid()
    ensures TurnsOfAgents(b, t, []) == {} && TurnsOfTrajectories(b, []) == {}
    ensures TurnsOfAgents(b, t, agents + [a]) == TurnsOfAgents(b, t, agents) + SetOf(b.AgentTurns(t, a))
    ensures a !in agents ==> TurnsOfAgents(b, t, agents) !! SetOf(b.AgentTurns(t, a))
    ensures TurnsOfTrajectories(b, ts + [t]) == TurnsOfTrajectories(b, ts) + SetOf(b.Trajectory(t))
    ensures t !in ts ==> TurnsOfTrajectories(b, ts) !! SetOf(b.Trajectory(t))
  {
  }

  lemma AllAgents(b: Turns, t: int)
    requires b.Valid()
    ensures TurnsOfAgents(b, t, b.Agents(t)) == SetOf(b.Trajectory(t))
  {
  }

  // ----- the three scaling functions -------------------------------------------------------

  /** The order check of each level, read off its assertion. */
  predicate Admits(folding: seq<Level>, level: Level) {
    match level
    case GroupLevel => GroupLevel !in folding
    case AgentLevel => GroupLevel in folding && AgentLevel !in folding
    case TurnLevel => GroupLevel in folding && AgentLevel in folding && TurnLevel !in folding
  }

  /** Starting from `folding`, every call of the list passes its check. */
  predicate Accepted(folding: seq<Level>, calls: seq<Level>)
    decreases |calls|
  {
    calls == [] || (Admits(folding, calls[0]) && Accepted(folding + [calls[0]], calls[1..]))
  }

  const FULL_ORDER := [GroupLevel, AgentLevel, TurnLevel]

  lemma {:induction false} AcceptedFrom(done: nat, calls: seq<Level>)
    requires done <= 3
    ensures Accepted(FULL_ORDER[..done], calls) <==> calls <= FULL_ORDER[done..]
    decreases |calls|
  {
    if calls != [] {
      var folding := FULL_ORDER[..done];
      assert folding == if done == 0 then [] else if done == 1 then [GroupLevel]
                        else if done == 2 then [GroupLevel, AgentLevel] else FULL_ORDER;
      if done < 3 && calls[0] == FULL_ORDER[done] {
        assert folding + [calls[0]] == FULL_ORDER[..done + 1];
        AcceptedFrom(done + 1, calls[1..]);
        assert calls == [calls[0]] + calls[1..];
        assert FULL_ORDER[done..] == [calls[0]] + FULL_ORDER[done + 1..];
      } else {
        assert !Admits(folding, calls[0]);
      }
    }
  }

  /** From a fresh context exactly the prefixes of group, agent, turn are accepted. */
  lemma OnlyThisOrder(calls: seq<Level>)
    ensures Accepted([], calls) <==> calls <= [GroupLevel, AgentLevel, TurnLevel]
  {
    AcceptedFrom(0, calls);
    assert FULL_ORDER[..0] == [] && FULL_ORDER[0..] == FULL_ORDER;
  }

  method GroupScale(context: Context, batch: Turns, advantages: array<real>) returns (r: Result<(), Refusal>)
    requires context.globalBatchSize > 0.0
    modifies context, advantages
    ensures r.Ok? <==> Admits(old(context.folding), GroupLevel)
    ensures r.Err? ==> r.error == OutOfOrder && context.folding == old(context.folding)
                       && advantages[..] == old(advantages[..])
    ensures r.Ok? ==> context.folding == old(context.folding) + [GroupLevel]
    ensures r.Ok? ==> forall i :: 0 <= i < advantages.Length ==>
              advantages[i] == old(advantages[i])
                               * ((batch.Size() * context.worldSize) as real / context.globalBatchSize)
  {
    if !Admits(context.folding, GroupLevel) {
      return Err(OutOfOrder);
    }
    context.folding := context.folding + [GroupLevel];
    var scale := (batch.Size() * context.worldSize) as real / context.globalBatchSize;
    for i := 0 to advantages.Length
      modifies advantages
      invariant forall j :: 0 <= j < i ==> advantages[j] == old(advantages[j]) * scale
      invariant forall j :: i <= j < advantages.Length ==> advantages[j] == old(advantages[j])
    {
      advantages[i] := advantages[i] * scale;
    }
    return Ok(());
  }

  /** The innermost loop of the agent level: one factor for all the turns of one agent. */
  method ScaleUniformly(weights: array<real>, idxs: seq<nat>, factor: real)
    requires InRange(idxs, weights.Length) && Distinct(idxs)
    modifies weights
    ensures ScaledOn(old(weights[..]), weights[..], Constant(weights.Length, factor), SetOf(idxs))
  {
    for r := 0 to |idxs|
      invariant forall i: nat :: i < weights.Length ==>
                  weights[i] == if i in idxs[..r] then old(weights[i]) * factor else old(weights[i])
    {
      var idx := idxs[r];
      assert idx !in idxs[..r];
      assert idxs[..r + 1] == idxs[..r] + [idx];
      weights[idx] := weights[idx] * factor;
    }
    assert idxs[..|idxs|] == idxs;
  }

  lemma AgentStep(b: Turns, before: seq<real>, mid: seq<real>, after: seq<real>, t: int, agents: seq<int>, a: int)
    requires b.Valid() && a in b.Agents(t) && a !in agents && b.AgentTurns(t, a) != []
    requires ScaledOn(before, mid, AgentFactors(b), TurnsOfAgents(b, t, agents))
    requires ScaledOn(mid, after,
                      Constant(b.Size(), EqualShare(|b.Agents(t)|, |b.AgentTurns(t, a)|)),
                      SetOf(b.AgentTurns(t, a)))
    ensures ScaledOn(before, after, AgentFactors(b), TurnsOfAgents(b, t, agents + [a]))
  {
    hide ScaledOn, AgentFactors, TurnsOfAgents, Constant, Turns.AgentTurns, Turns.Agents;
    var on := SetOf(b.AgentTurns(t, a));
    TurnsGrow(b, t, agents, [], a);
    ScaledAlike(mid, after, Constant(b.Size(), EqualShare(|b.Agents(t)|, |b.AgentTurns(t, a)|)),
                AgentFactors(b), on);
    ScaledMore(before, mid, after, AgentFactors(b), TurnsOfAgents(b, t, agents), on);
  }

  /** The loop over the agents of one trajectory. */
  method AgentScaleTrajectory(batch: Turns, weights: array<real>, t: int, members: seq<nat>)
    requires batch.Valid() && weights.Length == batch.Size() && members == batch.Trajectory(t)
    modifies weights
    ensures ScaledOn(old(weights[..]), weights[..], AgentFactors(batch), SetOf(members))
  {
    hide ScaledOn, AgentFactors, TurnsOfAgents, Constant;
    var agents := GroupBy(batch.agent, members);
    ScaledOnNone(weights[..], AgentFactors(batch));
    TurnsGrow(batch, t, [], [], 0);
    for q := 0 to |agents.order|
      invariant ScaledOn(old(weights[..]), weights[..], AgentFactors(batch), TurnsOfAgents(batch, t, agents.order[..q]))
    {
      var a := agents.order[q];
      var idxs := agents.members[a];
      assert a !in agents.order[..q] && agents.order[..q + 1] == agents.order[..q] + [a];
      batch.AgentTurnsProper(t, a);
      ghost var mid := weights[..];
      ScaleUniformly(weights, idxs, EqualShare(|agents.order|, |idxs|));
      AgentStep(batch, old(weights[..]), mid, weights[..], t, agents.order[..q], a);
    }
    assert agents.order[..|agents.order|] == agents.order;
    AllAgents(batch, t);
  }

  lemma TrajectoryStep(b: Turns, before: seq<real>, mid: seq<real>, after: seq<real>, factors: seq<real>,
                       ts: seq<int>, t: int)
    requires b.Valid() && t !in ts
    requires ScaledOn(before, mid, factors, TurnsOfTrajectories(b, ts))
    requires ScaledOn(mid, after, factors, SetOf(b.Trajectory(t)))
    ensures ScaledOn(before, after, factors, TurnsOfTrajectories(b, ts + [t]))
  {
    hide *;
    TurnsGrow(b, t, [], ts, 0);
    ScaledMore(before, mid, after, factors, TurnsOfTrajectories(b, ts), SetOf(b.Trajectory(t)));
  }

  lemma AllTrajectories(b: Turns, before: seq<real>, after: seq<real>, factors: seq<real>)
    requires b.Valid() && |before| == b.Size()
    requires ScaledOn(before, after, factors, TurnsOfTrajectories(b, FirstSeen(b.traj, Range(b.Size()))))
    ensures |factors| == |before| && after == Scaled(before, factors)
  {
    RangeMembers(b.Size());
    ScaledOnAll(before, after, factors, TurnsOfTrajectories(b, FirstSeen(b.traj, Range(b.Size()))));
  }

  method AgentScale(context: Context, batch: Turns, weights: array<real>) returns (r: Result<(), Refusal>)
    requires batch.Valid() && weights.Length == batch.Size()
    modifies context, weights
    ensures r.Ok? <==> Admits(old(context.folding), AgentLevel)
    ensures r.Err? ==> r.error == OutOfOrder && context.folding == old(context.folding)
                       && weights[..] == old(weights[..])
    ensures r.Ok? ==> context.folding == old(context.folding) + [AgentLevel]
                      && weights[..] == Scaled(old(weights[..]), AgentFactors(batch))
    ensures r.Ok? ==> AgentWeighted(batch, old(weights[..]), weights[..])
  {
    if !Admits(context.folding, AgentLevel) {
      return Err(OutOfOrder);
    }
    hide ScaledOn, AgentFactors, TurnsOfTrajectories, Scaled, AgentWeighted;
    context.folding := context.folding + [AgentLevel];
    var trajs := GroupBy(batch.traj, Range(batch.Size()));
    ScaledOnNone(weights[..], AgentFactors(batch));
    TurnsGrow(batch, 0, [], [], 0);
    for p := 0 to |trajs.order|
      modifies weights
      invariant ScaledOn(old(weights[..]), weights[..], AgentFactors(batch),
                         TurnsOfTrajectories(batch, trajs.order[..p]))
    {
      var t := trajs.order[p];
      assert t !in trajs.order[..p] && trajs.order[..p + 1] == trajs.order[..p] + [t];
      ghost var mid := weights[..];
      AgentScaleTrajectory(batch, weights, t, trajs.members[t]);
      TrajectoryStep(batch, old(weights[..]), mid, weights[..], AgentFactors(batch), trajs.order[..p], t);
    }
    assert trajs.order[..|trajs.order|] == trajs.order;
    AllTrajectories(batch, old(weights[..]), weights[..], AgentFactors(batch));
    ScaledByAgent(batch, old(weights[..]));
    return Ok(());
  }

  lemma ScaledByAgent(b: Turns, w: seq<real>)
    requires b.Valid() && |w| == b.Size()
    ensures AgentWeighted(b, w, Scaled(w, AgentFactors(b)))
  {
    hide Scaled, AgentFactors, AgentWeightedAt;
    forall i: nat | i < |w| ensures AgentWeightedAt(b, w[i], Scaled(w, AgentFactors(b))[i], i) {
      AgentWeightAt(b, w, i);
    }
  }

  lemma ScaledByTurn(b: Turns, w: seq<real>)
    requires b.Valid() && |w| == b.Size() && HasTokens(b)
    ensures TurnWeighted(b, w, Scaled(w, TurnFactors(b)))
  {
    HaveTokens(b);
    hide Scaled, TurnFactors, TurnWeightedAt, HasTokens, Turns.AgentTokens;
    forall i: nat | i < |w| ensures TurnWeightedAt(b, w[i], Scaled(w, TurnFactors(b))[i], i) {
      TurnWeightAt(b, w, i);
    }
  }

  lemma AgentWeightAt(b: Turns, w: seq<real>, i: nat)
    requires b.Valid() && |w| == b.Size() && i < |w|
    ensures AgentWeightedAt(b, w[i], Scaled(w, AgentFactors(b))[i], i)
  {
    b.OwnGroup(i);
    hide Turns.Agents, Turns.AgentTurns;
  }

  lemma TurnWeightAt(b: Turns, w: seq<real>, i: nat)
    requires b.Valid() && |w| == b.Size() && i < |w| && b.AgentTokens(i) > 0
    ensures TurnWeightedAt(b, w[i], Scaled(w, TurnFactors(b))[i], i)
  {
    hide Turns.AgentTurns, Turns.AgentTokens;
  }

  ghost predicate AgentsHaveTokens(b: Turns, on: set<nat>)
    requires b.Valid()
  {
    forall i: nat :: i in on && i < b.Size() ==> b.AgentTokens(i) > 0
  }

  lemma AgentTokensOf(b: Turns, t: int, a: int, i: nat)
    requires b.Valid() && i in b.AgentTurns(t, a)
    ensures i < b.Size() && b.AgentTokens(i) == TokenSum(b.tokens, b.AgentTurns(t, a))
    ensures b.AgentTokens(i) > 0 ==>
              TurnFactors(b)[i] == Ratio(|b.AgentTurns(t, a)|, b.tokens[i], TokenSum(b.tokens, b.AgentTurns(t, a)))
  {
    assert b.traj[i] == t && b.agent[i] == a;
    hide Ratio, TokenSum, Turns.AgentTurns;
  }

  /** The innermost loop of the turn level; false is the ZeroDivisionError of an agent without tokens. */
  method TurnScaleAgent(batch: Turns, weights: array<real>, t: int, a: int, idxs: seq<nat>) returns (ok: bool)
    requires batch.Valid() && weights.Length == batch.Size()
    requires idxs == batch.AgentTurns(t, a) && Distinct(idxs) && idxs != []
    modifies weights
    ensures ok <==> TokenSum(batch.tokens, idxs) > 0
    ensures ScaledOn(old(weights[..]), weights[..], TurnFactors(batch), if ok then SetOf(idxs) else {})
  {
    hide Turns.AgentTurns, Turns.AgentTokens, Turns.TurnFactor, TurnFactors, Ratio, TokenSum;
    var counts := Gather(batch.tokens, idxs);
    var total := TokenSum(batch.tokens, idxs);
    if total == 0 {
      return false;
    }
    for r := 0 to |idxs|
      invariant forall i: nat :: i < weights.Length ==>
                  weights[i] == if i in idxs[..r] then old(weights[i]) * TurnFactors(batch)[i] else old(weights[i])
    {
      var idx := idxs[r];
      assert idx !in idxs[..r] && idx in idxs;
      assert idxs[..r + 1] == idxs[..r] + [idx];
      AgentTokensOf(batch, t, a, idx);
      weights[idx] := weights[idx] * Ratio(|idxs|, counts[r], total);
    }
    assert idxs[..|idxs|] == idxs;
    return true;
  }

  lemma TurnStep(b: Turns, before: seq<real>, mid: seq<real>, after: seq<real>, t: int, agents: seq<int>, a: int)
    requires b.Valid() && a !in agents
    requires ScaledOn(before, mid, TurnFactors(b), TurnsOfAgents(b, t, agents))
    requires ScaledOn(mid, after, TurnFactors(b), SetOf(b.AgentTurns(t, a)))
    ensures ScaledOn(before, after, TurnFactors(b), TurnsOfAgents(b, t, agents + [a]))
  {
    hide *;
    TurnsGrow(b, t, agents, [], a);
    ScaledMore(before, mid, after, TurnFactors(b), TurnsOfAgents(b, t, agents), SetOf(b.AgentTurns(t, a)));
  }

  lemma TokensGrow(b: Turns, t: int, agents: seq<int>, a: int)
    requires b.Valid() && AgentsHaveTokens(b, TurnsOfAgents(b, t, agents))
    requires a in b.Agents(t)
    ensures TokenSum(b.tokens, b.AgentTurns(t, a)) > 0 ==> AgentsHaveTokens(b, TurnsOfAgents(b, t, agents + [a]))
    ensures TokenSum(b.tokens, b.AgentTurns(t, a)) == 0 ==> !AgentsHaveTokens(b, SetOf(b.Trajectory(t)))
    ensures TurnsOfAgents(b, t, agents) <= SetOf(b.Trajectory(t))
  {
    TurnsGrow(b, t, agents, [], a);
    b.AgentTurnsProper(t, a);
    HeadIsMember(b.AgentTurns(t, a));
    var i := b.AgentTurns(t, a)[0];
    assert i in SetOf(b.Trajectory(t));
    AgentTokensOf(b, t, a, i);
    forall j: nat | j in b.AgentTurns(t, a)
      ensures j < b.Size() && b.AgentTokens(j) == TokenSum(b.tokens, b.AgentTurns(t, a))
    {
      AgentTokensOf(b, t, a, j);
    }
    hide Turns.AgentTurns, Turns.AgentTokens, TokenSum;
  }

  /** The loop over the agents of one trajectory; `on` is what it has scaled when it stops. */
  method TurnScaleTrajectory(batch: Turns, weights: array<real>, t: int, members: seq<nat>)
    returns (ok: bool, ghost on: set<nat>)
    requires batch.Valid() && weights.Length == batch.Size() && members == batch.Trajectory(t)
    modifies weights
    ensures ok <==> AgentsHaveTokens(batch, SetOf(members))
    ensures ok ==> on == SetOf(members)
    ensures on <= SetOf(members) && AgentsHaveTokens(batch, on)
    ensures ScaledOn(old(weights[..]), weights[..], TurnFactors(batch), on)
  {
    hide ScaledOn, TurnFactors, TurnsOfAgents, AgentsHaveTokens, TokenSum;
    var agents := GroupBy(batch.agent, members);
    ScaledOnNone(weights[..], TurnFactors(batch));
    TurnsGrow(batch, t, [], [], 0);
    NoAgentsNeeded(batch);
    for q := 0 to |agents.order|
      invariant AgentsHaveTokens(batch, TurnsOfAgents(batch, t, agents.order[..q]))
      invariant ScaledOn(old(weights[..]), weights[..], TurnFactors(batch), TurnsOfAgents(batch, t, agents.order[..q]))
    {
      var a := agents.order[q];
      assert a !in agents.order[..q] && agents.order[..q + 1] == agents.order[..q] + [a];
      batch.AgentTurnsProper(t, a);
      ghost var mid := weights[..];
      TokensGrow(batch, t, agents.order[..q], a);
      var scaled := TurnScaleAgent(batch, weights, t, a, agents.members[a]);
      if !scaled {
        ScaledNothing(old(weights[..]), mid, weights[..], TurnFactors(batch),
                      TurnsOfAgents(batch, t, agents.order[..q]));
        return false, TurnsOfAgents(batch, t, agents.order[..q]);
      }
      TurnStep(batch, old(weights[..]), mid, weights[..], t, agents.order[..q], a);
    }
    assert agents.order[..|agents.order|] == agents.order;
    AllAgents(batch, t);
    return true, SetOf(members);
  }

  lemma HaveTokens(b: Turns)
    requires b.Valid() && HasTokens(b)
    ensures forall i: nat :: i < b.Size() ==> b.AgentTokens(i) > 0
  {
  }

  lemma NoAgentsNeeded(b: Turns)
    requires b.Valid()
    ensures AgentsHaveTokens(b, {})
  {
  }

  lemma ScaledNothing(before: seq<real>, mid: seq<real>, after: seq<real>, factors: seq<real>, on: set<nat>)
    requires ScaledOn(before, mid, factors, on) && ScaledOn(mid, after, factors, {})
    ensures ScaledOn(before, after, factors, on)
  {
  }

  lemma TokensAcross(b: Turns, ts: seq<int>, t: int, on: set<nat>)
    requires b.Valid() && AgentsHaveTokens(b, TurnsOfTrajectories(b, ts)) && AgentsHaveTokens(b, on)
    requires on <= SetOf(b.Trajectory(t))
    ensures on == SetOf(b.Trajectory(t)) ==> AgentsHaveTokens(b, TurnsOfTrajectories(b, ts + [t]))
    ensures AgentsHaveTokens(b, TurnsOfTrajectories(b, ts) + on)
    ensures !AgentsHaveTokens(b, SetOf(b.Trajectory(t))) ==> !HasTokens(b)
    ensures t !in ts ==> TurnsOfTrajectories(b, ts) !! on
  {
    TurnsGrow(b, t, [], ts, 0);
    hide Turns.AgentTokens;
  }

  lemma AllTokens(b: Turns)
    requires b.Valid()
    ensures AgentsHaveTokens(b, TurnsOfTrajectories(b, FirstSeen(b.traj, Range(b.Size())))) <==> HasTokens(b)
  {
    RangeMembers(b.Size());
    hide Turns.AgentTokens;
  }

  /** What a turn-level call that fails has done: each weight is untouched or finished. */
  ghost predicate PartlyScaled(b: Turns, before: seq<real>, after: seq<real>)
    requires b.Valid()
  {
    exists on: set<nat> :: AgentsHaveTokens(b, on) && ScaledOn(before, after, TurnFactors(b), on)
  }

  /** The loop over the trajectories; `on` is what it has scaled when it stops. */
  method TurnScaleBatch(batch: Turns, weights: array<real>) returns (ok: bool, ghost on: set<nat>)
    requires batch.Valid() && weights.Length == batch.Size()
    modifies weights
    ensures ok <==> HasTokens(batch)
    ensures AgentsHaveTokens(batch, on) && ScaledOn(old(weights[..]), weights[..], TurnFactors(batch), on)
    ensures ok ==> on == TurnsOfTrajectories(batch, FirstSeen(batch.traj, Range(batch.Size())))
  {
    hide ScaledOn, TurnFactors, TurnsOfTrajectories, AgentsHaveTokens, HasTokens;
    var trajs := GroupBy(batch.traj, Range(batch.Size()));
    ScaledOnNone(weights[..], TurnFactors(batch));
    TurnsGrow(batch, 0, [], [], 0);
    NoAgentsNeeded(batch);
    for p := 0 to |trajs.order|
      invariant AgentsHaveTokens(batch, TurnsOfTrajectories(batch, trajs.order[..p]))
      invariant ScaledOn(old(weights[..]), weights[..], TurnFactors(batch),
                         TurnsOfTrajectories(batch, trajs.order[..p]))
    {
      var t := trajs.order[p];
      assert t !in trajs.order[..p] && trajs.order[..p + 1] == trajs.order[..p] + [t];
      ghost var mid := weights[..];
      var scaled, more := TurnScaleTrajectory(batch, weights, t, trajs.members[t]);
      TokensAcross(batch, trajs.order[..p], t, more);
      if !scaled {
        ScaledMore(old(weights[..]), mid, weights[..], TurnFactors(batch),
                   TurnsOfTrajectories(batch, trajs.order[..p]), more);
        return false, TurnsOfTrajectories(batch, trajs.order[..p]) + more;
      }
      TrajectoryStep(batch, old(weights[..]), mid, weights[..], TurnFactors(batch), trajs.order[..p], t);
    }
    assert trajs.order[..|trajs.order|] == trajs.order;
    AllTokens(batch);
    return true, TurnsOfTrajectories(batch, trajs.order);
  }

  method TurnScale(context: Context, batch: Turns, weights: array<real>) returns (r: Result<(), Refusal>)
    requires batch.Valid() && weights.Length == batch.Size()
    modifies context, weights
    ensures r.Ok? <==> Admits(old(context.folding), TurnLevel) && HasTokens(batch)
    ensures r == Err(OutOfOrder) <==> !Admits(old(context.folding), TurnLevel)
    ensures r == Err(OutOfOrder) ==> context.folding == old(context.folding) && weights[..] == old(weights[..])
    ensures r != Err(OutOfOrder) ==> context.folding == old(context.folding) + [TurnLevel]
    ensures r == Err(ZeroTokens) ==> PartlyScaled(batch, old(weights[..]), weights[..])
    ensures r.Ok? ==> weights[..] == Scaled(old(weights[..]), TurnFactors(batch))
    ensures r.Ok? ==> TurnWeighted(batch, old(weights[..]), weights[..])
  {
    if !Admits(context.folding, TurnLevel) {
      return Err(OutOfOrder);
    }
    hide ScaledOn, TurnFactors, TurnsOfTrajectories, Scaled, AgentsHaveTokens, HasTokens, TurnWeighted;
    context.folding := context.folding + [TurnLevel];
    var ok, on := TurnScaleBatch(batch, weights);
    if !ok {
      return Err(ZeroTokens);
    }
    AllTrajectories(batch, old(weights[..]), weights[..], TurnFactors(batch));
    ScaledByTurn(batch, old(weights[..]));
    return Ok(());
  }

  // ----- conservation --------------------------------------------------------------------------

  ghost predicate Ones(w: seq<real>) {
    forall i :: 0 <= i < |w| ==> w[i] == 1.0
  }

  /** Every turn of one agent in one trajectory weighs the same. */
  ghost predicate UniformPerAgent(b: Turns, w: seq<real>)
    requires b.Valid() && |w| == b.Size()
  {
    forall i, j :: 0 <= i < j < b.Size() && b.traj[i] == b.traj[j] && b.agent[i] == b.agent[j] ==> w[i] == w[j]
  }

  lemma ShareTimesCount(parts: nat, count: nat)
    requires parts > 0 && count > 0
    ensures Times(EqualShare(parts, count), count) == 1.0 / parts as real
    ensures Times(1.0 / parts as real, parts) == 1.0
  {
  }

  lemma AgentLevelAt(b: Turns, w: seq<real>, t: int, a: int, i: nat)
    requires b.Valid() && |w| == b.Size() && Ones(w) && i in b.AgentTurns(t, a)
    ensures |b.Agents(t)| > 0 && |b.AgentTurns(t, a)| > 0
    ensures Scaled(w, AgentFactors(b))[i] == EqualShare(|b.Agents(t)|, |b.AgentTurns(t, a)|)
  {
    hide EqualShare;
    b.OwnGroup(i);
  }

  lemma AgentLevelIsUniform(b: Turns, w: seq<real>)
    requires b.Valid() && |w| == b.Size() && Ones(w)
    ensures UniformPerAgent(b, Scaled(w, AgentFactors(b)))
  {
    hide EqualShare, Turns.Agents, Turns.AgentTurns;
  }

  lemma AgentLevelSum(b: Turns, w: seq<real>, t: int, a: int)
    requires b.Valid() && |w| == b.Size() && Ones(w) && a in b.Agents(t)
    ensures SumOver(Scaled(w, AgentFactors(b)), b.AgentTurns(t, a)) == 1.0 / |b.Agents(t)| as real
  {
    hide *;
    b.AgentTurnsProper(t, a);
    forall i: nat | i in b.AgentTurns(t, a)
      ensures Scaled(w, AgentFactors(b))[i] == EqualShare(|b.Agents(t)|, |b.AgentTurns(t, a)|)
    {
      AgentLevelAt(b, w, t, a, i);
    }
    UniformSum(Scaled(w, AgentFactors(b)), b.AgentTurns(t, a), EqualShare(|b.Agents(t)|, |b.AgentTurns(t, a)|));
    ShareTimesCount(|b.Agents(t)|, |b.AgentTurns(t, a)|);
  }

  /** After the agent level each agent of a trajectory holds an equal share, and the trajectory holds 1. */
  lemma AgentLevelConserves(b: Turns, w: seq<real>, t: int)
    requires b.Valid() && |w| == b.Size() && Ones(w) && b.Trajectory(t) != []
    ensures var w' := Scaled(w, AgentFactors(b));
            && UniformPerAgent(b, w')
            && (forall a :: a in b.Agents(t) ==> SumOver(w', b.AgentTurns(t, a)) == 1.0 / |b.Agents(t)| as real)
            && SumOver(w', b.Trajectory(t)) == 1.0
  {
    hide SumOver, SumGroups, Times, FirstSeen, IndicesOf, EqualShare, AgentFactors, Scaled, UniformPerAgent;
    var w' := Scaled(w, AgentFactors(b));
    AgentLevelIsUniform(b, w);
    forall a | a in b.Agents(t) ensures SumOver(w', b.AgentTurns(t, a)) == 1.0 / |b.Agents(t)| as real {
      AgentLevelSum(b, w, t, a);
    }
    HeadIsMember(b.Trajectory(t));
    b.OwnGroup(b.Trajectory(t)[0]);
    ShareTimesCount(|b.Agents(t)|, 1);
    UniformGroups(w', b.agent, b.Trajectory(t), b.Agents(t), 1.0 / |b.Agents(t)| as real);
    GroupSumsAddUp(w', b.agent, b.Trajectory(t));
  }

  /** The weight per token of an agent whose `count` turns weigh `c` each and hold `total` tokens. */
  function PerToken(c: real, count: nat, total: nat): real
    requires total > 0
  {
    c * count as real / total as real
  }

  lemma RefinedSum(c: real, count: nat, total: nat)
    requires total > 0
    ensures Times(PerToken(c, count, total), total) == Times(c, count)
  {
  }

  lemma RefinedWeight(c: real, count: nat, tokens: nat, total: nat)
    requires total > 0
    ensures c * Ratio(count, tokens, total) == Times(PerToken(c, count, total), tokens)
  {
  }

  lemma ShareRefined(agents: nat, count: nat, tokens: nat, total: nat)
    requires agents > 0 && count > 0 && total > 0
    ensures EqualShare(agents, count) * Ratio(count, tokens, total) == TokenShare(agents, tokens, total)
  {
  }

  lemma RefinedTurn(b: Turns, w: seq<real>, t: int, a: int, i: nat, c: real)
    requires b.Valid() && |w| == b.Size() && HasTokens(b) && i in b.AgentTurns(t, a) && w[i] == c
    ensures TokenSum(b.tokens, b.AgentTurns(t, a)) > 0
    ensures Scaled(w, TurnFactors(b))[i]
         == Times(PerToken(c, |b.AgentTurns(t, a)|, TokenSum(b.tokens, b.AgentTurns(t, a))), b.tokens[i])
  {
    hide Times, PerToken, Ratio, TurnFactors, TokenSum, Turns.AgentTurns, Turns.AgentTokens;
    AgentTokensOf(b, t, a, i);
    RefinedWeight(c, |b.AgentTurns(t, a)|, b.tokens[i], TokenSum(b.tokens, b.AgentTurns(t, a)));
  }

  lemma UniformSumKept(b: Turns, w: seq<real>, t: int, a: int, c: real)
    requires b.Valid() && |w| == b.Size() && HasTokens(b) && b.AgentTurns(t, a) != []
    requires forall i: nat :: i in b.AgentTurns(t, a) ==> w[i] == c
    ensures SumOver(Scaled(w, TurnFactors(b)), b.AgentTurns(t, a)) == SumOver(w, b.AgentTurns(t, a))
  {
    assert |b.tokens| == b.Size();
    hide *;
    var idxs, w' := b.AgentTurns(t, a), Scaled(w, TurnFactors(b));
    HeadIsMember(idxs);
    RefinedTurn(b, w, t, a, idxs[0], c);
    var total := TokenSum(b.tokens, idxs);
    var m := PerToken(c, |idxs|, total);
    forall i: nat | i in idxs ensures w'[i] == Times(m, b.tokens[i]) {
      RefinedTurn(b, w, t, a, i, c);
    }
    UniformSum(w, idxs, c);
    ProportionalSum(w', b.tokens, idxs, m);
    RefinedSum(c, |idxs|, total);
  }

  /** The turn level moves weight between the turns of an agent but never changes the agent's sum. */
  lemma TurnLevelKeepsAgentSum(b: Turns, w: seq<real>, t: int, a: int)
    requires b.Valid() && |w| == b.Size() && UniformPerAgent(b, w) && HasTokens(b)
    ensures SumOver(Scaled(w, TurnFactors(b)), b.AgentTurns(t, a)) == SumOver(w, b.AgentTurns(t, a))
  {
    hide SumOver, TurnFactors, HasTokens, Turns.AgentTurns;
    var idxs := b.AgentTurns(t, a);
    if idxs == [] {
      SumOfNone(w);
      SumOfNone(Scaled(w, TurnFactors(b)));
    } else {
      HeadIsMember(idxs);
      assert forall i: nat :: i in idxs ==> w[i] == w[idxs[0]];
      UniformSumKept(b, w, t, a, w[idxs[0]]);
    }
  }

  lemma SumOfNone(w: seq<real>)
    ensures SumOver(w, []) == 0.0
  {
  }

  /** So it keeps the sum of every trajectory too. */
  lemma TurnLevelKeepsTrajectorySum(b: Turns, w: seq<real>, t: int)
    requires b.Valid() && |w| == b.Size() && UniformPerAgent(b, w) && HasTokens(b)
    ensures SumOver(Scaled(w, TurnFactors(b)), b.Trajectory(t)) == SumOver(w, b.Trajectory(t))
  {
    hide SumOver, SumGroups, FirstSeen, IndicesOf, TurnFactors;
    var w' := Scaled(w, TurnFactors(b));
    forall a | a in b.Agents(t)
      ensures SumOver(w', b.AgentTurns(t, a)) == SumOver(w, b.AgentTurns(t, a))
    {
      TurnLevelKeepsAgentSum(b, w, t, a);
    }
    SameGroups(w', w, b.agent, b.Trajectory(t), b.Agents(t));
    GroupSumsAddUp(w', b.agent, b.Trajectory(t));
    GroupSumsAddUp(w, b.agent, b.Trajectory(t));
  }

  /**
    From all ones, the agent level and then the turn level: each turn ends with its agent's
    equal share times its part of the agent's tokens, and every trajectory still sums to 1.
   */
  lemma BothLevels(b: Turns, w: seq<real>, t: int)
    requires b.Valid() && |w| == b.Size() && Ones(w) && HasTokens(b) && b.Trajectory(t) != []
    ensures var w' := Scaled(Scaled(w, AgentFactors(b)), TurnFactors(b));
            && (forall i: nat :: i in b.Trajectory(t) ==>
                  |b.Agents(t)| > 0 && b.AgentTokens(i) > 0
                  && w'[i] == TokenShare(|b.Agents(t)|, b.tokens[i], b.AgentTokens(i)))
            && (forall a :: a in b.Agents(t) ==> SumOver(w', b.AgentTurns(t, a)) == 1.0 / |b.Agents(t)| as real)
            && SumOver(w', b.Trajectory(t)) == 1.0
  {
    assert |b.tokens| == b.Size();
    hide *;
    var w1 := Scaled(w, AgentFactors(b));
    AgentLevelConserves(b, w, t);
    TurnLevelKeepsTrajectorySum(b, w1, t);
    forall a | a in b.Agents(t)
      ensures SumOver(Scaled(w1, TurnFactors(b)), b.AgentTurns(t, a)) == SumOver(w1, b.AgentTurns(t, a))
    {
      TurnLevelKeepsAgentSum(b, w1, t, a);
    }
    forall i: nat | i in b.Trajectory(t)
      ensures |b.Agents(t)| > 0 && b.AgentTokens(i) > 0
      ensures Scaled(w1, TurnFactors(b))[i]
           == TokenShare(|b.Agents(t)|, b.tokens[i], b.AgentTokens(i))
    {
      BothFactors(b, w, i);
    }
  }

  lemma BothFactors(b: Turns, w: seq<real>, i: nat)
    requires b.Valid() && |w| == b.Size() && Ones(w) && HasTokens(b) && i < b.Size()
    ensures |b.Agents(b.traj[i])| > 0 && b.AgentTokens(i) > 0
    ensures Scaled(Scaled(w, AgentFactors(b)), TurnFactors(b))[i]
         == TokenShare(|b.Agents(b.traj[i])|, b.tokens[i], b.AgentTokens(i))
  {
    b.OwnGroup(i);
    assert b.AgentTokens(i) > 0 && w[i] == 1.0;
    hide Turns.Agents, Turns.AgentTurns, Turns.AgentTokens, Ratio, EqualShare, TokenShare;
    ShareRefined(|b.Agents(b.traj[i])|, |b.AgentTurns(b.traj[i], b.agent[i])|, b.tokens[i], b.AgentTokens(i));
  }

  /** Summed over the whole batch, the weights count the trajectories. */
  lemma BatchTotal(b: Turns, w: seq<real>)
    requires b.Valid() && |w| == b.Size()
    requires forall t :: t in b.traj ==> SumOver(w, b.Trajectory(t)) == 1.0
    ensures SumOver(w, Range(b.Size())) == |FirstSeen(b.traj, Range(b.Size()))| as real
  {
    hide SumOver, SumGroups, FirstSeen, IndicesOf;
    RangeMembers(b.Size());
    assert forall k :: k in FirstSeen(b.traj, Range(b.Size())) ==> k in b.traj;
    UniformGroups(w, b.traj, Range(b.Size()), FirstSeen(b.traj, Range(b.Size())), 1.0);
    GroupSumsAddUp(w, b.traj, Range(b.Size()));
  }
}
