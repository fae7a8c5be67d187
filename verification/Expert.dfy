/**
  The scripted waypoint expert: eight phases with timeouts and a bounded load compensation, run
  against arbitrary positions. Lengths are exact reals and distances are compared squared.
 */
module Expert {
  import opened Results
  import Arithmetic

  // ----- vectors ---------------------------------------------------------------------------------

  datatype Vec = Vec(x: real, y: real, z: real)

  const ZERO := Vec(0.0, 0.0, 0.0)

  function Plus(a: Vec, b: Vec): Vec {
    Vec(a.x + b.x, a.y + b.y, a.z + b.z)
  }

  function Minus(a: Vec, b: Vec): Vec {
    Vec(a.x - b.x, a.y - b.y, a.z - b.z)
  }

  function Scaled(a: Vec, k: real): Vec {
    Vec(a.x * k, a.y * k, a.z * k)
  }

  function SquaredNorm(a: Vec): real {
    a.x * a.x + a.y * a.y + a.z * a.z
  }

  predicate Within(a: Vec, b: Vec, radius: real) {
    SquaredNorm(Minus(a, b)) < radius * radius
  }

  /** numpy's clip: the lower bound first, then the upper one. */
  function Clip(x: real, lo: real, hi: real): real {
    var y := if x < lo then lo else x;
    if y > hi then hi else y
  }

  function ClipVec(a: Vec, bound: real): Vec {
    Vec(Clip(a.x, -bound, bound), Clip(a.y, -bound, bound), Clip(a.z, -bound, bound))
  }

  predicate Bounded(a: Vec, bound: real) {
    -bound <= a.x <= bound && -bound <= a.y <= bound && -bound <= a.z <= bound
  }

  // ----- the controller ----------------------------------------------------------------------------

  datatype Config = Config(
    kPos: real, maxDelta: real, graspZOff: real, pregraspZOff: real, liftDx: real, liftDz: real,
    rackAboveDz: real, rackPlaceDz: real, closeSteps: int, releaseSteps: int, stateTimeout: int,
    compMax: real, placeSteps: int, slowFactor: real)

  datatype Phase = Pregrasp | Approach | Close | Lift | AboveRack | Place | Release | Retreat

  function Rank(p: Phase): nat {
    match p
    case Pregrasp => 0
    case Approach => 1
    case Close => 2
    case Lift => 3
    case AboveRack => 4
    case Place => 5
    case Release => 6
    case Retreat => 7
  }

  predicate Early(p: Phase) {
    Rank(p) < 4
  }

  /** What the simulator shows before a step, and whether the task is done after it. */
  datatype Observation = Observation(bottle: Vec, rack: Vec, eef: Vec, success: bool)

  /** The state of an episode between two steps. */
  datatype Control = Control(phase: Phase, t: nat, grasp: Option<Vec>, comp: Vec, adjust: nat)

  datatype Frame = Frame(phase: Phase, delta: Vec, gripper: real)

  const START := Control(Pregrasp, 0, None, ZERO, 0)

  function Target(cfg: Config, s: Control, o: Observation): Vec {
    match s.phase
    case Pregrasp => Plus(o.bottle, Vec(0.0, 0.0, cfg.pregraspZOff))
    case Approach => Plus(o.bottle, Vec(0.0, 0.0, cfg.graspZOff))
    case Close => o.eef
    case Lift => Plus(if s.grasp.Some? then s.grasp.value else o.eef, Vec(cfg.liftDx, 0.0, cfg.liftDz))
    case AboveRack => Plus(o.rack, Vec(0.0, 0.0, cfg.rackAboveDz))
    case Place => Plus(o.rack, Vec(0.0, 0.0, cfg.rackPlaceDz))
    case Release => o.eef
    case Retreat => Plus(o.eef, Vec(0.0, 0.0, 0.10))
  }

  function Gripper(p: Phase): real {
    if p in {Close, Lift, AboveRack, Place} then -1.0 else 1.0
  }

  function Goal(cfg: Config, s: Control, o: Observation): Vec {
    Plus(Target(cfg, s, o), s.comp)
  }

  function Compensated(cfg: Config, s: Control, shortfall: Vec): Control {
    s.(comp := ClipVec(Plus(s.comp, Scaled(shortfall, 0.8)), cfg.compMax), adjust := s.adjust + 1, t := 0)
  }

  /** The transition at the start of a step. */
  function Transition(cfg: Config, s: Control, o: Observation): Control {
    var goal := Goal(cfg, s, o);
    match s.phase
    case Pregrasp => if Within(o.eef, goal, 0.03) then s.(phase := Approach, t := 0) else s
    case Approach =>
      if Within(o.eef, goal, 0.015) then s.(phase := Close, t := 0, grasp := Some(o.eef)) else s
    case Close => if s.t >= cfg.closeSteps then s.(phase := Lift, t := 0, grasp := Some(o.eef)) else s
    case Lift => if Within(o.eef, goal, 0.03) then s.(phase := AboveRack, t := 0) else s
    case AboveRack =>
      if Within(o.eef, goal, 0.03) then s.(phase := Place, t := 0)
      else if s.t >= cfg.stateTimeout / 2 && s.adjust < 3 then Compensated(cfg, s, Minus(goal, o.eef))
      else s
    case Place => if Within(o.eef, goal, 0.02) || s.t >= cfg.placeSteps then s.(phase := Release, t := 0) else s
    case Release => if s.t >= cfg.releaseSteps then s.(phase := Retreat, t := 0) else s
    case Retreat => s
  }

  /** The timeout of the phases up to the lift. */
  predicate TimedOut(cfg: Config, s: Control) {
    Early(s.phase) && s.t >= cfg.stateTimeout
  }

  predicate MayAdjust(s: Control, shortfall: Vec) {
    SquaredNorm(shortfall) > 0.005 * 0.005 && s.adjust < 4
  }

  datatype Decision = GiveUp | Act(next: Control, frame: Frame)

  function ServoAxis(cfg: Config, error: real, scale: real): real {
    Clip(cfg.kPos * error * scale, -cfg.maxDelta, cfg.maxDelta)
  }

  function Servo(cfg: Config, current: Vec, goal: Vec, scale: real): Vec {
    var e := Minus(goal, current);
    Vec(ServoAxis(cfg, e.x, scale), ServoAxis(cfg, e.y, scale), ServoAxis(cfg, e.z, scale))
  }

  /** One whole step: transition, timeout, action. The goal is the one computed before the transition. */
  function Step(cfg: Config, s: Control, o: Observation): Decision {
    var goal := Goal(cfg, s, o);
    var moved := Transition(cfg, s, o);
    var shortfall := Minus(goal, o.eef);
    if TimedOut(cfg, moved) && !MayAdjust(moved, shortfall) then GiveUp
    else
      var settled := if TimedOut(cfg, moved) then Compensated(cfg, moved, shortfall) else moved;
      var scale := if settled.phase in {Lift, AboveRack, Place} then cfg.slowFactor else 1.0;
      Act(settled.(t := settled.t + 1),
          Frame(settled.phase, Servo(cfg, o.eef, goal, scale), Gripper(s.phase)))
  }

  /** The episode from a state on; `observations` is as long as the step limit. */
  function Episode(cfg: Config, s: Control, observations: seq<Observation>): (r: (bool, seq<Frame>, Control))
    decreases |observations|
  {
    if observations == [] then (false, [], s)
    else
      match Step(cfg, s, observations[0])
      case GiveUp => (false, [], s)
      case Act(next, frame) =>
        if observations[0].success then (true, [frame], next)
        else
          var rest := Episode(cfg, next, observations[1..]);
          (rest.0, [frame] + rest.1, rest.2)
  }

  // ----- one step --------------------------------------------------------------------------------

  lemma ClipBounds(x: real, bound: real)
    requires bound >= 0.0
    ensures -bound <= Clip(x, -bound, bound) <= bound
    ensures -bound <= x <= bound ==> Clip(x, -bound, bound) == x
    ensures x >= 0.0 ==> Clip(x, -bound, bound) >= 0.0
    ensures x <= 0.0 ==> Clip(x, -bound, bound) <= 0.0
  {
  }

  lemma SameSign(d: real, k: real, scale: real)
    requires k >= 0.0 && scale >= 0.0
    ensures d >= 0.0 ==> k * d * scale >= 0.0
    ensures d <= 0.0 ==> k * d * scale <= 0.0
  {
    var g := k * d;
    assert d >= 0.0 ==> g >= 0.0;
    assert d <= 0.0 ==> g <= 0.0;
  }

  lemma AxisIsSafe(cfg: Config, error: real, scale: real)
    requires cfg.maxDelta >= 0.0 && cfg.kPos >= 0.0 && scale >= 0.0
    ensures -cfg.maxDelta <= ServoAxis(cfg, error, scale) <= cfg.maxDelta
    ensures error >= 0.0 ==> ServoAxis(cfg, error, scale) >= 0.0
    ensures error <= 0.0 ==> ServoAxis(cfg, error, scale) <= 0.0
  {
    SameSign(error, cfg.kPos, scale);
    ClipBounds(cfg.kPos * error * scale, cfg.maxDelta);
  }

  /** Every commanded move stays within the clip and never points away from the goal in any coordinate. */
  lemma ServoIsSafe(cfg: Config, current: Vec, goal: Vec, scale: real)
    requires cfg.maxDelta >= 0.0 && cfg.kPos >= 0.0 && scale >= 0.0
    ensures var d := Servo(cfg, current, goal, scale);
            && Bounded(d, cfg.maxDelta)
            && (goal.x >= current.x ==> d.x >= 0.0) && (goal.x <= current.x ==> d.x <= 0.0)
            && (goal.y >= current.y ==> d.y >= 0.0) && (goal.y <= current.y ==> d.y <= 0.0)
            && (goal.z >= current.z ==> d.z >= 0.0) && (goal.z <= current.z ==> d.z <= 0.0)
  {
    hide ServoAxis;
    AxisIsSafe(cfg, goal.x - current.x, scale);
    AxisIsSafe(cfg, goal.y - current.y, scale);
    AxisIsSafe(cfg, goal.z - current.z, scale);
  }

  // ----- whole episodes --------------------------------------------------------------------------

  function CountEarly(frames: seq<Frame>): nat {
    if frames == [] then 0 else (if Early(frames[0].phase) then 1 else 0) + CountEarly(frames[1..])
  }

  function Count(frames: seq<Frame>, p: Phase): nat {
    if frames == [] then 0 else (if frames[0].phase == p then 1 else 0) + Count(frames[1..], p)
  }

  ghost predicate Compensation(cfg: Config, s: Control) {
    s.adjust <= 4 && Bounded(s.comp, cfg.compMax)
  }

  lemma CompensationKept(cfg: Config, s: Control, shortfall: Vec)
    requires cfg.compMax >= 0.0 && s.adjust < 4
    ensures Compensation(cfg, Compensated(cfg, s, shortfall))
  {
    var c := Plus(s.comp, Scaled(shortfall, 0.8));
    ClipBounds(c.x, cfg.compMax);
    ClipBounds(c.y, cfg.compMax);
    ClipBounds(c.z, cfg.compMax);
  }

  lemma TransitionKeepsCompensation(cfg: Config, s: Control, o: Observation)
    requires cfg.compMax >= 0.0 && Compensation(cfg, s)
    ensures Compensation(cfg, Transition(cfg, s, o))
  {
    if s.adjust < 4 { CompensationKept(cfg, s, Minus(Goal(cfg, s, o), o.eef)); }
    hide Within, ClipVec, Goal;
  }

  lemma StepKeepsCompensation(cfg: Config, s: Control, o: Observation)
    requires cfg.compMax >= 0.0 && Compensation(cfg, s)
    ensures Step(cfg, s, o).Act? ==> Compensation(cfg, Step(cfg, s, o).next)
    ensures Step(cfg, s, o).Act? ==> s.adjust <= Step(cfg, s, o).next.adjust
  {
    var goal, moved := Goal(cfg, s, o), Transition(cfg, s, o);
    if s.adjust < 4 { CompensationKept(cfg, s, Minus(goal, o.eef)); }
    if moved.adjust < 4 { CompensationKept(cfg, moved, Minus(goal, o.eef)); }
    hide Compensation, Within, ClipVec, Servo, Goal;
  }

  /** The compensation is adjusted at most four times and never leaves its box, whatever is observed. */
  lemma {:induction false} CompensationStaysBounded(cfg: Config, s: Control, observations: seq<Observation>)
    requires cfg.compMax >= 0.0 && Compensation(cfg, s)
    ensures Compensation(cfg, Episode(cfg, s, observations).2)
    decreases |observations|
  {
    if observations != [] {
      StepKeepsCompensation(cfg, s, observations[0]);
      hide Step, Compensation;
      var d := Step(cfg, s, observations[0]);
      if d.Act? { CompensationStaysBounded(cfg, d.next, observations[1..]); }
    }
  }

  lemma StartIsCompensated(cfg: Config)
    ensures cfg.compMax >= 0.0 ==> Compensation(cfg, START)
  {
  }

  /** A step stays in its phase or moves to the next one. */
  lemma StepMovesOn(cfg: Config, s: Control, o: Observation)
    ensures var d := Step(cfg, s, o);
            d.Act? ==> d.frame.phase == d.next.phase && Rank(s.phase) <= Rank(d.next.phase) <= Rank(s.phase) + 1
  {
    hide Within, ClipVec, Servo, Goal;
  }

  /** The recorded phases never go back, and never skip one. */
  lemma {:induction false} PhasesNeverGoBack(cfg: Config, s: Control, observations: seq<Observation>)
    ensures var frames := Episode(cfg, s, observations).1;
            && (frames != [] ==> Rank(s.phase) <= Rank(frames[0].phase) <= Rank(s.phase) + 1)
            && (forall i :: 0 < i < |frames| ==>
                  Rank(frames[i - 1].phase) <= Rank(frames[i].phase) <= Rank(frames[i - 1].phase) + 1)
    decreases |observations|
  {
    if observations != [] {
      StepMovesOn(cfg, s, observations[0]);
      hide Step, Rank;
      var d := Step(cfg, s, observations[0]);
      if d.Act? { PhasesNeverGoBack(cfg, d.next, observations[1..]); }
    }
  }

  // ----- how long the phases last ------------------------------------------------------------------

  function Positive(n: int): nat {
    if n > 0 then n else 0
  }

  /** k timeouts. */
  function Timeouts(k: nat, timeout: nat): nat {
    k * timeout
  }

  /**
    An upper bound on the steps still to come in the phases up to the lift: what is left of the current
    wait, and one more wait for every later phase and every adjustment left.
   */
  function EarlyBudget(cfg: Config, s: Control): nat {
    if !Early(s.phase) || s.adjust > 4 then 0
    else if cfg.stateTimeout <= 0 then 4 - s.adjust
    else Positive(cfg.stateTimeout - s.t) + Timeouts(7 - Rank(s.phase) - s.adjust, cfg.stateTimeout)
  }

  lemma OneTimeoutLess(k: nat, timeout: nat)
    requires k > 0
    ensures Timeouts(k, timeout) == Timeouts(k - 1, timeout) + timeout
  {
    Arithmetic.Distribute(k - 1, timeout);
  }

  /** Before every step of the early phases the timer is at most the timeout. */
  predicate TimerInRange(cfg: Config, s: Control) {
    s.adjust <= 4 && (Early(s.phase) ==> s.t <= Positive(cfg.stateTimeout) || cfg.stateTimeout <= 0)
  }

  lemma StepSpendsEarly(cfg: Config, s: Control, o: Observation)
    requires TimerInRange(cfg, s)
    ensures var d := Step(cfg, s, o);
            d.Act? ==> TimerInRange(cfg, d.next)
                       && (Early(d.frame.phase) ==> EarlyBudget(cfg, d.next) + 1 <= EarlyBudget(cfg, s))
                       && EarlyBudget(cfg, d.next) <= EarlyBudget(cfg, s)
  {
    hide Within, ClipVec, Servo, Goal, Timeouts;
    if Early(s.phase) && s.adjust <= 4 && cfg.stateTimeout > 0 {
      if 7 - Rank(s.phase) - s.adjust > 0 { OneTimeoutLess(7 - Rank(s.phase) - s.adjust, cfg.stateTimeout); }
      if 6 - Rank(s.phase) - s.adjust > 0 { OneTimeoutLess(6 - Rank(s.phase) - s.adjust, cfg.stateTimeout); }
    }
  }

  lemma {:induction false} EarlyStepsFrom(cfg: Config, s: Control, observations: seq<Observation>)
    requires TimerInRange(cfg, s)
    ensures CountEarly(Episode(cfg, s, observations).1) <= EarlyBudget(cfg, s)
    decreases |observations|
  {
    if observations != [] {
      var d := Step(cfg, s, observations[0]);
      StepSpendsEarly(cfg, s, observations[0]);
      hide Step, EarlyBudget, TimerInRange;
      if d.Act? {
        EarlyStepsFrom(cfg, d.next, observations[1..]);
        var rest := Episode(cfg, d.next, observations[1..]).1;
        assert ([d.frame] + rest)[1..] == rest;
        assert [d.frame][1..] == [];
      }
    }
  }

  /**
    Whatever is observed, at most eight timeouts' worth of steps pass before the carry: one for
    each of the four phases and each of the four adjustments. A timeout of zero or less leaves four.
   */
  lemma EarlyPhasesAreBounded(cfg: Config, observations: seq<Observation>)
    ensures CountEarly(Episode(cfg, START, observations).1)
         <= if cfg.stateTimeout > 0 then 8 * cfg.stateTimeout else 4
  {
    EarlyStepsFrom(cfg, START, observations);
  }

  function AtLeastOne(n: int): nat {
    if n > 1 then n else 1
  }

  /** An upper bound on the steps still to come in a phase that ends by its timer. */
  function TimedBudget(limit: int, s: Control, p: Phase): nat {
    if Rank(s.phase) > Rank(p) then 0
    else if Rank(s.phase) == Rank(p) then Positive(limit - s.t)
    else AtLeastOne(limit)
  }

  lemma StepSpendsTimed(cfg: Config, s: Control, o: Observation, p: Phase)
    requires p == Place || p == Release
    ensures var d, limit := Step(cfg, s, o), if p == Place then cfg.placeSteps else cfg.releaseSteps;
            d.Act? ==> TimedBudget(limit, d.next, p) + (if d.frame.phase == p then 1 else 0) <= TimedBudget(limit, s, p)
  {
    hide Within, ClipVec, Servo, Goal;
  }

  /** The descent and the release end by themselves: each lasts at most its configured number of steps. */
  lemma {:induction false} TimedPhaseIsBounded(cfg: Config, s: Control, observations: seq<Observation>, p: Phase)
    requires p == Place || p == Release
    ensures Count(Episode(cfg, s, observations).1, p)
         <= TimedBudget(if p == Place then cfg.placeSteps else cfg.releaseSteps, s, p)
    decreases |observations|
  {
    if observations != [] {
      var d := Step(cfg, s, observations[0]);
      StepSpendsTimed(cfg, s, observations[0], p);
      hide Step, TimedBudget;
      if d.Act? {
        TimedPhaseIsBounded(cfg, d.next, observations[1..], p);
        var rest := Episode(cfg, d.next, observations[1..]).1;
        assert ([d.frame] + rest)[1..] == rest;
        assert [d.frame][1..] == [];
      }
    }
  }

  // ----- the wait above the rack --------------------------------------------------------------------

  /** The carry is left exactly when the goal is reached; the timer only triggers adjustments. */
  lemma AboveRackLeavesOnlyAtGoal(cfg: Config, s: Control, o: Observation)
    requires s.phase == AboveRack
    ensures Step(cfg, s, o).Act?
    ensures Step(cfg, s, o).next.phase == if Within(o.eef, Goal(cfg, s, o), 0.03) then Place else AboveRack
  {
    hide Within, ClipVec, Servo, Goal;
  }

  /** The state of the controller after the first n observations. */
  function StateAfter(cfg: Config, s: Control, observations: seq<Observation>, n: nat): Control
    requires n <= |observations|
    decreases n
  {
    if n == 0 then s
    else
      var d := Step(cfg, s, observations[0]);
      StateAfter(cfg, if d.Act? then d.next else s, observations[1..], n - 1)
  }

  /** At observation n the arm is at the goal of that moment, compensation included. */
  predicate AtGoalAt(cfg: Config, s: Control, observations: seq<Observation>, n: nat)
    requires n < |observations|
  {
    Within(observations[n].eef, Goal(cfg, StateAfter(cfg, s, observations, n), observations[n]), 0.03)
  }

  /** The wait above the rack is over at observation n: goal reached, task done, or no step left. */
  predicate WaitEnds(cfg: Config, s: Control, observations: seq<Observation>, n: nat)
    requires n <= |observations|
  {
    n == |observations| || (n > 0 && observations[n - 1].success) || AtGoalAt(cfg, s, observations, n)
  }

  lemma WaitShifts(cfg: Config, s: Control, observations: seq<Observation>, n: nat)
    requires 0 < n <= |observations| && Step(cfg, s, observations[0]).Act? && !observations[0].success
    ensures WaitEnds(cfg, s, observations, n)
        <==> WaitEnds(cfg, Step(cfg, s, observations[0]).next, observations[1..], n - 1)
  {
    hide Step, Within, Goal;
  }

  lemma WaitsOneMore(cfg: Config, s: Control, observations: seq<Observation>)
    requires s.phase == AboveRack && observations != []
    ensures Step(cfg, s, observations[0]).Act?
    ensures var d := Step(cfg, s, observations[0]);
            if AtGoalAt(cfg, s, observations, 0) then d.next.phase == Place && d.frame.phase == Place
            else d.next.phase == AboveRack && d.frame.phase == AboveRack
  {
    AboveRackLeavesOnlyAtGoal(cfg, s, observations[0]);
    StepMovesOn(cfg, s, observations[0]);
    hide Step, Within, Goal;
  }

  /** Once the carry is over no frame is recorded above the rack. */
  lemma {:induction false} NoFrameAfter(cfg: Config, s: Control, observations: seq<Observation>)
    requires Rank(s.phase) > Rank(AboveRack)
    ensures Count(Episode(cfg, s, observations).1, AboveRack) == 0
    decreases |observations|
  {
    EpisodeUnfolds(cfg, s, observations);
    if observations != [] {
      StepMovesOn(cfg, s, observations[0]);
      hide Step, Episode;
      var d := Step(cfg, s, observations[0]);
      if d.Act? {
        NoFrameAfter(cfg, d.next, observations[1..]);
        CountCons(d.frame, [], AboveRack);
        CountCons(d.frame, Episode(cfg, d.next, observations[1..]).1, AboveRack);
      }
    }
  }

  lemma CountCons(frame: Frame, rest: seq<Frame>, p: Phase)
    ensures Count([frame] + rest, p) == (if frame.phase == p then 1 else 0) + Count(rest, p)
    ensures [frame] + [] == [frame] && Count([], p) == 0
  {
    assert ([frame] + rest)[1..] == rest;
  }

  /**
    How long the expert waits above the rack, exactly: at most n steps if and only if at one of the
    first n + 1 observations the arm is at the compensated goal of that moment, or the episode has ended.
   */
  lemma {:induction false} WaitAboveRackIff(cfg: Config, s: Control, observations: seq<Observation>, n: nat)
    requires s.phase == AboveRack
    ensures Count(Episode(cfg, s, observations).1, AboveRack) <= n
        <==> exists i: nat :: i <= n && i <= |observations| && WaitEnds(cfg, s, observations, i)
    decreases |observations|
  {
    var frames := Episode(cfg, s, observations).1;
    EpisodeUnfolds(cfg, s, observations);
    if observations == [] {
      assert WaitEnds(cfg, s, observations, 0);
    } else {
      WaitsOneMore(cfg, s, observations);
      var d, tail := Step(cfg, s, observations[0]), observations[1..];
      CountCons(d.frame, [], AboveRack);
      CountCons(d.frame, Episode(cfg, d.next, tail).1, AboveRack);
      hide Step, Episode, AtGoalAt, Count;
      if AtGoalAt(cfg, s, observations, 0) {
        NoFrameAfter(cfg, d.next, tail);
        assert WaitEnds(cfg, s, observations, 0);
      } else if observations[0].success {
        assert WaitEnds(cfg, s, observations, 1) && !WaitEnds(cfg, s, observations, 0);
      } else {
        assert !WaitEnds(cfg, s, observations, 0);
        WaitRest(cfg, s, observations, n);
      }
    }
  }

  /** The step of the proof in which the wait goes on. */
  lemma WaitRest(cfg: Config, s: Control, observations: seq<Observation>, n: nat)
    requires s.phase == AboveRack && observations != [] && !observations[0].success
    requires !WaitEnds(cfg, s, observations, 0)
    ensures Count(Episode(cfg, s, observations).1, AboveRack) <= n
        <==> exists i: nat :: i <= n && i <= |observations| && WaitEnds(cfg, s, observations, i)
    decreases |observations|, 0
  {
    assert !AtGoalAt(cfg, s, observations, 0);
    WaitsOneMore(cfg, s, observations);
    EpisodeUnfolds(cfg, s, observations);
    var d, tail := Step(cfg, s, observations[0]), observations[1..];
    CountCons(d.frame, Episode(cfg, d.next, tail).1, AboveRack);
    hide Step, Episode, AtGoalAt, Count, WaitEnds;
    forall i: nat | 0 < i <= |observations|
      ensures WaitEnds(cfg, s, observations, i) <==> WaitEnds(cfg, d.next, tail, i - 1)
    {
      WaitShifts(cfg, s, observations, i);
    }
    if n > 0 {
      WaitAboveRackIff(cfg, d.next, tail, n - 1);
      if i: nat :| i <= n - 1 && i <= |tail| && WaitEnds(cfg, d.next, tail, i) {
        assert WaitEnds(cfg, s, observations, i + 1);
      }
      if i: nat :| i <= n && i <= |observations| && WaitEnds(cfg, s, observations, i) {
        assert i > 0 && WaitEnds(cfg, d.next, tail, i - 1);
      }
    }
  }

  /** An arm held off the rack by more than the compensation can make up. */
  function HeldOff(cfg: Config): Observation {
    Observation(ZERO, ZERO, Vec(cfg.compMax + 1.0, 0.0, 0.0), false)
  }

  lemma HeldOffIsFar(cfg: Config, s: Control)
    requires cfg.compMax >= 0.0 && s.phase == AboveRack && Compensation(cfg, s)
    ensures !Within(HeldOff(cfg).eef, Goal(cfg, s, HeldOff(cfg)), 0.03)
  {
    var gap := Minus(HeldOff(cfg).eef, Goal(cfg, s, HeldOff(cfg)));
    assert gap.x >= 1.0;
    FarInOneAxis(gap);
  }

  lemma SquareAtLeast(x: real)
    ensures x * x >= 0.0
    ensures x >= 1.0 ==> x * x >= 1.0
  {
  }

  lemma FarInOneAxis(v: Vec)
    requires v.x >= 1.0
    ensures SquaredNorm(v) >= 1.0
  {
    SquareAtLeast(v.x);
    SquareAtLeast(v.y);
    SquareAtLeast(v.z);
  }

  function Copies(o: Observation, n: nat): (r: seq<Observation>)
    ensures |r| == n
  {
    if n == 0 then [] else [o] + Copies(o, n - 1)
  }

  /** How an episode goes on after a step that does not end it. */
  lemma EpisodeGoesOn(cfg: Config, s: Control, o: Observation, rest: seq<Observation>, p: Phase)
    requires Step(cfg, s, o).Act? && !o.success
    ensures var d := Step(cfg, s, o);
            var e, r := Episode(cfg, s, [o] + rest), Episode(cfg, d.next, rest);
            && e == (r.0, [d.frame] + r.1, r.2)
            && Count(e.1, p) == (if d.frame.phase == p then 1 else 0) + Count(r.1, p)
  {
    assert ([o] + rest)[1..] == rest;
    var r := Episode(cfg, Step(cfg, s, o).next, rest);
    assert ([Step(cfg, s, o).frame] + r.1)[1..] == r.1;
  }

  lemma HeldOffStep(cfg: Config, s: Control)
    requires cfg.compMax >= 0.0 && s.phase == AboveRack && Compensation(cfg, s)
    ensures var d := Step(cfg, s, HeldOff(cfg));
            && !HeldOff(cfg).success && d.Act?
            && d.frame.phase == d.next.phase == AboveRack && Compensation(cfg, d.next)
  {
    hide Step, Compensation, Within;
    HeldOffIsFar(cfg, s);
    StepKeepsCompensation(cfg, s, HeldOff(cfg));
    AboveRackLeavesOnlyAtGoal(cfg, s, HeldOff(cfg));
    StepMovesOn(cfg, s, HeldOff(cfg));
  }

  /**
    There is no bound on the wait above the rack: held off the goal, the expert stays in that phase
    for every number of steps, also after its adjustments are used up.
   */
  lemma {:induction false} AboveRackMayWaitForever(cfg: Config, s: Control, n: nat)
    requires cfg.compMax >= 0.0 && s.phase == AboveRack && Compensation(cfg, s)
    ensures var e := Episode(cfg, s, Copies(HeldOff(cfg), n));
            e.0 == false && |e.1| == n && Count(e.1, AboveRack) == n && e.2.phase == AboveRack
    decreases n
  {
    if n > 0 {
      var o := HeldOff(cfg);
      HeldOffStep(cfg, s);
      EpisodeGoesOn(cfg, s, o, Copies(o, n - 1), AboveRack);
      assert Copies(o, n) == [o] + Copies(o, n - 1);
      hide *;
      AboveRackMayWaitForever(cfg, Step(cfg, s, o).next, n - 1);
    }
  }

  lemma AtGoal(a: Vec)
    ensures Within(a, a, 0.03) && Within(a, a, 0.015)
  {
    assert Minus(a, a) == ZERO && SquaredNorm(ZERO) == 0.0;
  }

  lemma StepBefore(cfg: Config, s: Control, o: Observation, next: Control, rest: seq<Observation>, n: nat)
    requires Step(cfg, s, o).Act? && Step(cfg, s, o).next == next && !o.success
    requires Count(Episode(cfg, next, rest).1, AboveRack) >= n
    ensures Count(Episode(cfg, s, [o] + rest).1, AboveRack) >= n
  {
    hide *;
    EpisodeGoesOn(cfg, s, o, rest, AboveRack);
  }

  const AT_REST := Observation(ZERO, ZERO, ZERO, false)

  /** A step of closing the gripper, before and after its time is up. */
  lemma CloseStep(cfg: Config, s: Control)
    requires 0 < cfg.stateTimeout && cfg.closeSteps <= cfg.stateTimeout && s.phase == Close
    ensures Step(cfg, s, AT_REST).Act?
    ensures Step(cfg, s, AT_REST).next
         == if s.t >= cfg.closeSteps then s.(phase := Lift, t := 1, grasp := Some(ZERO)) else s.(t := s.t + 1)
  {
    hide Within, Goal, Servo;
  }

  function Lifted(cfg: Config): Observation {
    Observation(ZERO, ZERO, Vec(cfg.liftDx, 0.0, cfg.liftDz), false)
  }

  lemma LiftedShape(cfg: Config)
    ensures !Lifted(cfg).success && !AT_REST.success
  {
  }

  lemma LiftStep(cfg: Config, s: Control)
    requires 0 < cfg.stateTimeout && s.phase == Lift && s.grasp == Some(ZERO) && s.comp == ZERO
    ensures Step(cfg, s, Lifted(cfg)).Act?
    ensures Step(cfg, s, Lifted(cfg)).next == s.(phase := AboveRack, t := 1)
  {
    assert Goal(cfg, s, Lifted(cfg)) == Lifted(cfg).eef;
    AtGoal(Lifted(cfg).eef);
    hide Within, Goal, Servo;
  }

  lemma FromLift(cfg: Config, s: Control, n: nat) returns (observations: seq<Observation>)
    requires cfg.compMax >= 0.0 && 0 < cfg.stateTimeout
    requires s.phase == Lift && s.grasp == Some(ZERO) && s.comp == ZERO && s.adjust == 0
    ensures Count(Episode(cfg, s, observations).1, AboveRack) >= n
  {
    LiftStep(cfg, s);
    LiftedShape(cfg);
    var next := s.(phase := AboveRack, t := 1);
    assert Compensation(cfg, next);
    hide *;
    AboveRackMayWaitForever(cfg, next, n);
    StepBefore(cfg, s, Lifted(cfg), next, Copies(HeldOff(cfg), n), n);
    observations := [Lifted(cfg)] + Copies(HeldOff(cfg), n);
  }

  lemma FromCloseEnd(cfg: Config, s: Control, n: nat) returns (observations: seq<Observation>)
    requires cfg.compMax >= 0.0 && 0 < cfg.stateTimeout && cfg.closeSteps <= cfg.stateTimeout
    requires s.phase == Close && s.comp == ZERO && s.adjust == 0 && s.t >= cfg.closeSteps
    ensures Count(Episode(cfg, s, observations).1, AboveRack) >= n
  {
    CloseStep(cfg, s);
    LiftedShape(cfg);
    hide *;
    var next := s.(phase := Lift, t := 1, grasp := Some(ZERO));
    var rest := FromLift(cfg, next, n);
    StepBefore(cfg, s, AT_REST, next, rest, n);
    observations := [AT_REST] + rest;
  }

  lemma {:induction false} FromClose(cfg: Config, s: Control, n: nat) returns (observations: seq<Observation>)
    requires cfg.compMax >= 0.0 && 0 < cfg.stateTimeout && cfg.closeSteps <= cfg.stateTimeout
    requires s.phase == Close && s.comp == ZERO && s.adjust == 0
    ensures Count(Episode(cfg, s, observations).1, AboveRack) >= n
    decreases cfg.closeSteps - s.t
  {
    hide *;
    if s.t >= cfg.closeSteps {
      observations := FromCloseEnd(cfg, s, n);
    } else {
      CloseStep(cfg, s);
      LiftedShape(cfg);
      var next := s.(t := s.t + 1);
      var rest := FromClose(cfg, next, n);
      StepBefore(cfg, s, AT_REST, next, rest, n);
      observations := [AT_REST] + rest;
    }
  }

  /** From the start of an episode: for every n some observations keep the expert above the rack for n steps. */
  lemma NoBoundAboveRack(cfg: Config, n: nat) returns (observations: seq<Observation>)
    requires cfg.compMax >= 0.0 && 0 < cfg.stateTimeout && cfg.closeSteps <= cfg.stateTimeout
    ensures Count(Episode(cfg, START, observations).1, AboveRack) >= n
  {
    var first := Observation(ZERO, ZERO, Vec(0.0, 0.0, cfg.pregraspZOff), false);
    var second := Observation(ZERO, ZERO, Vec(0.0, 0.0, cfg.graspZOff), false);
    AtGoal(first.eef);
    assert Goal(cfg, START, first) == first.eef;
    var d := Step(cfg, START, first);
    AtGoal(second.eef);
    assert Goal(cfg, d.next, second) == second.eef;
    var d' := Step(cfg, d.next, second);
    var rest := FromClose(cfg, d'.next, n);
    StepBefore(cfg, d.next, second, d'.next, rest, n);
    StepBefore(cfg, START, first, d.next, [second] + rest, n);
    observations := [first] + ([second] + rest);
  }

  lemma EpisodeUnfolds(cfg: Config, s: Control, observations: seq<Observation>)
    ensures observations == [] ==> Episode(cfg, s, observations) == (false, [], s)
    ensures observations != [] ==>
              var d, e := Step(cfg, s, observations[0]), Episode(cfg, s, observations);
              && (d.GiveUp? ==> e == (false, [], s))
              && (d.Act? && observations[0].success ==> e == (true, [d.frame], d.next))
              && (d.Act? && !observations[0].success ==>
                    var rest := Episode(cfg, d.next, observations[1..]);
                    e == (rest.0, [d.frame] + rest.1, rest.2))
  {
  }

  // ----- the expert as an object -----------------------------------------------------------------

  class WineRackExpert {
    const cfg: Config
    var comp: Vec
    var compAdjust: nat

    constructor (cfg: Config)
      ensures this.cfg == cfg && comp == ZERO
    {
      this.cfg, comp, compAdjust := cfg, ZERO, 0;
    }

    function Here(state: Phase, tState: nat, grasp: Option<Vec>): Control
      reads this
    {
      Control(state, tState, grasp, comp, compAdjust)
    }

    method Compensate(shortfall: Vec)
      modifies this
      ensures comp == ClipVec(Plus(old(comp), Scaled(shortfall, 0.8)), cfg.compMax)
      ensures compAdjust == old(compAdjust) + 1
    {
      comp := ClipVec(Plus(comp, Scaled(shortfall, 0.8)), cfg.compMax);
      compAdjust := compAdjust + 1;
    }

    /** The chain of transitions at the start of a step. */
    method Move(state: Phase, tState: nat, grasp: Option<Vec>, o: Observation, goal: Vec)
      returns (state': Phase, tState': nat, grasp': Option<Vec>)
      requires goal == Goal(cfg, Here(state, tState, grasp), o)
      modifies this
      ensures Here(state', tState', grasp') == Transition(cfg, old(Here(state, tState, grasp)), o)
    {
      hide Within, ClipVec, Goal;
      state', tState', grasp' := state, tState, grasp;
      if state == Pregrasp {
        if Within(o.eef, goal, 0.03) { state', tState' := Approach, 0; }
      } else if state == Approach {
        if Within(o.eef, goal, 0.015) {
          state', tState' := Close, 0;
          grasp' := Some(o.eef);
        }
      } else if state == Close {
        if tState >= cfg.closeSteps {
          state', tState' := Lift, 0;
          grasp' := Some(o.eef);
        }
      } else if state == Lift {
        if Within(o.eef, goal, 0.03) { state', tState' := AboveRack, 0; }
      } else if state == AboveRack {
        if Within(o.eef, goal, 0.03) {
          state', tState' := Place, 0;
        } else if tState >= cfg.stateTimeout / 2 && compAdjust < 3 {
          Compensate(Minus(goal, o.eef));
          tState' := 0;
        }
      } else if state == Place {
        if Within(o.eef, goal, 0.02) || tState >= cfg.placeSteps { state', tState' := Release, 0; }
      } else if state == Release {
        if tState >= cfg.releaseSteps { state', tState' := Retreat, 0; }
      }
    }

    /** The timeout of the early phases: adjust once more, or give up. */
    method Settle(state: Phase, tState: nat, grasp: Option<Vec>, shortfall: Vec) returns (gaveUp: bool, tState': nat)
      modifies this
      ensures var s := old(Here(state, tState, grasp));
              && gaveUp == (TimedOut(cfg, s) && !MayAdjust(s, shortfall))
              && (gaveUp ==> Here(state, tState', grasp) == s)
              && (!gaveUp ==> Here(state, tState', grasp)
                              == if TimedOut(cfg, s) then Compensated(cfg, s, shortfall) else s)
    {
      hide SquaredNorm, ClipVec;
      tState' := tState;
      if state in {Pregrasp, Approach, Close, Lift} && tState >= cfg.stateTimeout {
        if SquaredNorm(shortfall) > 0.005 * 0.005 && compAdjust < 4 {
          Compensate(shortfall);
          tState' := 0;
        } else {
          return true, tState;
        }
      }
      return false, tState';
    }

    /** The body of the episode's loop. */
    method StepOnce(state: Phase, tState: nat, grasp: Option<Vec>, o: Observation)
      returns (gaveUp: bool, state': Phase, tState': nat, grasp': Option<Vec>, frame: Frame)
      modifies this
      ensures gaveUp <==> Step(cfg, old(Here(state, tState, grasp)), o).GiveUp?
      ensures !gaveUp ==> Step(cfg, old(Here(state, tState, grasp)), o) == Act(Here(state', tState', grasp'), frame)
      ensures cfg.compMax >= 0.0 && Compensation(cfg, old(Here(state, tState, grasp)))
              ==> Compensation(cfg, Here(state', tState', grasp'))
    {
      if cfg.compMax >= 0.0 && Compensation(cfg, Here(state, tState, grasp)) {
        TransitionKeepsCompensation(cfg, Here(state, tState, grasp), o);
        StepKeepsCompensation(cfg, Here(state, tState, grasp), o);
      }
      hide Goal, Transition, Servo, Compensated, TimedOut, MayAdjust, Bounded;
      var goal := Goal(cfg, Here(state, tState, grasp), o);
      var gripper := Gripper(state);
      state', tState', grasp' := Move(state, tState, grasp, o, goal);
      gaveUp, tState' := Settle(state', tState', grasp', Minus(goal, o.eef));
      var scale := if state' in {Lift, AboveRack, Place} then cfg.slowFactor else 1.0;
      frame := Frame(state', Servo(cfg, o.eef, goal, scale), gripper);
      if !gaveUp {
        tState' := tState' + 1;
      }
    }

    /** One episode over the positions that the environment shows, at most one step for each. */
    method Rollout(observations: seq<Observation>) returns (success: bool, frames: seq<Frame>)
      modifies this
      ensures (success, frames) == (Episode(cfg, START, observations).0, Episode(cfg, START, observations).1)
      ensures cfg.compMax >= 0.0 ==> compAdjust <= 4 && Bounded(comp, cfg.compMax)
    {
      hide Step, Transition, Bounded, Episode;
      StartIsCompensated(cfg);
      comp, compAdjust := ZERO, 0;
      frames := [];
      var state, tState, grasp := Pregrasp, 0, None;
      for t := 0 to |observations|
        invariant Episode(cfg, START, observations).0 == Episode(cfg, Here(state, tState, grasp), observations[t..]).0
        invariant Episode(cfg, START, observations).1
               == frames + Episode(cfg, Here(state, tState, grasp), observations[t..]).1
        invariant cfg.compMax >= 0.0 ==> Compensation(cfg, Here(state, tState, grasp))
      {
        var o := observations[t];
        assert observations[t..][0] == o && observations[t..][1..] == observations[t + 1..];
        EpisodeUnfolds(cfg, Here(state, tState, grasp), observations[t..]);
        var gaveUp, frame;
        gaveUp, state, tState, grasp, frame := StepOnce(state, tState, grasp, o);
        if gaveUp {
          assert frames + [] == frames;
          return false, frames;
        }
        frames := frames + [frame];
        if o.success {
          return true, frames;
        }
      }
      assert observations[|observations|..] == [] && frames + [] == frames;
      EpisodeUnfolds(cfg, Here(state, tState, grasp), []);
      success := false;
    }
  }
}
