/**
  What one step of the waypoint expert does, phase by phase and in numbers: where it heads, what
  it commands, when a phase ends, when the compensation is adjusted and when the episode is given
  up; and that every episode is a sequence of such steps.
 */
module ExpertSteps {
  import opened Results
  import opened Expert

  /** The squared distance of two points. */
  function Gap(a: Vec, b: Vec): real {
    (a.x - b.x) * (a.x - b.x) + (a.y - b.y) * (a.y - b.y) + (a.z - b.z) * (a.z - b.z)
  }

  /** y is x limited to [-bound, bound]; a negative bound leaves the bound itself. */
  ghost predicate IsLimited(x: real, bound: real, y: real) {
    && (bound < 0.0 ==> y == bound)
    && (bound >= 0.0 && x > bound ==> y == bound)
    && (bound >= 0.0 && x < -bound ==> y == -bound)
    && (bound >= 0.0 && -bound <= x <= bound ==> y == x)
  }

  ghost predicate IsRaised(from: Vec, dx: real, dz: real, comp: Vec, goal: Vec) {
    goal.x == from.x + dx + comp.x && goal.y == from.y + comp.y && goal.z == from.z + dz + comp.z
  }

  /** Where the arm is sent in each phase; the compensation is part of every goal. */
  ghost predicate IsGoal(cfg: Config, s: Control, o: Observation, goal: Vec) {
    match s.phase
    case Pregrasp => IsRaised(o.bottle, 0.0, cfg.pregraspZOff, s.comp, goal)
    case Approach => IsRaised(o.bottle, 0.0, cfg.graspZOff, s.comp, goal)
    case Close => IsRaised(o.eef, 0.0, 0.0, s.comp, goal)
    case Lift =>
      && (s.grasp.Some? ==> IsRaised(s.grasp.value, cfg.liftDx, cfg.liftDz, s.comp, goal))
      && (s.grasp.None? ==> IsRaised(o.eef, cfg.liftDx, cfg.liftDz, s.comp, goal))
    case AboveRack => IsRaised(o.rack, 0.0, cfg.rackAboveDz, s.comp, goal)
    case Place => IsRaised(o.rack, 0.0, cfg.rackPlaceDz, s.comp, goal)
    case Release => IsRaised(o.eef, 0.0, 0.0, s.comp, goal)
    case Retreat => IsRaised(o.eef, 0.0, 0.1, s.comp, goal)
  }

  /** The next phase, and exactly when it begins: at 3, 1.5, 3, 3 and 2 cm from the goal, or by the timer. */
  ghost predicate Ends(cfg: Config, s: Control, o: Observation, goal: Vec) {
    match s.phase
    case Pregrasp => Gap(o.eef, goal) < 0.0009
    case Approach => Gap(o.eef, goal) < 0.000225
    case Close => s.t >= cfg.closeSteps
    case Lift => Gap(o.eef, goal) < 0.0009
    case AboveRack => Gap(o.eef, goal) < 0.0009
    case Place => Gap(o.eef, goal) < 0.0004 || s.t >= cfg.placeSteps
    case Release => s.t >= cfg.releaseSteps
    case Retreat => false
  }

  const ORDER := [Pregrasp, Approach, Close, Lift, AboveRack, Place, Release, Retreat]

  ghost predicate IsPhase(cfg: Config, s: Control, o: Observation, goal: Vec, phase: Phase) {
    if Ends(cfg, s, o, goal) then exists i :: 0 <= i < 7 && ORDER[i] == s.phase && ORDER[i + 1] == phase
    else phase == s.phase
  }

  /** The wait in a phase up to the lift has run out. */
  ghost predicate Overdue(cfg: Config, s: Control, phase: Phase) {
    && (phase == Pregrasp || phase == Approach || phase == Close || phase == Lift)
    && (if phase == s.phase then s.t else 0) >= cfg.stateTimeout
  }

  /** Above the rack half a timeout has passed and fewer than three adjustments were made. */
  ghost predicate Sagging(cfg: Config, s: Control, phase: Phase) {
    s.phase == AboveRack && phase == AboveRack && s.t >= cfg.stateTimeout / 2 && s.adjust < 3
  }

  /** The compensation takes up four fifths of what is missing to the goal, each coordinate limited. */
  ghost predicate IsAdjusted(cfg: Config, s: Control, o: Observation, goal: Vec, comp: Vec) {
    && IsLimited(s.comp.x + 0.8 * (goal.x - o.eef.x), cfg.compMax, comp.x)
    && IsLimited(s.comp.y + 0.8 * (goal.y - o.eef.y), cfg.compMax, comp.y)
    && IsLimited(s.comp.z + 0.8 * (goal.z - o.eef.z), cfg.compMax, comp.z)
  }

  /** The proportional command before it is limited. */
  function Pull(cfg: Config, error: real, scale: real): real {
    cfg.kPos * error * scale
  }

  /** The command: towards the goal, slower from the lift to the placing, the gripper as before the transition. */
  ghost predicate IsCommand(cfg: Config, s: Control, o: Observation, goal: Vec, frame: Frame) {
    var slow := frame.phase == Lift || frame.phase == AboveRack || frame.phase == Place;
    var scale := if slow then cfg.slowFactor else 1.0;
    && IsLimited(Pull(cfg, goal.x - o.eef.x, scale), cfg.maxDelta, frame.delta.x)
    && IsLimited(Pull(cfg, goal.y - o.eef.y, scale), cfg.maxDelta, frame.delta.y)
    && IsLimited(Pull(cfg, goal.z - o.eef.z, scale), cfg.maxDelta, frame.delta.z)
    && (s.phase in {Pregrasp, Approach, Release, Retreat} ==> frame.gripper == 1.0)
    && (s.phase in {Close, Lift, AboveRack, Place} ==> frame.gripper == -1.0)
  }

  /** The step goes on, in state `next` and with this frame. */
  ghost predicate IsStep(cfg: Config, s: Control, o: Observation, next: Control, frame: Frame) {
    exists goal: Vec :: IsStepTo(cfg, s, o, goal, next, frame)
  }

  ghost predicate IsStepTo(cfg: Config, s: Control, o: Observation, goal: Vec, next: Control, frame: Frame) {
    var adjusts := Overdue(cfg, s, next.phase) || Sagging(cfg, s, next.phase);
    && IsGoal(cfg, s, o, goal)
    && IsPhase(cfg, s, o, goal, next.phase) && frame.phase == next.phase
    && IsCommand(cfg, s, o, goal, frame)
    && (Overdue(cfg, s, next.phase) ==> Gap(goal, o.eef) > 0.000025 && s.adjust < 4)
    && (if adjusts then IsAdjusted(cfg, s, o, goal, next.comp) && next.adjust == s.adjust + 1
        else next.comp == s.comp && next.adjust == s.adjust)
    && next.t == (if adjusts || next.phase != s.phase then 1 else s.t + 1)
    && (next.phase != s.phase && (next.phase == Close || next.phase == Lift) ==>
          next.grasp.Some? && next.grasp.value == o.eef)
    && (next.phase == s.phase || !(next.phase == Close || next.phase == Lift) ==> next.grasp == s.grasp)
  }

  /** The step gives up: the wait has run out and there is nothing left to adjust. */
  ghost predicate IsGivingUp(cfg: Config, s: Control, o: Observation) {
    exists goal: Vec, phase: Phase :: GivesUpAt(cfg, s, o, goal, phase)
  }

  ghost predicate GivesUpAt(cfg: Config, s: Control, o: Observation, goal: Vec, phase: Phase) {
    && IsGoal(cfg, s, o, goal) && IsPhase(cfg, s, o, goal, phase)
    && Overdue(cfg, s, phase) && (Gap(goal, o.eef) <= 0.000025 || s.adjust >= 4)
  }

  // ----- the controller takes such steps ---------------------------------------------------------

  lemma ClipLimits(x: real, bound: real)
    ensures IsLimited(x, bound, Clip(x, -bound, bound))
  {
  }

  lemma GoalIsGoal(cfg: Config, s: Control, o: Observation)
    ensures IsGoal(cfg, s, o, Goal(cfg, s, o))
  {
  }

  lemma WithinIsGap(a: Vec, b: Vec)
    ensures Within(a, b, 0.03) <==> Gap(a, b) < 0.0009
    ensures Within(a, b, 0.015) <==> Gap(a, b) < 0.000225
    ensures Within(a, b, 0.02) <==> Gap(a, b) < 0.0004
    ensures SquaredNorm(Minus(a, b)) == Gap(a, b)
  {
  }

  lemma PhaseIsPhase(cfg: Config, s: Control, o: Observation)
    ensures IsPhase(cfg, s, o, Goal(cfg, s, o), Transition(cfg, s, o).phase)
  {
    WithinIsGap(o.eef, Goal(cfg, s, o));
    hide Within, Gap, Goal, ClipVec;
    assert ORDER[Rank(s.phase)] == s.phase;
    assert Rank(s.phase) < 7 ==> ORDER[Rank(s.phase) + 1] != s.phase;
  }

  lemma AxisIsLimited(cfg: Config, error: real, scale: real)
    ensures IsLimited(Pull(cfg, error, scale), cfg.maxDelta, ServoAxis(cfg, error, scale))
  {
    ClipLimits(cfg.kPos * error * scale, cfg.maxDelta);
  }

  lemma FrameIs(cfg: Config, s: Control, o: Observation)
    requires Step(cfg, s, o).Act?
    ensures var goal, frame := Goal(cfg, s, o), Step(cfg, s, o).frame;
            var scale := if frame.phase == Lift || frame.phase == AboveRack || frame.phase == Place
                         then cfg.slowFactor else 1.0;
            && frame.delta.x == ServoAxis(cfg, goal.x - o.eef.x, scale)
            && frame.delta.y == ServoAxis(cfg, goal.y - o.eef.y, scale)
            && frame.delta.z == ServoAxis(cfg, goal.z - o.eef.z, scale)
            && frame.gripper == Gripper(s.phase)
  {
    hide Transition, Goal, ServoAxis, MayAdjust, Compensated;
  }

  lemma CommandIsCommand(cfg: Config, s: Control, o: Observation)
    requires Step(cfg, s, o).Act?
    ensures IsCommand(cfg, s, o, Goal(cfg, s, o), Step(cfg, s, o).frame)
  {
    var goal, frame := Goal(cfg, s, o), Step(cfg, s, o).frame;
    var slow := frame.phase == Lift || frame.phase == AboveRack || frame.phase == Place;
    var scale := if slow then cfg.slowFactor else 1.0;
    FrameIs(cfg, s, o);
    hide Step, Goal, IsLimited, ServoAxis, Pull;
    AxisIsLimited(cfg, goal.x - o.eef.x, scale);
    AxisIsLimited(cfg, goal.y - o.eef.y, scale);
    AxisIsLimited(cfg, goal.z - o.eef.z, scale);
  }

  lemma AdjustedIsAdjusted(cfg: Config, s: Control, o: Observation, goal: Vec)
    ensures IsAdjusted(cfg, s, o, goal, Compensated(cfg, s, Minus(goal, o.eef)).comp)
  {
    ClipLimits(s.comp.x + (goal.x - o.eef.x) * 0.8, cfg.compMax);
    ClipLimits(s.comp.y + (goal.y - o.eef.y) * 0.8, cfg.compMax);
    ClipLimits(s.comp.z + (goal.z - o.eef.z) * 0.8, cfg.compMax);
    hide IsLimited, Clip;
  }

  lemma MayAdjustIs(s: Control, a: Vec, b: Vec)
    ensures MayAdjust(s, Minus(a, b)) <==> Gap(a, b) > 0.000025 && s.adjust < 4
  {
    WithinIsGap(a, b);
    hide Gap, SquaredNorm;
  }

  /** Every step of the controller is one of the two kinds. */
  lemma StepTheorem(cfg: Config, s: Control, o: Observation)
    ensures var d := Step(cfg, s, o);
            if d.Act? then IsStep(cfg, s, o, d.next, d.frame) else IsGivingUp(cfg, s, o)
  {
    var goal, d := Goal(cfg, s, o), Step(cfg, s, o);
    var moved := Transition(cfg, s, o);
    GoalIsGoal(cfg, s, o);
    PhaseIsPhase(cfg, s, o);
    MayAdjustIs(moved, goal, o.eef);
    AdjustedIsAdjusted(cfg, s, o, goal);
    if d.Act? { CommandIsCommand(cfg, s, o); }
    hide Goal, Within, Gap, IsGoal, IsPhase, IsCommand, IsAdjusted, Servo, ClipVec, MayAdjust;
    if d.Act? {
      assert IsStepTo(cfg, s, o, goal, d.next, d.frame);
    } else {
      assert GivesUpAt(cfg, s, o, goal, moved.phase);
    }
  }

  // ----- episodes --------------------------------------------------------------------------------

  /**
    An episode: it starts in `states[0]`, takes one such step for each frame, and stops after the step
    that completes the task, when a step gives up, or when the step limit is reached.
   */
  ghost predicate IsEpisode(cfg: Config, observations: seq<Observation>, states: seq<Control>,
                            frames: seq<Frame>, success: bool)
  {
    var n := |frames|;
    && |states| == n + 1 && n <= |observations|
    && (forall i :: 0 <= i < n ==> IsStep(cfg, states[i], observations[i], states[i + 1], frames[i]))
    && (forall i :: 0 <= i < n - 1 ==> !observations[i].success)
    && (success <==> n > 0 && observations[n - 1].success)
    && (!success && n < |observations| ==> IsGivingUp(cfg, states[n], observations[n]))
  }

  lemma {:induction false} EpisodeTheorem(cfg: Config, s: Control, observations: seq<Observation>)
    returns (states: seq<Control>)
    ensures states != [] && states[0] == s
    ensures IsEpisode(cfg, observations, states, Episode(cfg, s, observations).1, Episode(cfg, s, observations).0)
    decreases |observations|
  {
    EpisodeUnfolds(cfg, s, observations);
    if observations == [] {
      states := [s];
    } else {
      var o := observations[0];
      StepTheorem(cfg, s, o);
      var d := Step(cfg, s, o);
      hide Step, Episode, IsStep, IsGivingUp;
      if d.GiveUp? {
        states := [s];
      } else if o.success {
        states := [s, d.next];
      } else {
        var rest := EpisodeTheorem(cfg, d.next, observations[1..]);
        states := [s] + rest;
        EpisodeCons(cfg, s, observations, d.next, d.frame, rest, Episode(cfg, d.next, observations[1..]).1,
                    Episode(cfg, d.next, observations[1..]).0);
      }
    }
  }

  lemma EpisodeCons(cfg: Config, s: Control, observations: seq<Observation>, next: Control, frame: Frame,
                    states: seq<Control>, frames: seq<Frame>, success: bool)
    requires observations != [] && !observations[0].success && IsStep(cfg, s, observations[0], next, frame)
    requires IsEpisode(cfg, observations[1..], states, frames, success) && states[0] == next
    ensures IsEpisode(cfg, observations, [s] + states, [frame] + frames, success)
  {
    hide IsStep, IsGivingUp;
    var all, fs, n := [s] + states, [frame] + frames, |frames| + 1;
    forall i | 0 <= i < n ensures IsStep(cfg, all[i], observations[i], all[i + 1], fs[i]) {
      if i > 0 { assert IsStep(cfg, states[i - 1], observations[1..][i - 1], states[i], frames[i - 1]); }
    }
    forall i | 0 <= i < n - 1 ensures !observations[i].success {
      if i > 0 { assert !observations[1..][i - 1].success; }
    }
    assert |frames| > 0 ==> observations[1..][|frames| - 1] == observations[n - 1];
    assert |frames| < |observations[1..]| ==> observations[1..][|frames|] == observations[n];
  }

  /** The episode method of the expert, from its contract: every frame it returns is such a step. */
  method RolloutInSteps(expert: WineRackExpert, observations: seq<Observation>)
    returns (success: bool, frames: seq<Frame>)
    modifies expert
    ensures exists states: seq<Control> ::
              states != [] && states[0] == Control(Pregrasp, 0, None, Vec(0.0, 0.0, 0.0), 0)
              && IsEpisode(expert.cfg, observations, states, frames, success)
  {
    success, frames := expert.Rollout(observations);
    ghost var states := EpisodeTheorem(expert.cfg, START, observations);
  }
}
