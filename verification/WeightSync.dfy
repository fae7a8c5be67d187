/**
  Overlapped actor-to-rollout weight sync: a runner that trains and asks for syncs, a transfer
  that lands on its two sides whenever it does, and what every interleaving keeps.
 */
module WeightSync {
  import opened Results

  // ----- the protocol ----------------------------------------------------------------------------

  /** A sync under way: the version it carries and which of its two handles are done. */
  datatype Transfer = Transfer(version: nat, rolloutDone: bool, actorDone: bool)

  /** Where the runner's loop is: before the first sync, inside a training step, or about to sync. */
  datatype Phase = Starting | Training | Updating

  /** `step` is the version of the actor's weights, `rollout` the version the rollout worker runs. */
  datatype State = State(step: nat, rollout: nat, pending: Option<Transfer>,
                         requests: nat, coalesced: nat, phase: Phase)

  /**
    What has happened, for statements only: background transfers issued and retired, the version
    sent last and the requests coalesced since, the version sent before it and the requests
    coalesced between the two.
   */
  datatype History = History(issued: nat, retired: nat, last: nat, since: nat, previous: nat, between: nat)

  datatype World = World(s: State, h: History)

  datatype Action = LandRollout | LandActor | Train | UpdateNoWait | UpdateBlocking | Drain

  predicate Landed(pending: Option<Transfer>) {
    pending.Some? ==> pending.value.rolloutDone && pending.value.actorDone
  }

  /** Waiting out both handles: the weights are applied if they were not yet, and nothing is in flight. */
  function Settle(w: World): World {
    if w.s.pending.None? then w
    else World(w.s.(rollout := w.s.pending.value.version, pending := None), w.h.(retired := w.h.retired + 1))
  }

  predicate Enabled(w: World, a: Action) {
    match a
    case LandRollout => w.s.pending.Some? && !w.s.pending.value.rolloutDone
    case LandActor => w.s.pending.Some? && !w.s.pending.value.actorDone
    case Train => w.s.phase.Training?
    case UpdateNoWait => w.s.phase.Updating?
    case UpdateBlocking => !w.s.phase.Training?
    case Drain => true
  }

  function Issue(w: World): World {
    World(w.s.(pending := Some(Transfer(w.s.step, false, false))),
          History(w.h.issued + 1, w.h.retired, w.s.step, 0, w.h.last, w.h.since))
  }

  function Apply(w: World, a: Action): World
    requires Enabled(w, a)
  {
    match a
    case LandRollout =>
      var t := w.s.pending.value;
      w.(s := w.s.(rollout := t.version, pending := Some(t.(rolloutDone := true))))
    case LandActor => w.(s := w.s.(pending := Some(w.s.pending.value.(actorDone := true))))
    case Train => w.(s := w.s.(step := w.s.step + 1, phase := Updating))
    case UpdateNoWait =>
      var asked := w.(s := w.s.(requests := w.s.requests + 1, phase := Training));
      if Landed(w.s.pending) then Issue(Settle(asked))
      else World(asked.s.(coalesced := w.s.coalesced + 1), w.h.(since := w.h.since + 1))
    case UpdateBlocking =>
      var settled := Settle(w);
      World(settled.s.(rollout := w.s.step, phase := Training), settled.h.(last := w.s.step, since := 0))
    case Drain => Settle(w)
  }

  /** A runner about to make its first sync; the rollout worker holds some version not newer than the actor's. */
  predicate Initial(w: World) {
    && w.s.phase == Starting && w.s.pending == None && w.s.requests == w.s.coalesced == 0 && w.s.rollout <= w.s.step
    && w.h.issued == w.h.retired == 0
  }

  predicate Run(w: World, acts: seq<Action>, w': World)
    decreases |acts|
  {
    if acts == [] then w == w' else Enabled(w, acts[0]) && Run(Apply(w, acts[0]), acts[1..], w')
  }

  function BehindNow(s: State): nat {
    if s.phase.Updating? then 1 else 0
  }

  ghost predicate InFlight(s: State) {
    s.pending.Some? && !s.pending.value.rolloutDone
  }

  ghost predicate Inv(w: World) {
    var s, h := w.s, w.h;
    && s.requests == h.issued + s.coalesced
    && h.issued == h.retired + (if s.pending.Some? then 1 else 0)
    && (s.phase.Starting? ==> s.pending.None? && s.requests == 0 && s.rollout <= s.step)
    && (!s.phase.Starting? ==> s.step == h.last + h.since + BehindNow(s) && h.since <= s.coalesced)
    && (!s.phase.Starting? && !InFlight(s) ==> s.rollout == h.last)
    && (s.pending.Some? ==> s.pending.value.version == h.last)
    && (InFlight(s) ==> s.rollout == h.previous && h.last == h.previous + h.between + 1)
  }

  lemma ActionKeeps(w: World, a: Action)
    requires Inv(w) && Enabled(w, a)
    ensures Inv(Apply(w, a))
    ensures w.s.rollout <= Apply(w, a).s.rollout <= Apply(w, a).s.step
    ensures w.s.rollout <= w.s.step <= Apply(w, a).s.step
    ensures a.LandRollout? ==> w.s.rollout < Apply(w, a).s.rollout
  {
  }

  /**
    Over every interleaving: the requests are split into issued and coalesced ones, every issued
    transfer but possibly the last is retired, the rollout's version never goes back and never
    overtakes the actor's.
   */
  lemma {:induction false} EveryRun(w: World, acts: seq<Action>, w': World)
    requires Inv(w) && Run(w, acts, w')
    ensures Inv(w')
    ensures w'.s.requests == w'.h.issued + w'.s.coalesced
    ensures w'.h.retired <= w'.h.issued <= w'.h.retired + 1
    ensures w.s.rollout <= w'.s.rollout <= w'.s.step && w.s.step <= w'.s.step
    decreases |acts|
  {
    if acts != [] {
      ActionKeeps(w, acts[0]);
      EveryRun(Apply(w, acts[0]), acts[1..], w');
    } else {
      ActionKeeps(w, Drain);
    }
  }

  lemma InitialIsInv(w: World)
    requires Initial(w)
    ensures Inv(w)
  {
  }

  /**
    How far behind the rollout worker is, exactly: one version for every request coalesced since
    the last transfer was issued, one more between training and the next request, and, as long as
    that transfer has not been applied, the distance to the transfer before it.
   */
  lemma ExactStaleness(w: World, acts: seq<Action>, w': World)
    requires Initial(w) && Run(w, acts, w') && !w'.s.phase.Starting?
    ensures w'.s.step - w'.s.rollout
         == w'.h.since + BehindNow(w'.s) + if InFlight(w'.s) then w'.h.between + 1 else 0
  {
    InitialIsInv(w);
    EveryRun(w, acts, w');
  }

  /** After a blocking update the two sides agree; after a drain the rollout runs the last version sent. */
  lemma WaitingSettles(w: World, acts: seq<Action>, w': World)
    requires Initial(w) && Run(w, acts, w')
    ensures Enabled(w', UpdateBlocking) ==>
              var b := Apply(w', UpdateBlocking); b.s.rollout == b.s.step && b.s.pending.None?
    ensures var d := Apply(w', Drain);
            d.s.pending.None? && d.h.issued == d.h.retired
            && (!w'.s.phase.Starting? ==>
                  d.s.rollout == d.h.last && d.s.step - d.s.rollout == d.h.since + BehindNow(d.s))
  {
    InitialIsInv(w);
    EveryRun(w, acts, w');
    ActionKeeps(w', Drain);
  }

  lemma {:induction false} RunExtends(w: World, acts: seq<Action>, w': World, a: Action)
    requires Run(w, acts, w') && Enabled(w', a)
    ensures Run(w, acts + [a], Apply(w', a))
    decreases |acts|
  {
    if acts == [] {
      assert [a][1..] == [];
    } else {
      assert (acts + [a])[1..] == acts[1..] + [a];
      RunExtends(Apply(w, acts[0]), acts[1..], w', a);
    }
  }

  // ----- the runner ------------------------------------------------------------------------------

  /** Which handles the environment completes before the runner's next look. */
  datatype Landing = Landing(rollout: bool, actor: bool)

  /** In every round the environment completes both handles of whatever is in flight. */
  ghost predicate AlwaysLands(lands: nat -> (Landing, Landing)) {
    forall n: nat :: (lands(n).0.rollout || lands(n).1.rollout) && (lands(n).0.actor || lands(n).1.actor)
  }

  ghost predicate NeverLands(lands: nat -> (Landing, Landing)) {
    forall n: nat :: lands(n) == (Landing(false, false), Landing(false, false))
  }

  class AsyncRunner {
    const noWait: bool
    var globalStep: nat
    var rolloutVersion: nat
    var pending: Option<Transfer>
    var requestTotal: nat
    var coalescedTotal: nat
    ghost var phase: Phase
    ghost var history: History
    ghost var start: World
    ghost var trace: seq<Action>

    ghost function Now(): World
      reads this
    {
      World(State(globalStep, rolloutVersion, pending, requestTotal, coalescedTotal, phase), history)
    }

    ghost predicate Valid()
      reads this
    {
      Initial(start) && Run(start, trace, Now())
    }

    constructor (globalStep: nat, rolloutVersion: nat, noWait: bool)
      requires rolloutVersion <= globalStep
      ensures Valid() && Now().s == State(globalStep, rolloutVersion, None, 0, 0, Starting)
      ensures this.noWait == noWait
    {
      this.globalStep, this.rolloutVersion, this.noWait := globalStep, rolloutVersion, noWait;
      pending, requestTotal, coalescedTotal := None, 0, 0;
      phase, history, trace := Starting, History(0, 0, 0, 0, 0, 0), [];
      start := World(State(globalStep, rolloutVersion, None, 0, 0, Starting), History(0, 0, 0, 0, 0, 0));
    }

    /** Everything the protocol promises of the state the object is in. */
    lemma StateIsSafe()
      requires Valid()
      ensures Inv(Now())
    {
      InitialIsInv(start);
      EveryRun(start, trace, Now());
    }

    /** The environment makes progress on the transfer. */
    method Land(landing: Landing)
      requires Valid()
      modifies `rolloutVersion, `pending, `trace
      ensures Valid()
      ensures old(pending).None? ==> pending.None? && rolloutVersion == old(rolloutVersion)
      ensures old(pending).Some? ==>
                && pending == Some(Transfer(old(pending).value.version,
                                            old(pending).value.rolloutDone || landing.rollout,
                                            old(pending).value.actorDone || landing.actor))
                && rolloutVersion == if landing.rollout && !old(pending).value.rolloutDone
                                     then old(pending).value.version else old(rolloutVersion)
    {
      if pending.Some? && landing.rollout && !pending.value.rolloutDone {
        RunExtends(start, trace, Now(), LandRollout);
        rolloutVersion := pending.value.version;
        pending := Some(pending.value.(rolloutDone := true));
        trace := trace + [LandRollout];
      }
      if pending.Some? && landing.actor && !pending.value.actorDone {
        RunExtends(start, trace, Now(), LandActor);
        pending := Some(pending.value.(actorDone := true));
        trace := trace + [LandActor];
      }
    }

    /** Retires the transfer if it has landed, or waits for it; tells whether none is left. */
    method CleanupPending(noWait: bool) returns (idle: bool)
      modifies `rolloutVersion, `pending, `history
      ensures idle <==> !noWait || Landed(old(pending))
      ensures idle ==> Now() == Settle(old(Now()))
      ensures !idle ==> Now() == old(Now())
      ensures idle ==> pending.None?
      ensures rolloutVersion == if idle && old(pending).Some? then old(pending).value.version else old(rolloutVersion)
    {
      if pending.None? {
        return true;
      }
      if noWait && (!pending.value.rolloutDone || !pending.value.actorDone) {
        return false;
      }
      rolloutVersion := pending.value.version;
      pending := None;
      history := history.(retired := history.retired + 1);
      return true;
    }

    /**
      A request in the background issues a transfer of the current weights, unless the previous one
      is not done on both sides: then it is dropped and counted. A blocking request waits, and both
      sides then hold the current weights.
     */
    method UpdateRolloutWeights(noWait: bool)
      requires Valid() && Enabled(Now(), if noWait then UpdateNoWait else UpdateBlocking)
      modifies `rolloutVersion, `pending, `requestTotal, `coalescedTotal, `phase, `history, `trace
      ensures Valid()
      ensures Now() == Apply(old(Now()), if noWait then UpdateNoWait else UpdateBlocking)
      ensures trace == old(trace) + [if noWait then UpdateNoWait else UpdateBlocking]
      ensures noWait ==>
                var busy := old(pending).Some? && !(old(pending).value.rolloutDone && old(pending).value.actorDone);
                && requestTotal == old(requestTotal) + 1
                && coalescedTotal == old(coalescedTotal) + (if busy then 1 else 0)
                && pending == (if busy then old(pending) else Some(Transfer(globalStep, false, false)))
                && rolloutVersion == (if !busy && old(pending).Some? then old(pending).value.version
                                      else old(rolloutVersion))
      ensures !noWait ==>
                && requestTotal == old(requestTotal) && coalescedTotal == old(coalescedTotal)
                && pending.None? && rolloutVersion == globalStep
    {
      RunExtends(start, trace, Now(), if noWait then UpdateNoWait else UpdateBlocking);
      trace := trace + [if noWait then UpdateNoWait else UpdateBlocking];
      phase := Training;
      if !noWait {
        var _ := CleanupPending(false);
        rolloutVersion := globalStep;
        history := history.(last := globalStep, since := 0);
        return;
      }
      requestTotal := requestTotal + 1;
      var idle := CleanupPending(true);
      if !idle {
        coalescedTotal := coalescedTotal + 1;
        history := history.(since := history.since + 1);
        return;
      }
      pending := Some(Transfer(globalStep, false, false));
      history := History(history.issued + 1, history.retired, globalStep, 0, history.last, history.since);
    }

    method DrainPending()
      requires Valid()
      modifies `rolloutVersion, `pending, `history, `trace
      ensures Valid() && Now() == Apply(old(Now()), Drain)
      ensures pending.None?
      ensures rolloutVersion == if old(pending).Some? then old(pending).value.version else old(rolloutVersion)
    {
      RunExtends(start, trace, Now(), Drain);
      var _ := CleanupPending(false);
      trace := trace + [Drain];
    }

    method TrainStep()
      requires Valid() && phase == Training
      modifies `globalStep, `phase, `trace
      ensures Valid() && Now() == Apply(old(Now()), Train)
    {
      RunExtends(start, trace, Now(), Train);
      globalStep := globalStep + 1;
      phase := Updating;
      trace := trace + [Train];
    }

    /** One round of the loop: the environment may act before and after the training step. */
    method Iterate(before: Landing, after: Landing)
      requires Valid() && phase == Training
      modifies this
      ensures Valid() && phase == Training
      ensures globalStep == old(globalStep) + 1
      ensures requestTotal == old(requestTotal) + if noWait then 1 else 0
      ensures noWait ==>
                var busy := old(pending).Some? &&
                            !((old(pending).value.rolloutDone || before.rollout || after.rollout)
                              && (old(pending).value.actorDone || before.actor || after.actor));
                && coalescedTotal == old(coalescedTotal) + (if busy then 1 else 0)
                && (!busy ==> pending == Some(Transfer(globalStep, false, false)))
                && (busy ==> pending == Some(Transfer(
                      old(pending).value.version,
                      old(pending).value.rolloutDone || before.rollout || after.rollout,
                      old(pending).value.actorDone || before.actor || after.actor)))
      ensures !noWait ==> pending.None? && rolloutVersion == globalStep && coalescedTotal == old(coalescedTotal)
    {
      hide Run, Inv;
      Land(before);
      TrainStep();
      Land(after);
      UpdateRolloutWeights(noWait);
    }

    /**
      The training loop. `lands` is the environment: what it completes before and after the
      training of each step. At the end nothing is in flight, and the rollout worker lags by
      exactly the requests that were coalesced after the last transfer was issued. If every transfer
      lands before the next request, none is coalesced and the rollout worker ends with the newest
      weights; if none ever lands, only the first is sent and all others are coalesced.
     */
    method RunLoop(maxSteps: nat, lands: nat -> (Landing, Landing))
      requires Valid() && phase == Starting
      modifies this
      ensures Valid() && pending.None?
      ensures globalStep == if old(globalStep) < maxSteps then maxSteps else old(globalStep)
      ensures requestTotal == history.issued + coalescedTotal && history.issued == history.retired
      ensures requestTotal == if noWait then globalStep - old(globalStep) else 0
      ensures globalStep - rolloutVersion == history.since <= coalescedTotal
      ensures !noWait ==> rolloutVersion == globalStep
      ensures AlwaysLands(lands) ==> coalescedTotal == 0 && rolloutVersion == globalStep
      ensures NeverLands(lands) && noWait && globalStep > old(globalStep) ==>
                && coalescedTotal == globalStep - old(globalStep) - 1
                && rolloutVersion == old(globalStep) + 1
    {
      StateIsSafe();
      assert coalescedTotal == 0;
      UpdateRolloutWeights(false);
      while globalStep < maxSteps
        invariant Valid() && phase == Training
        invariant old(globalStep) <= globalStep && (globalStep <= maxSteps || globalStep == old(globalStep))
        invariant requestTotal == if noWait then globalStep - old(globalStep) else 0
        invariant !noWait || globalStep == old(globalStep) ==>
                    pending.None? && coalescedTotal == 0 && rolloutVersion == globalStep
        invariant AlwaysLands(lands) ==> coalescedTotal == 0
        invariant AlwaysLands(lands) && pending.Some? ==> pending.value.version == globalStep
        invariant noWait && globalStep > old(globalStep) ==> pending.Some?
        invariant NeverLands(lands) && noWait && globalStep > old(globalStep) ==>
                    && pending == Some(Transfer(old(globalStep) + 1, false, false))
                    && coalescedTotal == globalStep - old(globalStep) - 1
        decreases maxSteps - globalStep
      {
        hide Run, Inv, Apply, Initial, AsyncRunner.Valid, AsyncRunner.Now;
        Iterate(lands(globalStep).0, lands(globalStep).1);
      }
      StateIsSafe();
      DrainPending();
      StateIsSafe();
    }
  }
}
