/**
  The runner that trains, saves and resumes, as an object whose fields the calls reassign.
  Its ghost history ties every object to a run of the protocol in module Checkpoint, so the
  theorems over runs hold of every state a runner can be in.
 */
module CheckpointRunner {
  import opened Arithmetic
  import opened Results
  import opened Checkpoint

  /** An error raised inside a save: the write it strikes, and whether the clean-up handler sees it. */
  datatype Fault = Fault(stage: Stage, cleanUp: bool)

  predicate IsFolder(disk: Disk, name: string) {
    name in disk && disk[name].Directory?
  }

  predicate Blocked(disk: Disk, name: string) {
    name in disk && disk[name].PlainFile?
  }

  predicate Strikes(fault: Option<Fault>, stage: Stage) {
    fault.Some? && fault.value.stage == stage
  }

  /** The fault lies on a write that the save makes. */
  predicate Reached(fault: Option<Fault>, hasCritic: bool) {
    fault.Some? && (hasCritic || fault.value.stage !in {WriteCritic, SealCritic})
  }

  function NextPhase(stage: Stage, hasCritic: bool): Phase {
    var next := After(stage, hasCritic);
    if next.Some? then Saving(next.value) else Ready
  }

  ghost predicate OthersSame(before: Disk, after: Disk, name: string) {
    forall other :: other != name ==> FolderAt(after, other) == FolderAt(before, other)
  }

  /** What a finished save leaves in a folder that held `f`. */
  function Published(f: Folder, hasCritic: bool, attempt: nat): Folder {
    Folder(Full(attempt), if hasCritic then Full(attempt) else f.critic, Absent, Full(attempt))
  }

  /** Whether the iteration that reaches `step` saves: at the interval, at the end, or when time is up. */
  predicate SaveDue(step: nat, maxSteps: nat, saveInterval: int, timeUp: bool) {
    saveInterval > 0 && ((step != 0 && step % saveInterval == 0) || step == maxSteps || timeUp)
  }

  /** All batches of all epochs, or the configured maximum if it is smaller; a negative one means none. */
  function StepLimit(perEpoch: nat, maxEpochs: nat, maxSteps: int): (limit: nat)
    ensures limit <= perEpoch * maxEpochs && (maxSteps >= 0 ==> limit <= maxSteps)
    ensures limit == perEpoch * maxEpochs || limit == maxSteps
  {
    if maxSteps >= 0 then Min(perEpoch * maxEpochs, maxSteps) else perEpoch * maxEpochs
  }

  /** The batches of some passes over the dataloader. */
  function Delivered(firstPass: nat, perEpoch: nat, passes: int): nat {
    if passes <= 0 then 0 else if passes == 1 then firstPass else Delivered(firstPass, perEpoch, passes - 1) + perEpoch
  }

  lemma {:induction false} DeliveredIs(firstPass: nat, perEpoch: nat, passes: int)
    requires passes > 0
    ensures Delivered(firstPass, perEpoch, passes) == firstPass + (passes - 1) * perEpoch
  {
    if passes > 1 {
      DeliveredIs(firstPass, perEpoch, passes - 1);
      Distribute(passes - 2, perEpoch);
    }
  }

  // ----- what a stretch of training does to the disk -------------------------------------------

  /** In the steps after `first` up to `last` this one is at the interval, at the limit, or when time is up. */
  ghost predicate Due(first: nat, last: nat, limit: nat, saveInterval: int, clock: nat -> bool, s: nat) {
    first < s <= last && saveInterval > 0 && (s % saveInterval == 0 || s == limit || clock(s))
  }

  /** Every multiple of the interval after `first` up to `last` is complete on the disk. */
  ghost predicate Saved(disk: Disk, hasCritic: bool, first: nat, last: int, saveInterval: int) {
    saveInterval > 0 ==>
      forall s: nat :: first < s <= last && s % saveInterval == 0 ==> IsComplete(disk, hasCritic, s)
  }

  /** Nothing but the folders of due steps has changed. */
  ghost predicate OnlyDueChanged(before: Disk, after: Disk, first: nat, last: nat, limit: nat,
                                 saveInterval: int, clock: nat -> bool)
  {
    forall name :: FolderAt(after, name) == FolderAt(before, name)
      || exists s: nat :: name == FolderName(s) && Due(first, last, limit, saveInterval, clock, s)
  }

  ghost predicate StopsAt(s: nat, limit: nat, clock: nat -> bool) {
    s == limit || clock(s)
  }

  /** No step after `first` and before `last` reaches the limit or runs out of time. */
  ghost predicate Uninterrupted(first: nat, last: nat, limit: nat, clock: nat -> bool) {
    forall s: nat :: first < s < last ==> !StopsAt(s, limit, clock)
  }

  /** A stretch that starts below the limit stops at it. */
  lemma StaysWithin(first: nat, last: nat, limit: nat, clock: nat -> bool)
    requires Uninterrupted(first, last, limit, clock)
    ensures first < limit ==> last <= limit
  {
    assert StopsAt(limit, limit, clock);
  }

  lemma LaterKeepsSaved(before: Disk, after: Disk, hasCritic: bool, from: nat, mid: nat, last: nat, limit: nat,
                        saveInterval: int, clock: nat -> bool)
    requires Saved(before, hasCritic, from, mid, saveInterval)
    requires OnlyDueChanged(before, after, mid, last, limit, saveInterval, clock)
    ensures Saved(after, hasCritic, from, mid, saveInterval)
  {
    hide FolderName, FolderAt;
    if saveInterval > 0 {
      forall s: nat | from < s <= mid && s % saveInterval == 0 ensures IsComplete(after, hasCritic, s) {
        assert IsComplete(before, hasCritic, s);
        if FolderAt(after, FolderName(s)) != FolderAt(before, FolderName(s)) {
          var t: nat :| FolderName(s) == FolderName(t) && Due(mid, last, limit, saveInterval, clock, t);
          FolderNameIsInjective(s, t);
        }
      }
    }
  }

  lemma JoinSaved(disk: Disk, hasCritic: bool, first: nat, mid: nat, last: int, saveInterval: int)
    requires Saved(disk, hasCritic, first, mid, saveInterval) && Saved(disk, hasCritic, mid, last, saveInterval)
    ensures Saved(disk, hasCritic, first, last, saveInterval)
  {
    hide IsComplete;
  }

  lemma JoinChanges(a: Disk, b: Disk, c: Disk, first: nat, mid: nat, last: nat, limit: nat,
                    saveInterval: int, clock: nat -> bool)
    requires first <= mid <= last
    requires OnlyDueChanged(a, b, first, mid, limit, saveInterval, clock)
    requires OnlyDueChanged(b, c, mid, last, limit, saveInterval, clock)
    ensures OnlyDueChanged(a, c, first, last, limit, saveInterval, clock)
  {
    hide FolderName, FolderAt;
    forall name | FolderAt(c, name) != FolderAt(a, name)
      ensures exists s: nat :: name == FolderName(s) && Due(first, last, limit, saveInterval, clock, s)
    {
      if FolderAt(b, name) != FolderAt(a, name) {
        var s: nat :| name == FolderName(s) && Due(first, mid, limit, saveInterval, clock, s);
        assert Due(first, last, limit, saveInterval, clock, s);
      } else {
        var s: nat :| name == FolderName(s) && Due(mid, last, limit, saveInterval, clock, s);
        assert Due(first, last, limit, saveInterval, clock, s);
      }
    }
  }

  lemma OneStep(before: Disk, after: Disk, hasCritic: bool, step: nat, limit: nat, saveInterval: int,
                clock: nat -> bool, ok: bool)
    requires Due(step, step + 1, limit, saveInterval, clock, step + 1)
             ==> OthersSame(before, after, FolderName(step + 1))
                 && (ok ==> IsComplete(after, hasCritic, step + 1))
    requires !Due(step, step + 1, limit, saveInterval, clock, step + 1) ==> before == after && ok
    ensures OnlyDueChanged(before, after, step, step + 1, limit, saveInterval, clock)
    ensures Saved(after, hasCritic, step, if ok then step + 1 else step, saveInterval)
  {
    hide FolderName, FolderAt, IsComplete;
    forall name | FolderAt(after, name) != FolderAt(before, name)
      ensures exists s: nat :: name == FolderName(s) && Due(step, step + 1, limit, saveInterval, clock, s)
    {
      assert name == FolderName(step + 1);
    }
  }

  lemma NothingYet(disk: Disk, hasCritic: bool, first: nat, limit: nat, saveInterval: int, clock: nat -> bool)
    ensures Saved(disk, hasCritic, first, first, saveInterval)
    ensures OnlyDueChanged(disk, disk, first, first, limit, saveInterval, clock)
  {
  }

  /** One iteration more, as its contract describes it. */
  lemma StepGrows(before: Disk, mid: Disk, after: Disk, hasCritic: bool, first: nat, last: nat, limit: nat,
                  saveInterval: int, clock: nat -> bool, ok: bool)
    requires first <= last
    requires Saved(mid, hasCritic, first, last, saveInterval)
    requires OnlyDueChanged(before, mid, first, last, limit, saveInterval, clock)
    requires if saveInterval > 0 && ((last + 1) % saveInterval == 0 || last + 1 == limit || clock(last + 1)) then
               && OthersSame(mid, after, FolderName(last + 1))
               && (ok ==> IsNewest(after, hasCritic, Some(last + 1)))
             else ok && after == mid
    ensures Saved(after, hasCritic, first, if ok then last + 1 else last, saveInterval)
    ensures OnlyDueChanged(before, after, first, last + 1, limit, saveInterval, clock)
  {
    hide Saved, OnlyDueChanged, FolderName, FolderAt, OthersSame;
    OneStep(mid, after, hasCritic, last, limit, saveInterval, clock, ok);
    LaterKeepsSaved(mid, after, hasCritic, first, last, last + 1, limit, saveInterval, clock);
    JoinSaved(after, hasCritic, first, last, if ok then last + 1 else last, saveInterval);
    JoinChanges(before, mid, after, first, last, last + 1, limit, saveInterval, clock);
  }

  class Runner {
    const root: string
    const hasCritic: bool
    var disk: Disk
    var process: Process
    var attempts: nat
    ghost var start: World
    ghost var history: seq<Action>

    ghost function State(): World
      reads this
    {
      World(disk, process, attempts)
    }

    ghost predicate Valid()
      reads this
    {
      Inv(hasCritic, start) && Run(hasCritic, start, history, State())
    }

    /** A machine on which nothing runs yet, with whatever sound checkpoints earlier jobs left. */
    constructor (root: string, hasCritic: bool, disk: Disk)
      requires DataIsSound(disk, hasCritic)
      ensures Valid() && process == Down
      ensures this.root == root && this.hasCritic == hasCritic && this.disk == disk
    {
      this.root, this.hasCritic, this.disk := root, hasCritic, disk;
      process, attempts := Down, 0;
      start, history := World(disk, Down, 0), [];
    }

    /** What any valid state promises, whatever calls and crashes led to it. */
    lemma StateIsSafe()
      requires Valid()
      ensures Inv(hasCritic, State())
      ensures forall s: nat :: IsComplete(disk, hasCritic, s) ==> Sound(FolderAt(disk, FolderName(s)), hasCritic)
      ensures forall s: nat :: IsComplete(start.disk, hasCritic, s)
                ==> FolderAt(disk, FolderName(s)) == FolderAt(start.disk, FolderName(s))
    {
      CompleteIsSound(hasCritic, start, history, State());
      forall s: nat | IsComplete(start.disk, hasCritic, s)
        ensures FolderAt(disk, FolderName(s)) == FolderAt(start.disk, FolderName(s))
      {
        CompleteIsFrozen(hasCritic, start, history, State(), s);
      }
    }

    /** Starts the job: picks the checkpoint to resume, then takes the step from its path. */
    method InitWorkers(listing: seq<string>) returns (r: Result<Option<string>, string>)
      requires Valid() && process.Down?
      requires forall d :: d in listing <==> d in disk
      modifies `process, `history
      ensures Valid()
      ensures r.Err? <==> exists d :: Malformed(disk, d)
      ensures r.Err? ==> process.Down?
      ensures r.Ok? ==> process.Up? && process.phase.Ready?
      ensures r.Ok? && r.value.None? ==> process.step == 0 && IsNewest(disk, hasCritic, None)
      ensures r.Ok? && r.value.Some? ==>
                && r.value.value == root + "/" + FolderName(process.step)
                && IsNewest(disk, hasCritic, Some(process.step))
                && Sound(FolderAt(disk, FolderName(process.step)), hasCritic)
    {
      StateIsSafe();
      var newest := AutoResume(disk, hasCritic, listing);
      if newest.Err? {
        return Err(newest.error);
      }
      ghost var a := Boot(newest.value);
      RunExtends(hasCritic, start, history, State(), a);
      var globalSteps := 0;
      if newest.value.None? {
        r := Ok(None);
      } else {
        var resumeDir := root + "/" + FolderName(newest.value.value);
        StepRoundTrip(root, newest.value.value);
        globalSteps := ParseStep(resumeDir).value;
        r := Ok(Some(resumeDir));
      }
      process := Up(globalSteps, Ready);
      history := history + [a];
    }

    /** One training iteration up to the decision whether to save. */
    method TrainStep()
      requires Valid() && process.Up? && process.phase.Ready?
      modifies `process, `history
      ensures Valid()
      ensures process == Up(old(process.step) + 1, Trained)
    {
      RunExtends(hasCritic, start, history, State(), Train);
      process := Up(process.step + 1, Trained);
      history := history + [Train];
    }

    /** The process dies, in whatever phase it is. */
    method Die()
      requires Valid() && process.Up?
      modifies `process, `history
      ensures Valid() && process == Down
    {
      RunExtends(hasCritic, start, history, State(), Crash);
      process := Down;
      history := history + [Crash];
    }

    /** One write of a save; `fault` says where the environment makes the save fail. */
    method Perform(step: nat, stage: Stage, fault: Option<Fault>) returns (ok: bool)
      requires Valid() && process == Up(step, Saving(stage))
      requires fault.Some? ==> MayCleanUp(fault.value.stage, fault.value.cleanUp)
      requires stage != WriteActor ==> IsFolder(disk, FolderName(step))
      modifies `disk, `process, `history
      ensures Valid()
      ensures ok <==> !Strikes(fault, stage) && !Blocked(old(disk), FolderName(step))
      ensures ok ==> IsFolder(disk, FolderName(step)) && process == Up(step, NextPhase(stage, hasCritic))
      ensures ok ==> FolderAt(disk, FolderName(step)) == Write(old(FolderAt(disk, FolderName(step))), stage, attempts)
      ensures !ok ==> process.Down?
                      && FolderAt(disk, FolderName(step)).data == old(FolderAt(disk, FolderName(step))).data
      ensures !ok && Strikes(fault, stage) && fault.value.cleanUp ==> FolderAt(disk, FolderName(step)).tmp == Absent
      ensures OthersSame(old(disk), disk, FolderName(step))
    {
      var name := FolderName(step);
      if Blocked(disk, name) || Strikes(fault, stage) {
        var cleanUp := Strikes(fault, stage) && fault.value.cleanUp;
        RunExtends(hasCritic, start, history, State(), Abort(cleanUp));
        if cleanUp {
          disk := WithoutTmp(disk, name);
        }
        process := Down;
        history := history + [Abort(cleanUp)];
        return false;
      }
      RunExtends(hasCritic, start, history, State(), SaveStep);
      disk := disk[name := Directory(Write(FolderAt(disk, name), stage, attempts))];
      process := Up(step, NextPhase(stage, hasCritic));
      history := history + [SaveStep];
      return true;
    }

    /** Opens the save of the current step, whose folder is not published yet. */
    method BeginSaving()
      requires Valid() && process.Up? && process.phase.Trained?
      modifies `process, `attempts, `history
      ensures Valid() && attempts == old(attempts) + 1
      ensures process == Up(old(process).step, Saving(WriteActor))
      ensures FolderAt(disk, FolderName(process.step)).data == Absent
    {
      StateIsSafe();
      UnfinishedHasNoData(disk, hasCritic, process.step);
      RunExtends(hasCritic, start, history, State(), BeginSave);
      process := Up(process.step, Saving(WriteActor));
      attempts := attempts + 1;
      history := history + [BeginSave];
    }

    /** The actor's part: the call returns only when every worker has written its shard. */
    method SaveActor(step: nat, fault: Option<Fault>) returns (ok: bool)
      requires Valid() && process == Up(step, Saving(WriteActor))
      requires fault.Some? ==> MayCleanUp(fault.value.stage, fault.value.cleanUp)
      modifies `disk, `process, `history
      ensures Valid()
      ensures ok <==> !Strikes(fault, WriteActor) && !Strikes(fault, SealActor)
                      && !Blocked(old(disk), FolderName(step))
      ensures ok ==> IsFolder(disk, FolderName(step))
                     && process == Up(step, Saving(if hasCritic then WriteCritic else WriteTmp))
      ensures ok ==> FolderAt(disk, FolderName(step))
                     == old(FolderAt(disk, FolderName(step))).(actor := Full(attempts))
      ensures !ok ==> process.Down?
                      && FolderAt(disk, FolderName(step)).data == old(FolderAt(disk, FolderName(step))).data
      ensures OthersSame(old(disk), disk, FolderName(step))
    {
      hide FolderName, FolderAt, Runner.Valid;
      ok := Perform(step, WriteActor, fault);
      if !ok { return; }
      ok := Perform(step, SealActor, fault);
    }

    /** The critic's part, only called when there is a critic. */
    method SaveCritic(step: nat, fault: Option<Fault>) returns (ok: bool)
      requires Valid() && process == Up(step, Saving(WriteCritic))
      requires fault.Some? ==> MayCleanUp(fault.value.stage, fault.value.cleanUp)
      requires IsFolder(disk, FolderName(step))
      modifies `disk, `process, `history
      ensures Valid()
      ensures ok <==> !(Strikes(fault, WriteCritic) || Strikes(fault, SealCritic))
      ensures ok ==> IsFolder(disk, FolderName(step)) && process == Up(step, Saving(WriteTmp))
      ensures ok ==> FolderAt(disk, FolderName(step))
                     == old(FolderAt(disk, FolderName(step))).(critic := Full(attempts))
      ensures !ok ==> process.Down?
                      && FolderAt(disk, FolderName(step)).data == old(FolderAt(disk, FolderName(step))).data
      ensures OthersSame(old(disk), disk, FolderName(step))
    {
      hide FolderName, FolderAt, Runner.Valid;
      ok := Perform(step, WriteCritic, fault);
      if !ok { return; }
      ok := Perform(step, SealCritic, fault);
    }

    /** The dataloader state: a temporary file, then one atomic rename. */
    method SaveData(step: nat, fault: Option<Fault>) returns (ok: bool)
      requires Valid() && process == Up(step, Saving(WriteTmp))
      requires fault.Some? ==> MayCleanUp(fault.value.stage, fault.value.cleanUp)
      requires IsFolder(disk, FolderName(step))
      modifies `disk, `process, `history
      ensures Valid()
      ensures ok <==> !(Strikes(fault, WriteTmp) || Strikes(fault, SealTmp) || Strikes(fault, Publish))
      ensures ok ==> IsFolder(disk, FolderName(step)) && process == Up(step, Ready)
      ensures ok ==> FolderAt(disk, FolderName(step))
                     == old(FolderAt(disk, FolderName(step))).(tmp := Absent, data := Full(attempts))
      ensures !ok ==> process.Down?
                      && FolderAt(disk, FolderName(step)).data == old(FolderAt(disk, FolderName(step))).data
      ensures !ok && fault.value.cleanUp ==> FolderAt(disk, FolderName(step)).tmp == Absent
      ensures OthersSame(old(disk), disk, FolderName(step))
    {
      hide FolderName, FolderAt, Runner.Valid;
      ok := Perform(step, WriteTmp, fault);
      if !ok { return; }
      ok := Perform(step, SealTmp, fault);
      if !ok { return; }
      ok := Perform(step, Publish, fault);
    }

    /**
      Writes the actor, then the critic if there is one, then publishes the data. The save
      succeeds or leaves the folder incomplete, and touches no other folder either way.
     */
    method SaveCheckpoint(fault: Option<Fault>) returns (ok: bool)
      requires Valid() && process.Up? && process.phase.Trained?
      requires fault.Some? ==> MayCleanUp(fault.value.stage, fault.value.cleanUp)
      modifies `disk, `process, `attempts, `history
      ensures Valid() && attempts == old(attempts) + 1
      ensures ok <==> !Reached(fault, hasCritic) && !Blocked(old(disk), FolderName(old(process).step))
      ensures ok ==> process == Up(old(process).step, Ready)
      ensures ok ==> FolderAt(disk, FolderName(old(process).step))
                     == Published(old(FolderAt(disk, FolderName(process.step))), hasCritic, attempts)
      ensures !ok ==> process.Down? && !IsComplete(disk, hasCritic, old(process).step)
      ensures OthersSame(old(disk), disk, FolderName(old(process).step))
    {
      hide FolderName, FolderAt, Runner.Valid;
      var step := process.step;
      BeginSaving();
      ok := SaveActor(step, fault);
      if !ok { return; }
      if hasCritic {
        ok := SaveCritic(step, fault);
        if !ok { return; }
      }
      ok := SaveData(step, fault);
    }

    /** The iteration ends without a save. */
    method SkipSaving()
      requires Valid() && process.Up? && process.phase.Trained?
      modifies `process, `history
      ensures Valid() && process == Up(old(process).step, Ready)
    {
      RunExtends(hasCritic, start, history, State(), SkipSave);
      process := Up(process.step, Ready);
      history := history + [SkipSave];
    }

    /** One iteration of the training loop: train, then save if a save is due. */
    method Iterate(maxSteps: nat, saveInterval: int, timeUp: bool, fault: Option<Fault>) returns (ok: bool)
      requires Valid() && process.Up? && process.phase.Ready?
      requires fault.Some? ==> MayCleanUp(fault.value.stage, fault.value.cleanUp)
      modifies `disk, `process, `attempts, `history
      ensures Valid()
      ensures ok ==> process == Up(old(process).step + 1, Ready)
      ensures !ok ==> process.Down?
      ensures var step := old(process).step + 1;
              if saveInterval > 0 && (step % saveInterval == 0 || step == maxSteps || timeUp) then
                && OthersSame(old(disk), disk, FolderName(step))
                && (ok ==> IsNewest(disk, hasCritic, Some(step)))
              else ok && disk == old(disk)
    {
      TrainStep();
      ghost var step := process.step;
      if SaveDue(process.step, maxSteps, saveInterval, timeUp) {
        ok := SaveCheckpoint(fault);
        if ok {
          StateIsSafe();
          assert LooksComplete(FolderAt(disk, FolderName(step)), hasCritic);
        }
      } else {
        SkipSaving();
        ok := true;
      }
    }

    /** The batches of one pass over the dataloader; `stop` says that a limit or an error ended it. */
    method TrainEpoch(batches: nat, limit: nat, saveInterval: int, clock: nat -> bool, faults: nat -> Option<Fault>)
      returns (ok: bool, stop: bool, last: nat)
      requires Valid() && process.Up? && process.phase.Ready?
      requires forall n :: faults(n).Some? ==> MayCleanUp(faults(n).value.stage, faults(n).value.cleanUp)
      modifies `disk, `process, `attempts, `history
      ensures Valid() && (ok ==> process == Up(last, Ready)) && (!ok ==> process.Down? && stop)
      ensures old(process).step <= last <= old(process).step + batches
      ensures batches > 0 ==> last > old(process).step
      ensures !ok ==> Due(old(process).step, last, limit, saveInterval, clock, last)
      ensures stop ==> last > old(process).step && (ok ==> last == limit || clock(last))
      ensures !stop ==> last == old(process).step + batches
      ensures Uninterrupted(old(process).step, if stop then last else last + 1, limit, clock)
      ensures Saved(disk, hasCritic, old(process).step, if ok then last else last - 1, saveInterval)
      ensures OnlyDueChanged(old(disk), disk, old(process).step, last, limit, saveInterval, clock)
      ensures ok && saveInterval > 0 && last > old(process).step && (last == limit || clock(last)) ==>
                IsNewest(disk, hasCritic, Some(last))
    {
      hide Saved, OnlyDueChanged, FolderName, FolderAt, Runner.Valid, IsNewest, OthersSame;
      ghost var first, before := process.step, disk;
      ok, last := true, process.step;
      NothingYet(disk, hasCritic, first, limit, saveInterval, clock);
      for b := 0 to batches
        invariant Valid() && ok && process == Up(last, Ready) && last == first + b
        invariant Uninterrupted(first, last + 1, limit, clock)
        invariant Saved(disk, hasCritic, first, last, saveInterval)
        invariant OnlyDueChanged(before, disk, first, last, limit, saveInterval, clock)
      {
        var timeUp := clock(last + 1);
        ghost var mid := disk;
        ok := Iterate(limit, saveInterval, timeUp, faults(last + 1));
        StepGrows(before, mid, disk, hasCritic, first, last, limit, saveInterval, clock, ok);
        last := last + 1;
        if !ok || last == limit || timeUp {
          return ok, true, last;
        }
      }
      stop := false;
      assert last > first ==> !StopsAt(last, limit, clock);
    }

    /**
      The whole training loop. The epochs that are left are counted from the step; the dataloader
      yields `firstPass` batches in the first of them, what is left of it or all, and `perEpoch` in
      the others. `clock` and `faults` are what the environment does at each step.

      With saving on, every multiple of the interval that is passed is a complete checkpoint at the
      end, also when the run fails in a later save; folders of steps that are not due are never
      touched; and when a limit ends the loop, the last step is the newest complete checkpoint. The
      loop ends at the first step that is at the limit or out of time, at a failed save, or with the
      last batch. The limit is only compared for equality after a step, so the run stays within it if
      and only if it starts below it or no epoch is left.
     */
    method TrainAndSave(perEpoch: nat, maxEpochs: nat, maxSteps: int, firstPass: nat, saveInterval: int,
                        clock: nat -> bool, faults: nat -> Option<Fault>)
      returns (ok: bool, last: nat)
      requires Valid() && process.Up? && process.phase.Ready? && 0 < firstPass <= perEpoch
      requires forall n :: faults(n).Some? ==> MayCleanUp(faults(n).value.stage, faults(n).value.cleanUp)
      modifies `disk, `process, `attempts, `history
      ensures Valid() && (ok ==> process == Up(last, Ready)) && (!ok ==> process.Down?)
      ensures var first, limit := old(process).step, StepLimit(perEpoch, maxEpochs, maxSteps);
              && first <= last
              && (last == first <==> maxEpochs <= first / perEpoch)
              && (last <= Max(limit, first) <==> first < limit || maxEpochs <= first / perEpoch)
              && Uninterrupted(first, last, limit, clock)
              && (!ok ==> Due(first, last, limit, saveInterval, clock, last))
              && (ok && last > first ==>
                    last == limit || clock(last)
                    || last == first + firstPass + (maxEpochs - first / perEpoch - 1) * perEpoch)
      ensures Saved(disk, hasCritic, old(process).step, if ok then last else last - 1, saveInterval)
      ensures OnlyDueChanged(old(disk), disk, old(process).step, last, StepLimit(perEpoch, maxEpochs, maxSteps),
                             saveInterval, clock)
      ensures var limit := StepLimit(perEpoch, maxEpochs, maxSteps);
              ok && saveInterval > 0 && last > old(process).step && (last == limit || clock(last)) ==>
                IsNewest(disk, hasCritic, Some(last))
    {
      hide Saved, OnlyDueChanged, FolderName, FolderAt, Runner.Valid, IsNewest;
      var limit := StepLimit(perEpoch, maxEpochs, maxSteps);
      ghost var first, before := process.step, disk;
      ok, last := true, process.step;
      NothingYet(disk, hasCritic, first, limit, saveInterval, clock);
      var epoch := last / perEpoch;
      if maxEpochs <= epoch {
        return;
      }
      DeliveredIs(firstPass, perEpoch, maxEpochs - epoch);
      var stop := false;
      for e := epoch to maxEpochs
        invariant Valid() && ok && process == Up(last, Ready)
        invariant last == first + Delivered(firstPass, perEpoch, e - epoch)
        invariant e > epoch ==> last > first
        invariant Uninterrupted(first, last + 1, limit, clock) && (e > epoch && first < limit ==> last <= limit)
        invariant Saved(disk, hasCritic, first, last, saveInterval)
        invariant OnlyDueChanged(before, disk, first, last, limit, saveInterval, clock)
        invariant e > epoch && saveInterval > 0 && (last == limit || clock(last)) ==>
                    IsNewest(disk, hasCritic, Some(last))
      {
        ghost var mid, from := disk, last;
        ok, stop, last := TrainEpoch(if e == epoch then firstPass else perEpoch, limit, saveInterval, clock, faults);
        LaterKeepsSaved(mid, disk, hasCritic, first, from, last, limit, saveInterval, clock);
        JoinSaved(disk, hasCritic, first, from, if ok then last else last - 1, saveInterval);
        JoinChanges(before, mid, disk, first, from, last, limit, saveInterval, clock);
        StaysWithin(first, last, limit, clock);
        if stop {
          return;
        }
      }
    }

    /** A job from its start: it resumes and trains. `first` is the step it resumes from. */
    method RunJob(listing: seq<string>, perEpoch: nat, maxEpochs: nat, maxSteps: int, firstPass: nat,
                  saveInterval: int, clock: nat -> bool, faults: nat -> Option<Fault>)
      returns (r: Result<Option<string>, string>, ok: bool, first: nat, last: nat)
      requires Valid() && process.Down? && 0 < firstPass <= perEpoch
      requires forall d :: d in listing <==> d in disk
      requires forall n :: faults(n).Some? ==> MayCleanUp(faults(n).value.stage, faults(n).value.cleanUp)
      modifies `disk, `process, `attempts, `history
      ensures Valid()
      ensures r.Err? <==> exists d :: Malformed(old(disk), d)
      ensures r.Ok? ==>
                && IsNewest(old(disk), hasCritic, if r.value.Some? then Some(first) else None)
                && (r.value.None? ==> first == 0)
                && (last <= Max(StepLimit(perEpoch, maxEpochs, maxSteps), first)
                    <==> first < StepLimit(perEpoch, maxEpochs, maxSteps) || maxEpochs <= first / perEpoch)
    {
      r := InitWorkers(listing);
      if r.Err? {
        return r, false, 0, 0;
      }
      first := process.step;
      ok, last := TrainAndSave(perEpoch, maxEpochs, maxSteps, firstPass, saveInterval, clock, faults);
    }
  }

  /** The checkpoint root of a finished job whose limit was five steps. */
  function FinishedDisk(): Disk {
    map[FolderName(5) := Directory(Folder(Full(0), Absent, Absent, Full(0)))]
  }

  lemma FinishedDiskFacts(r: Option<nat>)
    ensures DataIsSound(FinishedDisk(), false)
    ensures forall d :: !Malformed(FinishedDisk(), d)
    ensures IsNewest(FinishedDisk(), false, r) <==> r == Some(5)
  {
    var disk := FinishedDisk();
    StepRoundTrip("", 5);
    forall s: nat ensures IsComplete(disk, false, s) <==> s == 5 {
      if FolderName(s) == FolderName(5) { FolderNameIsInjective(s, 5); }
    }
    hide FolderName, ParseStep, IsComplete;
    assert IsNewest(disk, false, Some(5));
    if IsNewest(disk, false, r) { NewestIsUnique(disk, false, r, Some(5)); }
  }

  /** A limit of five steps that is already reached does not hold a restarted job back. */
  method FinishedJobTrainsOn() returns (first: nat, last: nat)
    ensures first == StepLimit(10, 1, 5) && last > StepLimit(10, 1, 5)
  {
    FinishedDiskFacts(Some(5));
    var runner := new Runner("", false, FinishedDisk());
    var listing := [FolderName(5)];
    hide IsNewest, Runner.Valid, DataIsSound, Malformed;
    var r, ok;
    r, ok, first, last := runner.RunJob(listing, 10, 1, 5, 5, 1, n => false, n => None);
    FinishedDiskFacts(if r.Ok? && r.value.Some? then Some(first) else None);
  }
}
