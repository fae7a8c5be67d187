/**
  Checkpoint publishing and automatic resume as a protocol over crashes: the folder-name
  codec, the scan for the newest complete folder, the save as a sequence of disk writes,
  and what holds after any sequence of saves, failures, crashes and restarts.
 */
module Checkpoint {
  import opened Results
  import Sequences

  // ----- folder names --------------------------------------------------------------------

  const STEP_PREFIX := "global_step_"

  predicate AllDigits(s: string) {
    forall i :: 0 <= i < |s| ==> '0' <= s[i] <= '9'
  }

  function DigitOf(c: char): nat
    requires '0' <= c <= '9'
  {
    c as int - '0' as int
  }

  function DigitChar(d: nat): char
    requires d < 10
  {
    ('0' as int + d) as char
  }

  function Value(s: string): nat
    requires AllDigits(s)
  {
    if s == [] then 0 else 10 * Value(s[..|s| - 1]) + DigitOf(s[|s| - 1])
  }

  /** The decimal form of a step: digits that read back as it, without a leading zero. */
  function Decimal(n: nat): (s: string)
    ensures s != [] && AllDigits(s) && Value(s) == n
    ensures s[0] == '0' ==> |s| == 1
  {
    if n < 10 then [DigitChar(n)] else Decimal(n / 10) + [DigitChar(n % 10)]
  }

  function FolderName(step: nat): string {
    STEP_PREFIX + Decimal(step)
  }

  function BaseName(path: string): string {
    if path == [] || path[|path| - 1] == '/' then []
    else BaseName(path[..|path| - 1]) + [path[|path| - 1]]
  }

  predicate HasStepPrefix(name: string) {
    STEP_PREFIX <= name
  }

  /** The step a checkpoint path stands for; Err(path) is the ValueError. */
  function ParseStep(path: string): Result<nat, string> {
    var base := BaseName(path);
    if HasStepPrefix(base) && base != STEP_PREFIX && AllDigits(base[|STEP_PREFIX|..])
    then Ok(Value(base[|STEP_PREFIX|..]))
    else Err(path)
  }

  lemma {:induction false} BaseNameOfJoin(dir: string, name: string)
    requires '/' !in name
    ensures BaseName(dir + "/" + name) == name
    ensures BaseName(name) == name
  {
    var path := dir + "/" + name;
    if name == [] {
      assert path[|path| - 1] == '/';
    } else {
      var front := name[..|name| - 1];
      assert path[..|path| - 1] == dir + "/" + front;
      assert path[|path| - 1] == name[|name| - 1] && name[|name| - 1] in name;
      BaseNameOfJoin(dir, front);
    }
  }

  /** Printing a step and parsing the folder gives the step back, wherever the folder lies. */
  lemma StepRoundTrip(dir: string, step: nat)
    ensures ParseStep(dir + "/" + FolderName(step)) == Ok(step)
    ensures ParseStep(FolderName(step)) == Ok(step)
    ensures HasStepPrefix(FolderName(step))
  {
    assert FolderName(step)[|STEP_PREFIX|..] == Decimal(step);
    BaseNameOfJoin(dir, FolderName(step));
  }

  lemma LastDigit(s: string)
    requires AllDigits(s) && s != []
    ensures Value(s) == 10 * Value(s[..|s| - 1]) + DigitOf(s[|s| - 1]) && DigitOf(s[|s| - 1]) < 10
    ensures s == s[..|s| - 1] + [s[|s| - 1]]
  {
  }

  lemma SameDigit(a: char, b: char)
    requires '0' <= a <= '9' && '0' <= b <= '9' && DigitOf(a) == DigitOf(b)
    ensures a == b
  {
  }

  lemma {:induction false} DigitsAreUnique(a: string, b: string)
    requires AllDigits(a) && AllDigits(b) && a != [] && b != []
    requires a[0] == '0' ==> |a| == 1
    requires b[0] == '0' ==> |b| == 1
    requires Value(a) == Value(b)
    ensures a == b
  {
    hide Value, DigitOf;
    var p, q := a[..|a| - 1], b[..|b| - 1];
    LastDigit(a);
    LastDigit(b);
    SameDigit(a[|a| - 1], b[|b| - 1]);
    ValuePositive(p);
    ValuePositive(q);
    if p != [] && q != [] {
      DigitsAreUnique(p, q);
    }
  }

  lemma {:induction false} ValuePositive(s: string)
    requires AllDigits(s)
    ensures s != [] && s[0] != '0' ==> Value(s) > 0
    ensures s == [] ==> Value(s) == 0
  {
    if |s| > 1 { ValuePositive(s[..|s| - 1]); }
  }

  /** The other direction: a parsed folder prints back exactly when it has no leading zero. */
  lemma ParseThenPrint(path: string)
    requires ParseStep(path).Ok?
    ensures var digits := BaseName(path)[|STEP_PREFIX|..];
            FolderName(ParseStep(path).value) == BaseName(path)
            <==> (digits[0] == '0' ==> |digits| == 1)
  {
    var base := BaseName(path);
    var digits := base[|STEP_PREFIX|..];
    var printed := Decimal(ParseStep(path).value);
    assert base == STEP_PREFIX + digits;
    if digits[0] == '0' ==> |digits| == 1 {
      DigitsAreUnique(digits, printed);
    }
    SamePrefix(STEP_PREFIX, printed, digits);
  }

  lemma SamePrefix(prefix: string, a: string, b: string)
    ensures prefix + a == prefix + b <==> a == b
  {
    assert (prefix + a)[|prefix|..] == a && (prefix + b)[|prefix|..] == b;
  }

  lemma FolderNameIsInjective(a: nat, b: nat)
    requires FolderName(a) == FolderName(b)
    ensures a == b
  {
    StepRoundTrip("", a);
    StepRoundTrip("", b);
  }

  // ----- the disk ------------------------------------------------------------------------

  /** A piece of a checkpoint on disk, with the save attempt that last wrote it. */
  datatype Piece = Absent | Partial(attempt: nat) | Full(attempt: nat)

  /** `tmp` is data.pt.tmp and `data` is data.pt, both inside the data sub-folder. */
  datatype Folder = Folder(actor: Piece, critic: Piece, tmp: Piece, data: Piece)

  datatype Entry = PlainFile | Directory(folder: Folder)

  type Disk = map<string, Entry>

  const EMPTY_FOLDER := Folder(Absent, Absent, Absent, Absent)

  function FolderAt(disk: Disk, name: string): Folder {
    if name in disk && disk[name].Directory? then disk[name].folder else EMPTY_FOLDER
  }

  /** The test of the resume scan: it looks only at what exists, never at what is inside. */
  predicate LooksComplete(f: Folder, hasCritic: bool) {
    f.actor != Absent && (hasCritic ==> f.critic != Absent) && f.data != Absent
  }

  predicate IsComplete(disk: Disk, hasCritic: bool, step: nat) {
    LooksComplete(FolderAt(disk, FolderName(step)), hasCritic)
  }

  /** All the pieces are whole and were written by one and the same save. */
  ghost predicate Sound(f: Folder, hasCritic: bool) {
    && f.data.Full?
    && f.actor == Full(f.data.attempt)
    && (hasCritic ==> f.critic == Full(f.data.attempt))
  }

  // ----- the resume scan -----------------------------------------------------------------

  predicate Scanned(disk: Disk, name: string) {
    name in disk && disk[name].Directory? && HasStepPrefix(name)
  }

  ghost predicate Malformed(disk: Disk, name: string) {
    Scanned(disk, name) && ParseStep(name).Err?
  }

  /** A directory entry that makes the scan fail: a folder with the prefix whose rest is not a number. */
  lemma MalformedMeans(disk: Disk, name: string)
    requires '/' !in name
    ensures Malformed(disk, name)
        <==> && name in disk && disk[name].Directory? && "global_step_" <= name
             && (|name| == 12 || exists i :: 12 <= i < |name| && !('0' <= name[i] <= '9'))
  {
    BaseNameOfJoin("", name);
    assert |STEP_PREFIX| == 12;
    if "global_step_" <= name {
      DigitsAfter(name, 12);
      assert name == STEP_PREFIX <==> |name| == 12;
    }
    hide AllDigits, BaseName;
  }

  lemma DigitsAfter(s: string, n: nat)
    requires n <= |s|
    ensures AllDigits(s[n..]) <==> !exists i :: n <= i < |s| && !('0' <= s[i] <= '9')
  {
    forall i | n <= i < |s| ensures s[i] == s[n..][i - n] { }
    forall i | 0 <= i < |s[n..]| ensures s[n..][i] == s[i + n] { }
  }

  /** `r` is the newest complete step on the disk, None when there is none. */
  ghost predicate IsNewest(disk: Disk, hasCritic: bool, r: Option<nat>) {
    && (r.Some? ==> IsComplete(disk, hasCritic, r.value))
    && (forall s: nat :: IsComplete(disk, hasCritic, s) ==> r.Some? && s <= r.value)
  }

  /** The folder of the step has an actor, a critic if one is trained, and a data.pt. */
  ghost predicate HasAllPieces(disk: Disk, hasCritic: bool, step: nat) {
    var name := "global_step_" + Decimal(step);
    && name in disk && disk[name].Directory?
    && disk[name].folder.actor != Absent
    && (hasCritic ==> disk[name].folder.critic != Absent)
    && disk[name].folder.data != Absent
  }

  /** The newest complete step, piece by piece: it has them all, and no later step does. */
  lemma NewestHasAllPieces(disk: Disk, hasCritic: bool, r: Option<nat>)
    ensures IsNewest(disk, hasCritic, r)
        <==> && (r.Some? ==> HasAllPieces(disk, hasCritic, r.value))
             && forall s: nat :: HasAllPieces(disk, hasCritic, s) ==> r.Some? && s <= r.value
  {
    forall s: nat ensures IsComplete(disk, hasCritic, s) <==> HasAllPieces(disk, hasCritic, s) { }
    hide IsComplete, HasAllPieces;
  }

  predicate Above(a: nat, b: nat) { a > b }

  /** The steps of the scanned folders, or the first folder name that does not parse. */
  method CheckpointSteps(disk: Disk, listing: seq<string>) returns (r: Result<seq<nat>, string>)
    ensures r.Err? ==> r.error in listing && Malformed(disk, r.error)
    ensures r.Ok? ==> forall d :: d in listing && Scanned(disk, d) ==>
                        ParseStep(d).Ok? && ParseStep(d).value in r.value
    ensures r.Ok? ==> forall n :: n in r.value ==> exists d :: d in listing && Scanned(disk, d) && ParseStep(d) == Ok(n)
  {
    var steps: seq<nat> := [];
    for i := 0 to |listing|
      invariant forall d :: d in listing[..i] && Scanned(disk, d) ==>
                  ParseStep(d).Ok? && ParseStep(d).value in steps
      invariant forall n :: n in steps ==> exists d :: d in listing && Scanned(disk, d) && ParseStep(d) == Ok(n)
    {
      var d := listing[i];
      if Scanned(disk, d) {
        var parsed := ParseStep(d);
        if parsed.Err? {
          assert parsed.error == d;
          return Err(d);
        }
        steps := steps + [parsed.value];
      }
      assert listing[..i + 1] == listing[..i] + [d];
    }
    assert listing[..|listing|] == listing;
    r := Ok(steps);
  }

  /**
    The automatic choice of a checkpoint. `listing` is what the operating system returns
    for the checkpoint root: all its entries, in any order.
   */
  method AutoResume(disk: Disk, hasCritic: bool, listing: seq<string>) returns (r: Result<Option<nat>, string>)
    requires forall d :: d in listing <==> d in disk
    ensures r.Err? <==> exists d :: Malformed(disk, d)
    ensures r.Err? ==> Malformed(disk, r.error)
    ensures r.Ok? ==> IsNewest(disk, hasCritic, r.value)
  {
    var parsed := CheckpointSteps(disk, listing);
    if parsed.Err? {
      return Err(parsed.error);
    }
    var steps := Sequences.Sort(Above, parsed.value);
    Sequences.SortSorts(Above, parsed.value);
    forall s: nat | IsComplete(disk, hasCritic, s) ensures s in steps {
      StepRoundTrip("", s);
      assert Scanned(disk, FolderName(s));
      Sequences.SameMembers<nat>(steps, parsed.value);
    }
    for i := 0 to |steps|
      invariant forall j :: 0 <= j < i ==> !IsComplete(disk, hasCritic, steps[j])
    {
      if IsComplete(disk, hasCritic, steps[i]) {
        forall s: nat | IsComplete(disk, hasCritic, s) ensures s <= steps[i] {
          var j :| 0 <= j < |steps| && steps[j] == s;
          assert j > i ==> !Above(steps[j], steps[i]);
        }
        return Ok(Some(steps[i]));
      }
    }
    r := Ok(None);
  }

  // ----- one save, write by write ----------------------------------------------------------

  /** The next write of a save that is under way. A seal is the return of the worker's wait. */
  datatype Stage = WriteActor | SealActor | WriteCritic | SealCritic | WriteTmp | SealTmp | Publish

  function Write(f: Folder, stage: Stage, attempt: nat): Folder {
    match stage
    case WriteActor => f.(actor := Partial(attempt))
    case SealActor => f.(actor := Full(attempt))
    case WriteCritic => f.(critic := Partial(attempt))
    case SealCritic => f.(critic := Full(attempt))
    case WriteTmp => f.(tmp := Partial(attempt))
    case SealTmp => f.(tmp := Full(attempt))
    case Publish => f.(data := f.tmp, tmp := Absent)
  }

  function After(stage: Stage, hasCritic: bool): Option<Stage> {
    match stage
    case WriteActor => Some(SealActor)
    case SealActor => Some(if hasCritic then WriteCritic else WriteTmp)
    case WriteCritic => Some(SealCritic)
    case SealCritic => Some(WriteTmp)
    case WriteTmp => Some(SealTmp)
    case SealTmp => Some(Publish)
    case Publish => None
  }

  /** The writes guarded by the clean-up; at WriteTmp the error may also come from the mkdir before it. */
  predicate MayCleanUp(stage: Stage, cleanUp: bool) {
    match stage
    case SealTmp => cleanUp
    case Publish => cleanUp
    case WriteTmp => true
    case _ => !cleanUp
  }

  // ----- worlds and actions ------------------------------------------------------------------

  datatype Phase = Ready | Trained | Saving(next: Stage)

  datatype Process = Down | Up(step: nat, phase: Phase)

  /** `attempts` numbers the saves begun so far; the last one is the one under way. */
  datatype World = World(disk: Disk, process: Process, attempts: nat)

  datatype Action =
    | Boot(resumed: Option<nat>)
    | Train
    | SkipSave
    | BeginSave
    | SaveStep
    | Abort(cleanUp: bool)
    | Crash

  ghost predicate Enabled(hasCritic: bool, w: World, a: Action) {
    match a
    case Boot(r) => w.process.Down? && IsNewest(w.disk, hasCritic, r) && forall d :: !Malformed(w.disk, d)
    case Train => w.process.Up? && w.process.phase.Ready?
    case SkipSave => w.process.Up? && w.process.phase.Trained?
    case BeginSave => w.process.Up? && w.process.phase.Trained?
    case SaveStep =>
      && w.process.Up? && w.process.phase.Saving?
      && (FolderName(w.process.step) in w.disk ==> w.disk[FolderName(w.process.step)].Directory?)
    case Abort(cleanUp) =>
      w.process.Up? && w.process.phase.Saving? && MayCleanUp(w.process.phase.next, cleanUp)
    case Crash => w.process.Up?
  }

  ghost function Apply(hasCritic: bool, w: World, a: Action): World
    requires Enabled(hasCritic, w, a)
  {
    match a
    case Boot(r) => w.(process := Up(if r.Some? then r.value else 0, Ready))
    case Train => w.(process := Up(w.process.step + 1, Trained))
    case SkipSave => w.(process := Up(w.process.step, Ready))
    case BeginSave => w.(process := Up(w.process.step, Saving(WriteActor)), attempts := w.attempts + 1)
    case SaveStep =>
      var name, stage := FolderName(w.process.step), w.process.phase.next;
      var next := After(stage, hasCritic);
      World(w.disk[name := Directory(Write(FolderAt(w.disk, name), stage, w.attempts))],
            Up(w.process.step, if next.Some? then Saving(next.value) else Ready),
            w.attempts)
    case Abort(cleanUp) =>
      w.(process := Down, disk := if cleanUp then WithoutTmp(w.disk, FolderName(w.process.step)) else w.disk)
    case Crash => w.(process := Down)
  }

  function WithoutTmp(disk: Disk, name: string): Disk {
    if name in disk && disk[name].Directory? then disk[name := Directory(disk[name].folder.(tmp := Absent))] else disk
  }

  /** `acts` is a possible history from `w` to `w'`. */
  ghost predicate Run(hasCritic: bool, w: World, acts: seq<Action>, w': World)
    decreases |acts|
  {
    if acts == [] then w == w'
    else Enabled(hasCritic, w, acts[0]) && Run(hasCritic, Apply(hasCritic, w, acts[0]), acts[1..], w')
  }

  lemma {:induction false} RunExtends(hasCritic: bool, w: World, acts: seq<Action>, w': World, a: Action)
    requires Run(hasCritic, w, acts, w') && Enabled(hasCritic, w', a)
    ensures Run(hasCritic, w, acts + [a], Apply(hasCritic, w', a))
    decreases |acts|
  {
    if acts == [] {
      assert [a][1..] == [];
    } else {
      assert (acts + [a])[1..] == acts[1..] + [a];
      RunExtends(hasCritic, Apply(hasCritic, w, acts[0]), acts[1..], w', a);
    }
  }

  // ----- the invariant -------------------------------------------------------------------------

  /** What the save under way has achieved when `next` is still to be done. */
  ghost predicate Progress(f: Folder, hasCritic: bool, next: Stage, attempt: nat) {
    && f.data == Absent
    && (next !in {WriteActor, SealActor} ==> f.actor == Full(attempt))
    && (hasCritic && next in {WriteTmp, SealTmp, Publish} ==> f.critic == Full(attempt))
    && (next == Publish ==> f.tmp == Full(attempt))
  }

  ghost predicate DataIsSound(disk: Disk, hasCritic: bool) {
    forall name :: FolderAt(disk, name).data != Absent ==> Sound(FolderAt(disk, name), hasCritic)
  }

  ghost predicate AllBelow(disk: Disk, hasCritic: bool, bound: nat) {
    forall s: nat :: IsComplete(disk, hasCritic, s) ==> s < bound
  }

  ghost predicate Inv(hasCritic: bool, w: World) {
    && DataIsSound(w.disk, hasCritic)
    && (w.process.Up? ==>
          match w.process.phase
          case Ready => AllBelow(w.disk, hasCritic, w.process.step + 1)
          case Trained => AllBelow(w.disk, hasCritic, w.process.step)
          case Saving(next) =>
            && AllBelow(w.disk, hasCritic, w.process.step)
            && Progress(FolderAt(w.disk, FolderName(w.process.step)), hasCritic, next, w.attempts))
  }

  lemma EmptyDiskIsFine(hasCritic: bool, attempts: nat)
    ensures Inv(hasCritic, World(map[], Down, attempts))
  {
  }

  /** Below every process step, so in particular the folder it is about to write has no data.pt. */
  lemma UnfinishedHasNoData(disk: Disk, hasCritic: bool, step: nat)
    requires DataIsSound(disk, hasCritic) && AllBelow(disk, hasCritic, step)
    ensures FolderAt(disk, FolderName(step)).data == Absent
  {
    var f := FolderAt(disk, FolderName(step));
    if f.data != Absent {
      assert Sound(f, hasCritic);
      assert IsComplete(disk, hasCritic, step);
    }
  }

  lemma UpdatedFolder(disk: Disk, name: string, f: Folder, other: string)
    ensures FolderAt(disk[name := Directory(f)], other) == if other == name then f else FolderAt(disk, other)
  {
  }

  lemma SoundAfter(disk: Disk, hasCritic: bool, name: string, f: Folder)
    requires DataIsSound(disk, hasCritic) && (f.data != Absent ==> Sound(f, hasCritic))
    ensures DataIsSound(disk[name := Directory(f)], hasCritic)
  {
    var disk' := disk[name := Directory(f)];
    forall other ensures FolderAt(disk', other).data != Absent ==> Sound(FolderAt(disk', other), hasCritic) {
      UpdatedFolder(disk, name, f, other);
    }
  }

  /** Rewriting the folder of one step changes completeness for that step alone. */
  lemma CompleteAfter(disk: Disk, hasCritic: bool, step: nat, f: Folder, s: nat)
    ensures IsComplete(disk[FolderName(step) := Directory(f)], hasCritic, s)
        <==> if s == step then LooksComplete(f, hasCritic) else IsComplete(disk, hasCritic, s)
  {
    UpdatedFolder(disk, FolderName(step), f, FolderName(s));
    if FolderName(s) == FolderName(step) { FolderNameIsInjective(s, step); }
  }

  lemma BelowAfter(disk: Disk, hasCritic: bool, step: nat, f: Folder)
    requires AllBelow(disk, hasCritic, step)
    ensures AllBelow(disk[FolderName(step) := Directory(f)], hasCritic,
                     if LooksComplete(f, hasCritic) then step + 1 else step)
  {
    var disk' := disk[FolderName(step) := Directory(f)];
    forall s: nat | IsComplete(disk', hasCritic, s)
      ensures s < if LooksComplete(f, hasCritic) then step + 1 else step
    {
      CompleteAfter(disk, hasCritic, step, f, s);
    }
  }

  lemma SaveStepKeeps(hasCritic: bool, w: World)
    requires Inv(hasCritic, w) && Enabled(hasCritic, w, SaveStep)
    ensures Inv(hasCritic, Apply(hasCritic, w, SaveStep))
  {
    var step, stage := w.process.step, w.process.phase.next;
    var name := FolderName(step);
    var f := Write(FolderAt(w.disk, name), stage, w.attempts);
    UpdatedFolder(w.disk, name, f, name);
    SoundAfter(w.disk, hasCritic, name, f);
    BelowAfter(w.disk, hasCritic, step, f);
    hide FolderName, DataIsSound, AllBelow, FolderAt;
  }

  lemma AbortKeeps(hasCritic: bool, w: World, cleanUp: bool)
    requires Inv(hasCritic, w) && Enabled(hasCritic, w, Abort(cleanUp))
    ensures Inv(hasCritic, Apply(hasCritic, w, Abort(cleanUp)))
  {
    var name := FolderName(w.process.step);
    SoundAfter(w.disk, hasCritic, name, FolderAt(w.disk, name).(tmp := Absent));
    hide FolderName, DataIsSound, AllBelow;
  }

  /** Every action keeps the invariant. */
  lemma ActionKeeps(hasCritic: bool, w: World, a: Action)
    requires Inv(hasCritic, w) && Enabled(hasCritic, w, a)
    ensures Inv(hasCritic, Apply(hasCritic, w, a))
  {
    match a
    case SaveStep => SaveStepKeeps(hasCritic, w);
    case Abort(cleanUp) => AbortKeeps(hasCritic, w, cleanUp);
    case BeginSave => UnfinishedHasNoData(w.disk, hasCritic, w.process.step);
    case _ =>
  }

  // ----- what holds over every run -----------------------------------------------------------

  /** Over any run, a folder that the scan accepts is whole and comes from a single save. */
  lemma {:induction false} CompleteIsSound(hasCritic: bool, w: World, acts: seq<Action>, w': World)
    requires Inv(hasCritic, w) && Run(hasCritic, w, acts, w')
    ensures Inv(hasCritic, w')
    ensures forall s: nat :: IsComplete(w'.disk, hasCritic, s) ==> Sound(FolderAt(w'.disk, FolderName(s)), hasCritic)
    decreases |acts|
  {
    if acts != [] {
      ActionKeeps(hasCritic, w, acts[0]);
      CompleteIsSound(hasCritic, Apply(hasCritic, w, acts[0]), acts[1..], w');
    }
  }

  /** Along any run a save only ever opens a folder newer than everything complete, and not complete itself. */
  lemma SavesAreAhead(hasCritic: bool, w: World, acts: seq<Action>, w': World)
    requires Inv(hasCritic, w) && Run(hasCritic, w, acts, w')
    requires w'.process.Up? && w'.process.phase.Saving?
    ensures forall s: nat :: IsComplete(w'.disk, hasCritic, s) ==> s < w'.process.step
    ensures FolderAt(w'.disk, FolderName(w'.process.step)).data == Absent
  {
    CompleteIsSound(hasCritic, w, acts, w');
  }

  lemma ActionSparesComplete(hasCritic: bool, w: World, a: Action, s: nat)
    requires Inv(hasCritic, w) && Enabled(hasCritic, w, a) && IsComplete(w.disk, hasCritic, s)
    ensures var disk' := Apply(hasCritic, w, a).disk;
            FolderAt(disk', FolderName(s)) == FolderAt(w.disk, FolderName(s)) && IsComplete(disk', hasCritic, s)
  {
    if a.SaveStep? || a.Abort? {
      assert s < w.process.step;
      if FolderName(s) == FolderName(w.process.step) { FolderNameIsInjective(s, w.process.step); }
    }
  }

  /** Once complete, a checkpoint is never written to again, whatever happens later. */
  lemma {:induction false} CompleteIsFrozen(hasCritic: bool, w: World, acts: seq<Action>, w': World, s: nat)
    requires Inv(hasCritic, w) && Run(hasCritic, w, acts, w') && IsComplete(w.disk, hasCritic, s)
    ensures FolderAt(w'.disk, FolderName(s)) == FolderAt(w.disk, FolderName(s))
    ensures IsComplete(w'.disk, hasCritic, s)
    decreases |acts|
  {
    if acts != [] {
      ActionKeeps(hasCritic, w, acts[0]);
      ActionSparesComplete(hasCritic, w, acts[0], s);
      CompleteIsFrozen(hasCritic, Apply(hasCritic, w, acts[0]), acts[1..], w', s);
    }
  }

  /** The step that was last published along a run, starting from `last`. */
  ghost function LastPublished(hasCritic: bool, w: World, acts: seq<Action>, last: Option<nat>): Option<nat>
    decreases |acts|
  {
    if acts == [] || !Enabled(hasCritic, w, acts[0]) then last
    else
      var publishes := acts[0].SaveStep? && w.process.phase.next.Publish?;
      LastPublished(hasCritic, Apply(hasCritic, w, acts[0]), acts[1..],
                    if publishes then Some(w.process.step) else last)
  }

  lemma ActionMovesNewest(hasCritic: bool, w: World, a: Action, last: Option<nat>)
    requires Inv(hasCritic, w) && Enabled(hasCritic, w, a) && IsNewest(w.disk, hasCritic, last)
    ensures IsNewest(Apply(hasCritic, w, a).disk, hasCritic,
                     if a.SaveStep? && w.process.phase.next.Publish? then Some(w.process.step) else last)
  {
    if a.SaveStep? {
      var step, stage := w.process.step, w.process.phase.next;
      var f := Write(FolderAt(w.disk, FolderName(step)), stage, w.attempts);
      var disk' := w.disk[FolderName(step) := Directory(f)];
      forall s: nat
        ensures IsComplete(disk', hasCritic, s)
            <==> (s == step && stage.Publish?) || IsComplete(w.disk, hasCritic, s)
      {
        CompleteAfter(w.disk, hasCritic, step, f, s);
      }
    } else if a.Abort? && a.cleanUp {
      SameCompleteness(w.disk, hasCritic, FolderName(w.process.step));
    }
  }

  lemma SameCompleteness(disk: Disk, hasCritic: bool, name: string)
    ensures forall s: nat :: IsComplete(WithoutTmp(disk, name), hasCritic, s) <==> IsComplete(disk, hasCritic, s)
  {
    hide FolderName;
  }

  /**
    No published work is lost and nothing unpublished is resumed: after any run the newest
    complete folder, which is what a restart picks, is the one that was published last.
   */
  lemma {:induction false} ResumeIsLastPublished(
    hasCritic: bool, w: World, acts: seq<Action>, w': World, last: Option<nat>)
    requires Inv(hasCritic, w) && Run(hasCritic, w, acts, w') && IsNewest(w.disk, hasCritic, last)
    ensures IsNewest(w'.disk, hasCritic, LastPublished(hasCritic, w, acts, last))
    decreases |acts|
  {
    if acts != [] {
      var next := Apply(hasCritic, w, acts[0]);
      ActionKeeps(hasCritic, w, acts[0]);
      ActionMovesNewest(hasCritic, w, acts[0], last);
      ResumeIsLastPublished(hasCritic, next, acts[1..], w',
        if acts[0].SaveStep? && w.process.phase.next.Publish? then Some(w.process.step) else last);
    }
  }

  lemma NewestIsUnique(disk: Disk, hasCritic: bool, a: Option<nat>, b: Option<nat>)
    requires IsNewest(disk, hasCritic, a) && IsNewest(disk, hasCritic, b)
    ensures a == b
  {
  }

  /** A restart after any run continues exactly at the last published step and loads whole pieces of one save. */
  lemma RestartTheorem(hasCritic: bool, attempts: nat, acts: seq<Action>, w: World, r: Option<nat>)
    requires Run(hasCritic, World(map[], Down, attempts), acts, w) && Enabled(hasCritic, w, Boot(r))
    ensures r == LastPublished(hasCritic, World(map[], Down, attempts), acts, None)
    ensures r.Some? ==> Sound(FolderAt(w.disk, FolderName(r.value)), hasCritic)
  {
    var start := World(map[], Down, attempts);
    EmptyDiskIsFine(hasCritic, attempts);
    CompleteIsSound(hasCritic, start, acts, w);
    ResumeIsLastPublished(hasCritic, start, acts, w, None);
    NewestIsUnique(w.disk, hasCritic, r, LastPublished(hasCritic, start, acts, None));
  }

  lemma ActionAddsNoMalformed(hasCritic: bool, w: World, a: Action, name: string)
    requires Enabled(hasCritic, w, a)
    ensures Malformed(Apply(hasCritic, w, a).disk, name) <==> Malformed(w.disk, name)
  {
    if a.SaveStep? { StepRoundTrip("", w.process.step); }
    hide ParseStep, FolderName;
  }

  /** The runner's own writes never make a later scan fail: it fails only on foreign folders. */
  lemma {:induction false} RunsAddNoMalformed(hasCritic: bool, w: World, acts: seq<Action>, w': World, name: string)
    requires Run(hasCritic, w, acts, w')
    ensures Malformed(w'.disk, name) <==> Malformed(w.disk, name)
    decreases |acts|
  {
    if acts != [] {
      ActionAddsNoMalformed(hasCritic, w, acts[0], name);
      RunsAddNoMalformed(hasCritic, Apply(hasCritic, w, acts[0]), acts[1..], w', name);
    }
  }
}
