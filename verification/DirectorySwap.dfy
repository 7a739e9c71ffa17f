/**
 Replacing a dataset directory by a staged one: move the dataset to a backup, install the staged
 directory, remove the backup. Compaction and backfill promotion both do this, under one lock, each
 with a backup name of its own, and each looks for a stale backup under its own name only.
 */
module DirectorySwap {
  import opened Rows

  datatype File = File(rows: seq<Row>, size: nat, parquet: bool)

  type Dir = map<string, File>

  datatype Kind = Compacting | Promoting

  /**
   Where a run is. `Removing` deletes the backup file by file; `Leaving` is what is left to do
   whatever happened: clean up, release the lock.
   */
  datatype Phase = Idle | Staging | MovedOut | InstallFailed | Removing | Leaving

  /**
   The directories, the lock file, and what the last run was, or is, to install. `version` is
   history: the directory that counts as the dataset, the old one until a run has installed what it
   began for.
   */
  datatype World = World(
    dataset: Option<Dir>, backups: map<Kind, Dir>, staged: Option<Dir>, locked: bool,
    kind: Kind, target: Dir, phase: Phase, version: Dir)

  datatype Label =
    | Begin(target: Dir)                    // a compaction takes the lock and starts staging `target`
    | Adopt(target: Dir)                    // a promotion takes the lock with `target` staged already
    | StageFile(name: string, file: File)   // a file of the target is written, in whole or in part
    | MoveOut                               // staging is complete and the dataset moves to the backup
    | Install
    | InstallFails
    | Restore
    | Remove(name: string)
    | RemoveDone
    | Raise                                 // an operation fails: the run goes on to leave
    | Leave                                 // clean up and release the lock
    | Kill                                  // the process dies: the lock file stays
    | ClearLock                             // an operator removes the lock file of a dead process,
    | ClearBackup(kind: Kind)               // a backup beside a dataset that is there,
    | PutBack                               // or moves back the dataset the last run moved out

  function Next(w: World, l: Label): Option<World> {
    match l
    case Begin(target) =>
      // a dataset that is not a directory is rejected before anything is staged
      if w.phase != Idle || w.locked || w.dataset.None? then None
      else Some(w.(staged := Some(map[]), locked := true, kind := Compacting, target := target, phase := Staging))
    case Adopt(target) =>
      if w.phase != Idle || w.locked || w.dataset.None? then None
      else Some(w.(staged := Some(target), locked := true, kind := Promoting, target := target, phase := Staging))
    case StageFile(name, file) =>
      if w.phase != Staging || w.staged.None? || name !in w.target then None
      else Some(w.(staged := Some(w.staged.value[name := file])))
    case MoveOut =>
      if w.phase != Staging || w.dataset.None? || w.kind in w.backups || w.staged != Some(w.target) then None
      else Some(w.(dataset := None, backups := w.backups[w.kind := w.dataset.value], phase := MovedOut))
    case Install =>
      if w.phase != MovedOut || w.staged.None? then None
      else Some(w.(dataset := w.staged, staged := None, phase := Removing, version := w.target))
    case InstallFails => if w.phase != MovedOut then None else Some(w.(phase := InstallFailed))
    case Restore =>
      if w.phase != InstallFailed || w.kind !in w.backups then None
      else Some(w.(dataset := Some(w.backups[w.kind]), backups := w.backups - {w.kind}, phase := Leaving))
    case Remove(name) =>
      if w.phase != Removing || w.kind !in w.backups then None
      else Some(w.(backups := w.backups[w.kind := w.backups[w.kind] - {name}]))
    case RemoveDone =>
      if w.phase != Removing then None else Some(w.(backups := w.backups - {w.kind}, phase := Leaving))
    case Raise => if w.phase == Idle then None else Some(w.(phase := Leaving))
    case Leave =>
      if w.phase != Leaving then None
      else Some(w.(staged := if w.kind == Compacting then None else w.staged, locked := false, phase := Idle))
    case Kill => if w.phase == Idle then None else Some(w.(phase := Idle))
    case ClearLock => if w.phase != Idle then None else Some(w.(locked := false))
    case ClearBackup(kind) =>
      if w.phase != Idle || w.dataset.None? then None else Some(w.(backups := w.backups - {kind}))
    case PutBack =>
      if w.phase != Idle || w.dataset.Some? || w.kind !in w.backups then None
      else Some(w.(dataset := Some(w.backups[w.kind]), backups := w.backups - {w.kind}))
  }

  function Exec(w: World, labels: seq<Label>): Option<World>
    decreases |labels|
  {
    if labels == [] then Some(w)
    else
      match Next(w, labels[0])
      case None => None
      case Some(w') => Exec(w', labels[1..])
  }

  /** The complete current version is the dataset, or the dataset is absent and the last run's backup is it. */
  ghost predicate Recoverable(w: World) {
    || w.dataset == Some(w.version)
    || (w.dataset.None? && w.kind in w.backups && w.backups[w.kind] == w.version)
  }

  ghost predicate Inv(w: World) {
    && Recoverable(w)
    && (w.phase.MovedOut? || w.phase.InstallFailed? ==> w.dataset.None?)
    && (w.phase.MovedOut? ==> w.staged == Some(w.target))
    && (w.phase.Staging? || w.phase.Removing? ==> w.dataset.Some?)
  }

  predicate Begins(l: Label, kind: Kind, target: Dir) {
    l == if kind == Compacting then Begin(target) else Adopt(target)
  }

  /** A run of this kind for this target began in the schedule. */
  predicate Begun(labels: seq<Label>, kind: Kind, target: Dir) {
    labels != [] && (Begins(labels[0], kind, target) || Begun(labels[1..], kind, target))
  }

  /** A run is under way that may still install what it began for. */
  predicate UnderWay(w: World) {
    w.phase.Staging? || w.phase.MovedOut? || w.phase.InstallFailed?
  }

  /** The version was there at first, or is what a run of one of these kinds was for, begun now or before. */
  ghost predicate Comes(w: World, labels: seq<Label>, version: Dir, kinds: set<Kind>) {
    || version == w.version
    || (UnderWay(w) && w.kind in kinds && version == w.target)
    || (exists kind | kind in kinds :: Begun(labels, kind, version))
  }

  lemma StepKeepsInv(w: World, l: Label)
    requires Inv(w) && Next(w, l).Some?
    ensures Inv(Next(w, l).value)
  {
  }

  /** The version changes by installing only, and what a run is for is fixed when it begins. */
  lemma StepVersion(w: World, l: Label)
    requires Next(w, l).Some?
    ensures var w' := Next(w, l).value;
            && (w'.version == w.version || (l.Install? && UnderWay(w) && w'.version == w.target))
            && (UnderWay(w') ==>
                  (UnderWay(w) && w'.kind == w.kind && w'.target == w.target) || Begins(l, w'.kind, w'.target))
  {
  }

  lemma ComesFirst(w: World, labels: seq<Label>, version: Dir, kinds: set<Kind>)
    requires labels != [] && Next(w, labels[0]).Some?
    requires labels[0].Install? ==> w.kind in kinds
    requires Comes(Next(w, labels[0]).value, labels[1..], version, kinds)
    ensures Comes(w, labels, version, kinds)
  {
    var w' := Next(w, labels[0]).value;
    StepVersion(w, labels[0]);
    if kind :| kind in kinds && Begun(labels[1..], kind, version) {
      assert Begun(labels, kind, version);
    } else if version != w'.version && !UnderWay(w) {
      assert Begun(labels, w'.kind, version);
    }
  }

  lemma {:induction false} VersionsAreTargets(w: World, labels: seq<Label>)
    requires Inv(w) && Exec(w, labels).Some?
    ensures Inv(Exec(w, labels).value)
    ensures Comes(w, labels, Exec(w, labels).value.version, {Compacting, Promoting})
    decreases |labels|
  {
    if labels != [] {
      StepKeepsInv(w, labels[0]);
      assert w.kind == Compacting || w.kind == Promoting;
      VersionsAreTargets(Next(w, labels[0]).value, labels[1..]);
      ComesFirst(w, labels, Exec(w, labels).value.version, {Compacting, Promoting});
    }
  }

  /**
   Over any number of runs of both kinds, failures, deaths between any two file operations and
   repairs, the dataset is complete, or absent with the complete dataset in the backup of the run
   that moved it out; and what is complete is the dataset there was at first or, whole, what a run of
   the schedule began for.
   */
  lemma SwapIsRecoverable(w: World, labels: seq<Label>)
    requires Inv(w) && w.phase.Idle? && Exec(w, labels).Some?
    ensures var w' := Exec(w, labels).value;
            && (|| w'.dataset == Some(w'.version)
                || (w'.dataset.None? && w'.kind in w'.backups && w'.backups[w'.kind] == w'.version))
            && (w'.version == w.version
                || Begun(labels, Compacting, w'.version) || Begun(labels, Promoting, w'.version))
  {
    VersionsAreTargets(w, labels);
  }

  ghost predicate NoInstall(labels: seq<Label>) {
    forall i :: 0 <= i < |labels| ==> !labels[i].Install?
  }

  /** Until a staged directory is installed the version stays the one there was. */
  lemma {:induction false} VersionChangesOnlyByInstall(w: World, labels: seq<Label>)
    requires NoInstall(labels) && Exec(w, labels).Some?
    ensures Exec(w, labels).value.version == w.version
    decreases |labels|
  {
    if labels != [] {
      VersionChangesOnlyByInstall(Next(w, labels[0]).value, labels[1..]);
    }
  }

  // ------------------------------------------------------------------ What a cut-off run leaves

  predicate IsRepair(l: Label) {
    l.ClearLock? || l.ClearBackup? || l.PutBack?
  }

  ghost predicate NoRepairs(labels: seq<Label>) {
    forall i :: 0 <= i < |labels| ==> !IsRepair(labels[i])
  }

  function Other(kind: Kind): Kind {
    if kind == Compacting then Promoting else Compacting
  }

  /** A backup of this kind is there, and it is not that of a run which has moved the dataset out itself. */
  predicate StaleBackup(w: World, kind: Kind) {
    kind in w.backups && (w.kind == kind ==> w.phase.Idle? || w.phase.Staging? || w.phase.Leaving?)
  }

  /**
   A stale backup stays as it is until it is cleared by hand, and no run of its kind installs
   anything: what a schedule makes the dataset is what runs of the other kind began for.
   */
  lemma {:induction false} StaleBackupBlocks(w: World, labels: seq<Label>, kind: Kind)
    requires StaleBackup(w, kind) && NoRepairs(labels) && Exec(w, labels).Some?
    ensures var w' := Exec(w, labels).value;
            && StaleBackup(w', kind) && w'.backups[kind] == w.backups[kind]
            && Comes(w, labels, w'.version, {Other(kind)})
    decreases |labels|
  {
    if labels != [] {
      assert !IsRepair(labels[0]);
      StaleStep(w, labels[0], kind);
      StaleBackupBlocks(Next(w, labels[0]).value, labels[1..], kind);
      ComesFirst(w, labels, Exec(w, labels).value.version, {Other(kind)});
    }
  }

  lemma StaleStep(w: World, l: Label, kind: Kind)
    requires StaleBackup(w, kind) && !IsRepair(l) && Next(w, l).Some?
    ensures var w' := Next(w, l).value; StaleBackup(w', kind) && w'.backups[kind] == w.backups[kind]
    ensures l.Install? ==> w.kind == Other(kind)
  {
  }

  /** One run of this kind for this target that gets to its end, leaving everything else as it was. */
  ghost predicate GoesThrough(w: World, kind: Kind, target: Dir, labels: seq<Label>) {
    && NoRepairs(labels) && Begun(labels, kind, target) && Exec(w, labels).Some?
    && var w' := Exec(w, labels).value;
       && w'.phase.Idle? && !w'.locked && w'.dataset == Some(target) && w'.version == target
       && kind !in w'.backups && w'.backups == w.backups
  }

  lemma {:induction false} ExecAppend(w: World, a: seq<Label>, b: seq<Label>)
    requires Exec(w, a).Some?
    ensures Exec(w, a + b) == Exec(Exec(w, a).value, b)
    decreases |a|
  {
    if a == [] {
      assert a + b == b;
    } else {
      assert (a + b)[0] == a[0] && (a + b)[1..] == a[1..] + b;
      ExecAppend(Next(w, a[0]).value, a[1..], b);
    }
  }

  lemma OneMore(target: Dir, rest: set<string>, name: string)
    requires name in rest && rest <= target.Keys
    ensures (target - rest)[name := target[name]] == target - (rest - {name})
  {
  }

  /** The files still to be staged, written one by one. */
  lemma {:induction false} StageRest(w: World, rest: set<string>) returns (labels: seq<Label>)
    requires w.phase.Staging? && rest <= w.target.Keys && w.staged == Some(w.target - rest)
    ensures Exec(w, labels) == Some(w.(staged := Some(w.target))) && NoRepairs(labels)
    decreases rest
  {
    if rest == {} {
      labels := [];
      assert w.target - {} == w.target;
    } else {
      var name :| name in rest;
      var l := StageFile(name, w.target[name]);
      var w' := Next(w, l).value;
      OneMore(w.target, rest, name);
      var more := StageRest(w', rest - {name});
      labels := [l] + more;
      assert labels[1..] == more;
    }
  }

  /** From the start of a run to the moment its target is staged. */
  lemma StageAll(w: World, kind: Kind, target: Dir) returns (labels: seq<Label>)
    requires w.phase.Idle? && !w.locked && w.dataset.Some?
    ensures Begun(labels, kind, target) && NoRepairs(labels)
    ensures Exec(w, labels) ==
            Some(w.(staged := Some(target), locked := true, kind := kind, target := target, phase := Staging))
  {
    if kind == Compacting {
      var w1 := Next(w, Begin(target)).value;
      assert target - target.Keys == map[];
      var rest := StageRest(w1, target.Keys);
      labels := [Begin(target)] + rest;
      assert labels[1..] == rest;
    } else {
      labels := [Adopt(target)];
      assert labels[1..] == [];
    }
  }

  lemma {:induction false} BegunAppend(a: seq<Label>, b: seq<Label>, kind: Kind, target: Dir)
    requires Begun(a, kind, target)
    ensures Begun(a + b, kind, target)
  {
    assert (a + b)[0] == a[0] && (a + b)[1..] == a[1..] + b;
    if !Begins(a[0], kind, target) {
      BegunAppend(a[1..], b, kind, target);
    }
  }

  lemma SwapSteps(w: World)
    requires w.phase.Staging? && w.dataset.Some? && w.kind !in w.backups && w.staged == Some(w.target)
    ensures Exec(w, [MoveOut, Install]) ==
            Some(w.(dataset := Some(w.target), backups := w.backups[w.kind := w.dataset.value],
                    staged := None, phase := Removing, version := w.target))
  {
    var two := [MoveOut, Install];
    assert two[1..] == [Install] && two[1..][1..] == [];
  }

  lemma LastSteps(w: World)
    requires w.phase.Removing? && w.staged.None?
    ensures Exec(w, [RemoveDone, Leave]) ==
            Some(w.(backups := w.backups - {w.kind}, locked := false, phase := Idle))
  {
    var two := [RemoveDone, Leave];
    assert two[1..] == [Leave] && two[1..][1..] == [];
  }

  /** A run of a kind can go through if and only if no backup of that kind is there. */
  lemma GoesThroughIff(w: World, kind: Kind, target: Dir)
    requires w.phase.Idle? && !w.locked && w.dataset.Some?
    ensures (exists labels :: GoesThrough(w, kind, target, labels)) <==> kind !in w.backups
  {
    if kind in w.backups {
      forall labels ensures !GoesThrough(w, kind, target, labels) {
        if NoRepairs(labels) && Exec(w, labels).Some? {
          StaleBackupBlocks(w, labels, kind);
        }
      }
    } else {
      var first := StageAll(w, kind, target);
      var w1 := Exec(w, first).value;
      SwapSteps(w1);
      var w2 := Exec(w1, [MoveOut, Install]).value;
      LastSteps(w2);
      assert w2.backups - {kind} == w.backups;
      ExecAppend(w1, [MoveOut, Install], [RemoveDone, Leave]);
      ExecAppend(w, first, [MoveOut, Install] + [RemoveDone, Leave]);
      var labels := first + ([MoveOut, Install] + [RemoveDone, Leave]);
      BegunAppend(first, [MoveOut, Install] + [RemoveDone, Leave], kind, target);
      assert GoesThrough(w, kind, target, labels);
    }
  }

  /** After a process died in a run nothing begins any more until the lock file is removed by hand. */
  lemma DeadRunBlocksAll(w: World, labels: seq<Label>)
    requires w.phase.Idle? && w.locked && Exec(w, labels).Some?
    ensures NoRepairs(labels) ==> labels == []
  {
    assert labels != [] ==> IsRepair(labels[0]);
  }

  /** A promotion that could not remove its backup. */
  lemma BackupStays(w: World, target: Dir) returns (labels: seq<Label>)
    requires w.phase.Idle? && !w.locked && w.dataset.Some? && Promoting !in w.backups
    ensures NoRepairs(labels)
    ensures Exec(w, labels) ==
            Some(w.(dataset := Some(target), backups := w.backups[Promoting := w.dataset.value], staged := None,
                    kind := Promoting, target := target, version := target))
  {
    var first := StageAll(w, Promoting, target);
    var w1 := Exec(w, first).value;
    SwapSteps(w1);
    var w2 := Exec(w1, [MoveOut, Install]).value;
    var leaves := [Raise, Leave];
    assert leaves[1..] == [Leave] && leaves[1..][1..] == [];
    assert Exec(w2, leaves) == Some(w2.(locked := false, phase := Idle));
    ExecAppend(w1, [MoveOut, Install], leaves);
    ExecAppend(w, first, [MoveOut, Install] + leaves);
    labels := first + ([MoveOut, Install] + leaves);
  }

  /** A compaction that died between its two moves. */
  lemma DiesBetween(w: World, target: Dir) returns (labels: seq<Label>)
    requires w.phase.Idle? && !w.locked && w.dataset.Some? && Compacting !in w.backups
    ensures NoRepairs(labels)
    ensures Exec(w, labels) ==
            Some(w.(dataset := None, backups := w.backups[Compacting := w.dataset.value], staged := Some(target),
                    locked := true, kind := Compacting, target := target))
  {
    var first := StageAll(w, Compacting, target);
    var w1 := Exec(w, first).value;
    var dies := [MoveOut, Kill];
    assert dies[1..] == [Kill] && dies[1..][1..] == [];
    ExecAppend(w, first, dies);
    labels := first + dies;
  }

  /**
   Both in turn: the dataset is gone and both backups are there; only the compaction's is the current
   dataset, the other is the one from before the promotion.
   */
  lemma BothBackups(w: World, promoted: Dir, compacted: Dir) returns (labels: seq<Label>)
    requires w.phase.Idle? && !w.locked && w.dataset == Some(w.version) && w.backups == map[]
    ensures NoRepairs(labels) && Exec(w, labels).Some?
    ensures var w' := Exec(w, labels).value;
            && w'.dataset.None? && w'.backups == map[Promoting := w.version, Compacting := promoted]
            && w'.version == promoted && w'.kind == Compacting
  {
    var a := BackupStays(w, promoted);
    var b := DiesBetween(Exec(w, a).value, compacted);
    ExecAppend(w, a, b);
    labels := a + b;
  }

  // ------------------------------------------------------------------ The swap itself

  datatype Outcome = Finished | Rejected | RolledBack | Unfinished | Killed

  /** The steps of a run, the last one first, and where each was taken. */
  datatype Trip = Stay | Go(before: Trip, at: World, l: Label)

  ghost predicate Travels(w0: World, trip: Trip, w: World)
    decreases trip
  {
    match trip
    case Stay => w == w0
    case Go(before, at, l) => Travels(w0, before, at) && Next(at, l) == Some(w)
  }

  function Labels(trip: Trip): seq<Label> {
    match trip
    case Stay => []
    case Go(before, _, l) => Labels(before) + [l]
  }

  /** What a method went through is a schedule of the protocol. */
  lemma {:induction false} TripIsSchedule(w0: World, trip: Trip, w: World)
    requires Travels(w0, trip, w)
    ensures Exec(w0, Labels(trip)) == Some(w)
  {
    if trip.Go? {
      TripIsSchedule(w0, trip.before, trip.at);
      ExecAppend(w0, Labels(trip.before), [trip.l]);
      assert [trip.l][1..] == [];
    }
  }

  lemma Take(w0: World, trip: Trip, w: World, l: Label) returns (trip': Trip, w': World)
    requires Travels(w0, trip, w) && Next(w, l).Some?
    ensures Travels(w0, trip', w') && Next(w, l) == Some(w')
  {
    trip', w' := Go(trip, w, l), Next(w, l).value;
  }

  lemma WithoutAbsent(backups: map<Kind, Dir>, kind: Kind, dir: Dir)
    requires kind !in backups
    ensures backups - {kind} == backups && backups[kind := dir] - {kind} == backups
  {
  }

  class Disk {
    var dataset: Option<Dir>
    var backups: map<Kind, Dir>
    var staged: Option<Dir>
    var locked: bool

    constructor (dataset: Option<Dir>, backups: map<Kind, Dir>)
      ensures this.dataset == dataset && this.backups == backups && staged.None? && !locked
    {
      this.dataset, this.backups, staged, locked := dataset, backups, None, false;
    }

    ghost predicate Shows(w: World)
      reads this
    {
      dataset == w.dataset && backups == w.backups && staged == w.staged && locked == w.locked
    }

    /** The run is cut short: the process dies, or an operation raises. */
    method Stop(ghost w0: World, ghost trip0: Trip, ghost at: World)
      returns (outcome: Outcome, ghost trip: Trip, ghost w: World)
      requires Travels(w0, trip0, at) && Shows(at) && !at.phase.Idle?
      ensures Travels(w0, trip, w) && Shows(w) && w == at.(phase := if outcome.Killed? then Idle else Leaving)
      ensures outcome.Killed? || outcome.Unfinished?
    {
      var killed := Strikes(true);
      if killed {
        trip, w := Take(w0, trip0, at, Kill);
        return Killed, trip, w;
      }
      trip, w := Take(w0, trip0, at, Raise);
      outcome := Unfinished;
    }

    /**
     Move, install, remove the backup. `moves` and `installs` tell whether the two os.replace calls
     succeed; when `mayStop` holds the process may die anywhere, or the restore or the removal fail as
     well. Every step is one of the protocol. Only a finished swap leaves the staged directory as the
     dataset and no backup of its kind; a failed install leaves everything as it was.
     */
    method Swap(
      kind: Kind, moves: bool, installs: bool, mayStop: bool, ghost w0: World, ghost trip0: Trip, ghost at: World)
      returns (outcome: Outcome, ghost trip: Trip, ghost w: World)
      requires Travels(w0, trip0, at) && Shows(at) && at.phase.Staging? && at.kind == kind
      requires at.dataset.Some? && at.staged == Some(at.target)
      modifies this
      ensures Travels(w0, trip, w) && Shows(w) && w.phase == (if outcome.Killed? then Idle else Leaving)
      ensures w.kind == kind && w.locked == at.locked && w.target == at.target
      ensures w.version == at.version || w.version == at.target
      ensures !mayStop ==> outcome == if kind in at.backups || !moves then Rejected
                                      else if installs then Finished else RolledBack
      ensures kind in at.backups ==> outcome.Rejected?
      ensures outcome.Finished? ==> dataset == Some(at.target) && backups == at.backups && staged.None?
      ensures outcome.Rejected? || outcome.RolledBack? ==>
                dataset == at.dataset && backups == at.backups && staged == at.staged
      ensures outcome.Unfinished? || outcome.Killed? ==>
                || dataset == at.dataset
                || (dataset.None? && kind in backups && backups[kind] == at.dataset.value)
                || (dataset == Some(at.target) && staged.None?)
      ensures backups - {kind} == at.backups - {kind}
    {
      trip, w := trip0, at;
      if kind in backups || !moves {
        trip, w := Take(w0, trip, w, Raise);
        return Rejected, trip, w;
      }
      dataset, backups := None, backups[kind := dataset.value];
      trip, w := Take(w0, trip, w, MoveOut);
      outcome, trip, w := InstallStaged(kind, installs, mayStop, w0, trip, w);
      WithoutAbsent(at.backups, kind, at.dataset.value);
      if kind !in backups {
        WithoutAbsent(backups, kind, at.dataset.value);
      }
    }

    /** With the dataset moved out: install the staged directory, or move the dataset back. */
    method InstallStaged(
      kind: Kind, installs: bool, mayStop: bool, ghost w0: World, ghost trip0: Trip, ghost at: World)
      returns (outcome: Outcome, ghost trip: Trip, ghost w: World)
      requires Travels(w0, trip0, at) && Shows(at) && at.phase.MovedOut? && at.kind == kind
      requires at.dataset.None? && kind in at.backups && at.staged == Some(at.target)
      modifies this
      ensures Travels(w0, trip, w) && Shows(w)
      ensures w == at.(dataset := w.dataset, backups := w.backups, staged := w.staged, version := w.version,
                       phase := if outcome.Killed? then Idle else Leaving)
      ensures w.version == at.version || w.version == at.target
      ensures backups - {kind} == at.backups - {kind}
      ensures !outcome.Rejected? && (!mayStop ==> outcome == if installs then Finished else RolledBack)
      ensures outcome.Finished? ==> dataset == Some(at.target) && kind !in backups && staged.None?
      ensures outcome.RolledBack? ==>
                dataset == Some(at.backups[kind]) && kind !in backups && staged == at.staged
      ensures outcome.Unfinished? || outcome.Killed? ==>
                || (dataset.None? && backups == at.backups)
                || (dataset == Some(at.target) && staged.None?)
    {
      trip, w := trip0, at;
      var stops := Strikes(mayStop);
      if stops {
        outcome, trip, w := Stop(w0, trip, w);
        return;
      }
      if !installs {
        trip, w := Take(w0, trip, w, InstallFails);
        stops := Strikes(mayStop);
        if stops {
          outcome, trip, w := Stop(w0, trip, w);  // dying before the restore, or the restore fails as well
          return;
        }
        dataset, backups := Some(backups[kind]), backups - {kind};
        trip, w := Take(w0, trip, w, Restore);
        return RolledBack, trip, w;
      }
      dataset, staged := staged, None;
      trip, w := Take(w0, trip, w, Install);
      outcome, trip, w := RemoveBackup(kind, mayStop, w0, trip, w);
    }

    /** rmtree of the backup, name by name. */
    method RemoveBackup(kind: Kind, mayStop: bool, ghost w0: World, ghost trip0: Trip, ghost at: World)
      returns (outcome: Outcome, ghost trip: Trip, ghost w: World)
      requires Travels(w0, trip0, at) && Shows(at) && at.phase.Removing? && at.kind == kind && kind in at.backups
      modifies this`backups
      ensures Travels(w0, trip, w) && Shows(w)
      ensures w == at.(backups := w.backups, phase := if outcome.Killed? then Idle else Leaving)
      ensures backups - {kind} == at.backups - {kind}
      ensures outcome.Finished? ==> backups == at.backups - {kind}
      ensures outcome.Finished? || outcome.Killed? || outcome.Unfinished?
      ensures !mayStop ==> outcome.Finished?
    {
      trip, w := trip0, at;
      var names := backups[kind].Keys;
      while names != {}
        invariant Travels(w0, trip, w) && Shows(w) && w == at.(backups := w.backups) && kind in backups
        invariant backups - {kind} == at.backups - {kind}
        decreases names
      {
        var stops := Strikes(mayStop);
        if stops {
          outcome, trip, w := Stop(w0, trip, w);
          return;
        }
        var name :| name in names;
        names := names - {name};
        backups := backups[kind := backups[kind] - {name}];
        trip, w := Take(w0, trip, w, Remove(name));
      }
      backups := backups - {kind};
      trip, w := Take(w0, trip, w, RemoveDone);
      outcome := Finished;
    }

    /** The finally block and the release of the lock; a staging directory of its own is removed. */
    method Leave(kind: Kind, ghost w0: World, ghost trip0: Trip, ghost at: World)
      returns (ghost trip: Trip, ghost w: World)
      requires Travels(w0, trip0, at) && Shows(at) && at.phase.Leaving? && at.kind == kind
      modifies this`staged, this`locked
      ensures Travels(w0, trip, w) && Shows(w) && !locked
      ensures w == at.(staged := if kind == Compacting then None else at.staged, locked := false, phase := Idle)
    {
      if kind == Compacting {
        staged := None;
      }
      locked := false;
      trip, w := Take(w0, trip0, at, Label.Leave);
    }
  }
}
