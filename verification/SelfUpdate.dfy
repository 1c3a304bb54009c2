/** The binary swap of a self-update: concurrent callers behind one guard, and
    renames that may fail at any point. What os.Executable answers is a choice of
    the environment at every call. */
module SelfUpdate {

  /** Which binary each path holds. */
  type Disk = map<string, nat>

  function Backup(path: string): (r: string)
    ensures r != path
  {
    path + ".bak"
  }

  /** os.Remove; a removal that fails changes nothing. */
  function Removed(disk: Disk, path: string, ok: bool): Disk {
    if ok then disk - {path} else disk
  }

  /** os.Rename moves the file, or fails and changes nothing; it cannot succeed when
      there is nothing to move. */
  predicate Renames(disk: Disk, from: string, ok: bool) {
    ok && from in disk
  }

  function Renamed(disk: Disk, from: string, to: string): Disk
    requires from in disk
  {
    (disk - {from})[to := disk[from]]
  }

  lemma RenamedBack(disk: Disk, from: string, to: string)
    requires from in disk && from != to
    ensures Renamed(Renamed(disk, from, to), to, from) == disk - {to}
    ensures Renamed(disk - {to}, from, to) == Renamed(disk, from, to)
  {}

  // One caller

  /** The outcomes the environment decides: whether everything up to the lookup of the
      executable succeeds, what that lookup answers, and whether the removal and each
      rename succeed. `staged` is the verified new binary in the caller's own
      temporary directory. */
  datatype Luck = Luck(staged: nat, prepared: bool, exe: string, removeOk: bool, backupOk: bool, replaceOk: bool,
                       restoreOk: bool)

  datatype Outcome = Updated | InProgress | Failed

  /** An update goes through when it was prepared, there is a binary to move away,
      and both renames succeed. */
  predicate Succeeds(disk: Disk, luck: Luck) {
    luck.prepared && Renames(disk, luck.exe, luck.backupOk) && luck.replaceOk
  }

  /** The new binary at the executable path, the one found there in the backup. */
  function AfterSuccess(disk: Disk, luck: Luck): Disk
    requires luck.exe in disk
  {
    disk[Backup(luck.exe) := disk[luck.exe]][luck.exe := luck.staged]
  }

  /** What a failed update leaves: the disk as it was, perhaps without the old
      backup, or, if the restoring rename failed too, the executable in the backup. */
  function AfterFailure(disk: Disk, luck: Luck): Disk {
    if !luck.prepared then disk
    else if !Renames(disk, luck.exe, luck.backupOk) then Removed(disk, Backup(luck.exe), luck.removeOk)
    else if luck.restoreOk then disk - {Backup(luck.exe)}
    else Renamed(disk, luck.exe, Backup(luck.exe))
  }

  /** A failed update keeps the executable in its place exactly unless it had been
      moved away and could not be moved back; then the backup has it. */
  lemma FailureKeepsExecutableIff(disk: Disk, luck: Luck)
    requires !Succeeds(disk, luck) && luck.exe in disk
    ensures var after := AfterFailure(disk, luck);
            && (luck.exe in after <==> !luck.prepared || !luck.backupOk || luck.restoreOk)
            && (luck.exe in after ==> after[luck.exe] == disk[luck.exe])
            && (luck.exe !in after ==> Backup(luck.exe) in after && after[Backup(luck.exe)] == disk[luck.exe])
  {}

  class Installation {
    var updateInProgress: bool
    var disk: Disk

    constructor (disk: Disk)
      ensures !updateInProgress && this.disk == disk
    {
      updateInProgress, this.disk := false, disk;
    }

    /** SelfUpdate run without interference. */
    method SelfUpdate(luck: Luck) returns (r: Outcome)
      modifies this
      ensures updateInProgress == old(updateInProgress)
      ensures r == InProgress <==> old(updateInProgress)
      ensures r == InProgress ==> disk == old(disk)
      ensures r == Updated <==> !old(updateInProgress) && Succeeds(old(disk), luck)
      ensures r == Updated ==> disk == AfterSuccess(old(disk), luck)
      ensures r == Failed ==> disk == AfterFailure(old(disk), luck)
    {
      if updateInProgress {
        return InProgress;
      }
      updateInProgress := true;
      r := Swap(luck);
      updateInProgress := false;
    }

    /** Everything between the guard and its deferred reset. */
    method Swap(luck: Luck) returns (r: Outcome)
      modifies this`disk
      ensures r != InProgress
      ensures r == Updated <==> Succeeds(old(disk), luck)
      ensures r == Updated ==> disk == AfterSuccess(old(disk), luck)
      ensures r == Failed ==> disk == AfterFailure(old(disk), luck)
    {
      if !luck.prepared {
        return Failed;
      }
      var selfPath := luck.exe;
      var backupPath := Backup(selfPath);
      if selfPath in disk {
        RenamedBack(disk, selfPath, backupPath);
      }
      disk := Removed(disk, backupPath, luck.removeOk);
      if !Renames(disk, selfPath, luck.backupOk) {
        return Failed;
      }
      disk := Renamed(disk, selfPath, backupPath);
      if !luck.replaceOk {
        if Renames(disk, backupPath, luck.restoreOk) {
          disk := Renamed(disk, backupPath, selfPath);
        }
        return Failed;
      }
      disk := disk[selfPath := luck.staged];
      return Updated;
    }
  }

  // Any number of callers

  /** How a caller that got past the guard ends, and at which executable path. */
  datatype Ending = Unprepared | Kept(exe: string) | Stranded(exe: string) | Swapped(exe: string)

  function ResultOf(ending: Ending): Outcome {
    if ending.Swapped? then Updated else Failed
  }

  /** Where a caller stands. `found` is the disk when the caller got past the guard. */
  datatype Phase =
    | Calling
    | Guarded(found: Disk)                  // downloading, verifying, extracting
    | Backing(found: Disk, exe: string)     // old backup dealt with; about to move the executable away
    | Replacing(found: Disk, exe: string)   // executable moved to the backup path
    | Restoring(found: Disk, exe: string)   // second rename failed
    | Leaving(found: Disk, ending: Ending)  // about to reset the guard
    | Returned(result: Outcome)

  datatype Caller = Caller(staged: nat, phase: Phase)

  /** `strandings` counts the restoring renames that failed. */
  datatype State = State(guard: bool, disk: Disk, callers: seq<Caller>, strandings: nat)

  datatype Step =
    | Call(staged: nat)
    | Enter(c: nat)                                  // CompareAndSwap
    | PrepareFails(c: nat)
    | RemoveBackup(c: nat, exe: string, ok: bool)    // the executable path is looked up here
    | BackUp(c: nat, ok: bool)
    | Replace(c: nat, ok: bool)
    | Restore(c: nat, ok: bool)
    | Leave(c: nat)

  predicate Enabled(s: State, a: Step) {
    match a
    case Call(_) => true
    case Enter(c) => c < |s.callers| && s.callers[c].phase.Calling?
    case PrepareFails(c) => c < |s.callers| && s.callers[c].phase.Guarded?
    case RemoveBackup(c, _, _) => c < |s.callers| && s.callers[c].phase.Guarded?
    case BackUp(c, _) => c < |s.callers| && s.callers[c].phase.Backing?
    case Replace(c, _) => c < |s.callers| && s.callers[c].phase.Replacing?
    case Restore(c, _) => c < |s.callers| && s.callers[c].phase.Restoring?
    case Leave(c) => c < |s.callers| && s.callers[c].phase.Leaving?
  }

  /** The new phase of the caller that moves. */
  function PhaseAfter(s: State, a: Step): Phase
    requires Enabled(s, a) && !a.Call?
  {
    var p := s.callers[a.c].phase;
    match a
    case Enter(_) => if s.guard then Returned(InProgress) else Guarded(s.disk)
    case PrepareFails(_) => Leaving(p.found, Unprepared)
    case RemoveBackup(_, exe, _) => Backing(p.found, exe)
    case BackUp(_, ok) =>
      if Renames(s.disk, p.exe, ok) then Replacing(p.found, p.exe) else Leaving(p.found, Kept(p.exe))
    case Replace(_, ok) => if ok then Leaving(p.found, Swapped(p.exe)) else Restoring(p.found, p.exe)
    case Restore(_, ok) => Leaving(p.found, if Renames(s.disk, Backup(p.exe), ok) then Kept(p.exe) else Stranded(p.exe))
    case Leave(_) => Returned(ResultOf(p.ending))
  }

  function DiskAfter(s: State, a: Step): Disk
    requires Enabled(s, a)
  {
    match a
    case RemoveBackup(_, exe, ok) => Removed(s.disk, Backup(exe), ok)
    case BackUp(c, ok) =>
      var exe := s.callers[c].phase.exe;
      if Renames(s.disk, exe, ok) then Renamed(s.disk, exe, Backup(exe)) else s.disk
    case Replace(c, ok) => if ok then s.disk[s.callers[c].phase.exe := s.callers[c].staged] else s.disk
    case Restore(c, ok) =>
      var exe := s.callers[c].phase.exe;
      if Renames(s.disk, Backup(exe), ok) then Renamed(s.disk, Backup(exe), exe) else s.disk
    case _ => s.disk
  }

  function GuardAfter(s: State, a: Step): bool {
    match a
    case Enter(_) => true
    case Leave(_) => false
    case _ => s.guard
  }

  function StrandingsAfter(s: State, a: Step): nat
    requires Enabled(s, a)
  {
    match a
    case Restore(_, _) => s.strandings + if PhaseAfter(s, a).ending.Stranded? then 1 else 0
    case _ => s.strandings
  }

  function CallersAfter(s: State, a: Step): seq<Caller>
    requires Enabled(s, a)
  {
    match a
    case Call(staged) => s.callers + [Caller(staged, Calling)]
    case _ => s.callers[a.c := s.callers[a.c].(phase := PhaseAfter(s, a))]
  }

  function Next(s: State, a: Step): State
    requires Enabled(s, a)
  {
    State(GuardAfter(s, a), DiskAfter(s, a), CallersAfter(s, a), StrandingsAfter(s, a))
  }

  function Init(disk: Disk): State {
    State(false, disk, [], 0)
  }

  ghost predicate Legal(s: State, run: seq<Step>)
    decreases |run|, 0
  {
    run == [] || (Legal(s, run[..|run| - 1]) && Enabled(After(s, run[..|run| - 1]), run[|run| - 1]))
  }

  ghost function After(s: State, run: seq<Step>): State
    requires Legal(s, run)
    decreases |run|, 1
  {
    if run == [] then s else Next(After(s, run[..|run| - 1]), run[|run| - 1])
  }

  // Invariants

  predicate Inside(p: Phase) {
    !p.Calling? && !p.Returned?
  }

  ghost predicate SomeoneInside(s: State) {
    exists c :: 0 <= c < |s.callers| && Inside(s.callers[c].phase)
  }

  /** The guard is set exactly while one caller is inside, and there is never a
      second one. */
  ghost predicate GuardExact(s: State) {
    && (forall c, d :: 0 <= c < d < |s.callers| && Inside(s.callers[c].phase) ==> !Inside(s.callers[d].phase))
    && (s.guard <==> SomeoneInside(s))
  }

  /** The disk, or the disk without the backup of the executable. */
  predicate KeptFrom(disk: Disk, found: Disk, exe: string) {
    disk == found || disk == found - {Backup(exe)}
  }

  predicate MovedFrom(disk: Disk, found: Disk, exe: string) {
    exe in found && disk == Renamed(found, exe, Backup(exe))
  }

  predicate EndsAs(disk: Disk, found: Disk, staged: nat, ending: Ending) {
    match ending
    case Unprepared => disk == found
    case Kept(exe) => KeptFrom(disk, found, exe)
    case Stranded(exe) => MovedFrom(disk, found, exe)
    case Swapped(exe) => exe in found && disk == found[Backup(exe) := found[exe]][exe := staged]
  }

  /** What the whole disk holds, step by step, relative to what the caller found. */
  predicate DiskFits(disk: Disk, caller: Caller) {
    match caller.phase
    case Guarded(found) => disk == found
    case Backing(found, exe) => KeptFrom(disk, found, exe)
    case Replacing(found, exe) => MovedFrom(disk, found, exe)
    case Restoring(found, exe) => MovedFrom(disk, found, exe)
    case Leaving(found, ending) => EndsAs(disk, found, caller.staged, ending)
    case _ => true
  }

  ghost predicate DiskSound(s: State) {
    forall c :: 0 <= c < |s.callers| ==> DiskFits(s.disk, s.callers[c])
  }

  lemma OnlyOneInside(s: State, c: nat, d: nat)
    requires GuardExact(s) && c < |s.callers| && d < |s.callers| && c != d
    ensures !(Inside(s.callers[c].phase) && Inside(s.callers[d].phase))
  {}

  lemma InsideFrom(s: State, c: nat)
    requires c < |s.callers| && Inside(s.callers[c].phase)
    ensures SomeoneInside(s)
  {}

  /** Only the caller that moves changes sides, and it enters only an open guard. */
  lemma GuardStep(s: State, a: Step)
    requires GuardExact(s) && Enabled(s, a)
    ensures GuardExact(Next(s, a))
  {
    var s' := Next(s, a);
    if s.guard {
      var c :| 0 <= c < |s.callers| && Inside(s.callers[c].phase);
      if s'.guard {
        assert s'.callers[c].phase == if !a.Call? && a.c == c then PhaseAfter(s, a) else s.callers[c].phase;
        InsideFrom(s', c);
      }
    } else if s'.guard {
      InsideFrom(s', a.c);
    }
  }

  /** The caller that moves leaves the disk in keeping with its new phase. */
  lemma MoverFits(s: State, a: Step)
    requires Enabled(s, a) && !a.Call? && DiskFits(s.disk, s.callers[a.c])
    ensures DiskFits(DiskAfter(s, a), s.callers[a.c].(phase := PhaseAfter(s, a)))
  {
    var p := s.callers[a.c].phase;
    match a {
      case BackUp(_, _) =>
        if p.exe in p.found {
          RenamedBack(p.found, p.exe, Backup(p.exe));
        }
      case Restore(_, _) => RenamedBack(p.found, p.exe, Backup(p.exe));
      case _ =>
    }
  }

  lemma DiskStep(s: State, a: Step)
    requires GuardExact(s) && DiskSound(s) && Enabled(s, a)
    ensures DiskSound(Next(s, a))
  {
    var s' := Next(s, a);
    if !a.Call? {
      MoverFits(s, a);
      forall c | 0 <= c < |s'.callers|
        ensures DiskFits(s'.disk, s'.callers[c])
      {
        if c != a.c {
          assert DiskFits(s.disk, s.callers[c]);
          OnlyOneInside(s, a.c, c);
        }
      }
    }
  }

  lemma {:induction false} AlwaysSound(disk: Disk, run: seq<Step>)
    requires Legal(Init(disk), run)
    ensures GuardExact(After(Init(disk), run)) && DiskSound(After(Init(disk), run))
    decreases |run|
  {
    if run != [] {
      var s, a := After(Init(disk), run[..|run| - 1]), run[|run| - 1];
      AlwaysSound(disk, run[..|run| - 1]);
      GuardStep(s, a);
      DiskStep(s, a);
    }
  }

  // Results

  /** However many callers race, at most one is between the guard and its reset. */
  lemma OneCallerInside(disk: Disk, run: seq<Step>, c: nat, d: nat)
    requires Legal(Init(disk), run)
    requires c < |After(Init(disk), run).callers| && d < |After(Init(disk), run).callers|
    requires Inside(After(Init(disk), run).callers[c].phase) && Inside(After(Init(disk), run).callers[d].phase)
    ensures c == d
  {
    AlwaysSound(disk, run);
  }

  /** A caller about to return resets a guard that only it holds. If it returns nil,
      its executable path holds the new binary and the backup what was found there;
      if it returns an error, the executable is where it was found unless the restoring
      rename failed, and then the backup has it. No other path changed. */
  lemma ReturnTellsTheTruth(disk: Disk, run: seq<Step>, c: nat)
    requires Legal(Init(disk), run) && Enabled(After(Init(disk), run), Leave(c))
    ensures var s := After(Init(disk), run);
            var p := s.callers[c].phase;
            && (forall d :: 0 <= d < |s.callers| && d != c ==> !Inside(s.callers[d].phase))
            && !Next(s, Leave(c)).guard
            && EndsAs(s.disk, p.found, s.callers[c].staged, p.ending)
  {
    AlwaysSound(disk, run);
    var s := After(Init(disk), run);
    assert DiskFits(s.disk, s.callers[c]);
    assert Inside(s.callers[c].phase);
    forall d | 0 <= d < |s.callers| && d != c
      ensures !Inside(s.callers[d].phase)
    {
      OnlyOneInside(s, c, d);
    }
  }

  // One executable path

  /** Every lookup of the run answers the same path. */
  ghost predicate OneExe(run: seq<Step>, exe: string) {
    forall a :: a in run && a.RemoveBackup? ==> a.exe == exe
  }

  /** The path a caller works at is that path. */
  predicate WorksAt(p: Phase, exe: string) {
    match p
    case Backing(_, e) => e == exe
    case Replacing(_, e) => e == exe
    case Restoring(_, e) => e == exe
    case Leaving(_, Kept(e)) => e == exe
    case Leaving(_, Stranded(e)) => e == exe
    case Leaving(_, Swapped(e)) => e == exe
    case _ => true
  }

  /** What one caller shows of the executable: there so far, or lost for good. */
  predicate CallerFits(p: Phase, exe: string, lost: bool) {
    && WorksAt(p, exe)
    && (if lost then !p.Replacing? && !p.Restoring? && (p.Leaving? ==> !p.ending.Swapped?)
        else Inside(p) ==> exe in p.found && (p.Leaving? ==> !p.ending.Stranded?))
  }

  /** Between updates the executable is there exactly as long as no restoring rename
      has failed; once one has, no later caller brings it back. */
  ghost predicate BinarySound(s: State, exe: string) {
    && (if s.strandings > 0 then exe !in s.disk else !s.guard ==> exe in s.disk)
    && (forall c :: 0 <= c < |s.callers| ==> CallerFits(s.callers[c].phase, exe, s.strandings > 0))
  }

  lemma MoverKeepsBinary(s: State, a: Step, exe: string)
    requires Enabled(s, a) && !a.Call? && DiskFits(s.disk, s.callers[a.c]) && GuardExact(s)
    requires BinarySound(s, exe) && (a.RemoveBackup? ==> a.exe == exe)
    ensures CallerFits(PhaseAfter(s, a), exe, StrandingsAfter(s, a) > 0)
    ensures if StrandingsAfter(s, a) > 0 then exe !in DiskAfter(s, a) else !GuardAfter(s, a) ==> exe in DiskAfter(s, a)
  {
    assert CallerFits(s.callers[a.c].phase, exe, s.strandings > 0);
    if s.strandings == 0 && a.Leave? {
      assert EndsAs(s.disk, s.callers[a.c].phase.found, s.callers[a.c].staged, s.callers[a.c].phase.ending);
    }
  }

  lemma BinaryStep(s: State, a: Step, exe: string)
    requires GuardExact(s) && DiskSound(s) && BinarySound(s, exe) && Enabled(s, a)
    requires a.RemoveBackup? ==> a.exe == exe
    ensures BinarySound(Next(s, a), exe)
  {
    var s' := Next(s, a);
    if !a.Call? {
      assert DiskFits(s.disk, s.callers[a.c]);
      MoverKeepsBinary(s, a, exe);
      forall c | 0 <= c < |s'.callers|
        ensures CallerFits(s'.callers[c].phase, exe, s'.strandings > 0)
      {
        assert CallerFits(s.callers[c].phase, exe, s.strandings > 0);
        if c != a.c {
          OnlyOneInside(s, a.c, c);
        }
      }
    }
  }

  lemma {:induction false} AlwaysBinary(disk: Disk, run: seq<Step>, exe: string)
    requires exe in disk && Legal(Init(disk), run) && OneExe(run, exe)
    ensures BinarySound(After(Init(disk), run), exe)
    decreases |run|
  {
    if run != [] {
      AlwaysSound(disk, run[..|run| - 1]);
      AlwaysBinary(disk, run[..|run| - 1], exe);
      BinaryStep(After(Init(disk), run[..|run| - 1]), run[|run| - 1], exe);
    }
  }

  /** If every caller is told the same executable path, then whenever no update is in
      progress that path holds a binary if and only if no restoring rename has ever
      failed. */
  lemma ExecutableKeptIff(disk: Disk, run: seq<Step>, exe: string)
    requires exe in disk && Legal(Init(disk), run) && OneExe(run, exe) && !After(Init(disk), run).guard
    ensures exe in After(Init(disk), run).disk <==> After(Init(disk), run).strandings == 0
  {
    AlwaysBinary(disk, run, exe);
  }
}
