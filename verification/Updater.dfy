/** The agent's own update cycle: check, swap, restart, and try again. */
module Updater {
  import opened Versions
  import opened SelfUpdate

  // The release check

  datatype Body = Undecodable | Release(tag: string)
  datatype Reply = Unreachable | Http(status: nat, body: Body)
  datatype Check = CheckFailed | NothingNew | Offered(tag: string)

  /** CheckForUpdate on the answer of the releases endpoint. */
  method CheckForUpdate(reply: Reply, current: string) returns (r: Check)
    ensures forall tag :: r == Offered(tag) <==> reply == Http(200, Release(tag)) && Accepts(tag, current)
    ensures r.CheckFailed? <==>
            reply.Unreachable? || (reply.status != 404 && (reply.status != 200 || reply.body.Undecodable?))
  {
    if reply.Unreachable? {
      return CheckFailed;
    }
    if reply.status == 404 {
      return NothingNew;
    }
    if reply.status != 200 {
      return CheckFailed;
    }
    if reply.body.Undecodable? {
      return CheckFailed;
    }
    var tag := reply.body.tag;
    if tag == "" {
      return NothingNew;
    }
    var order := CompareVersions(tag, current);
    if order <= 0 {
      return NothingNew;
    }
    return Offered(tag);
  }

  // Cycles

  /** What one cycle meets: the answer to the check, the luck of the swap, and
      whether the restart can be attempted. */
  datatype Turn = Turn(reply: Reply, luck: Luck, restarts: bool)

  predicate Offers(turn: Turn, current: string) {
    turn.reply.Http? && turn.reply.status == 200 && turn.reply.body.Release? && Accepts(turn.reply.body.tag, current)
  }

  /** The disk after a cycle that no other caller disturbs. */
  function DiskAfterTurn(disk: Disk, turn: Turn, current: string): Disk {
    if !Offers(turn, current) then disk
    else if Succeeds(disk, turn.luck) then AfterSuccess(disk, turn.luck)
    else AfterFailure(disk, turn.luck)
  }

  predicate Swaps(disk: Disk, turn: Turn, current: string) {
    Offers(turn, current) && Succeeds(disk, turn.luck)
  }

  /** checkAndUpdate: stops the loop exactly when a newer release was swapped in
      and the restart was initiated. */
  method CheckAndUpdate(home: Installation, version: string, turn: Turn) returns (stop: bool)
    modifies home
    ensures home.updateInProgress == old(home.updateInProgress)
    ensures old(home.updateInProgress) ==> !stop && home.disk == old(home.disk)
    ensures !old(home.updateInProgress) ==> home.disk == DiskAfterTurn(old(home.disk), turn, version)
    ensures !old(home.updateInProgress) ==> stop == (Swaps(old(home.disk), turn, version) && turn.restarts)
  {
    var check := CheckForUpdate(turn.reply, version);
    assert check.Offered? <==> Offers(turn, version) by {
      if Offers(turn, version) {
        assert check == Offered(turn.reply.body.tag);
      }
    }
    if !check.Offered? {
      return false;
    }
    var outcome := home.SelfUpdate(turn.luck);
    if outcome != Updated {
      return false;
    }
    return turn.restarts;
  }

  /** The disk after a series of cycles. */
  function DiskAfter(disk: Disk, turns: seq<Turn>, current: string): Disk {
    if turns == [] then disk
    else DiskAfterTurn(DiskAfter(disk, turns[..|turns| - 1], current), turns[|turns| - 1], current)
  }

  /** The binaries swapped in, in order. */
  function Installed(disk: Disk, turns: seq<Turn>, current: string): seq<nat> {
    if turns == [] then []
    else
      var before, turn := turns[..|turns| - 1], turns[|turns| - 1];
      Installed(disk, before, current) +
      if Swaps(DiskAfter(disk, before, current), turn, current) then [turn.luck.staged] else []
  }

  /** updateCheckLoop until the context ends with `turns`: it leaves early exactly
      at the first cycle that swaps and restarts. */
  method UpdateCheckLoop(home: Installation, version: string, turns: seq<Turn>) returns (n: nat, stopped: bool)
    requires !home.updateInProgress
    modifies home
    ensures !home.updateInProgress && n <= |turns|
    ensures home.disk == DiskAfter(old(home.disk), turns[..n], version)
    ensures stopped <==> n > 0 && turns[n - 1].restarts
                         && Swaps(DiskAfter(old(home.disk), turns[..n - 1], version), turns[n - 1], version)
    ensures !stopped ==> n == |turns|
    ensures forall k :: 0 <= k < n - 1 ==>
              !(turns[k].restarts && Swaps(DiskAfter(old(home.disk), turns[..k], version), turns[k], version))
  {
    n, stopped := 0, false;
    while n < |turns|
      invariant n <= |turns| && !home.updateInProgress
      invariant home.disk == DiskAfter(old(home.disk), turns[..n], version)
      invariant forall k :: 0 <= k < n ==>
                  !(turns[k].restarts && Swaps(DiskAfter(old(home.disk), turns[..k], version), turns[k], version))
    {
      assert turns[..n + 1][..n] == turns[..n] && turns[..n + 1][n] == turns[n];
      var stop := CheckAndUpdate(home, version, turns[n]);
      n := n + 1;
      if stop {
        return n, true;
      }
    }
  }

  // What becomes of the running binary while restarts keep failing

  /** Some path holds the binary. */
  ghost predicate Holds(disk: Disk, binary: nat) {
    exists path :: path in disk && disk[path] == binary
  }

  /** Some path other than `backup` holds the binary. */
  ghost predicate HoldsElsewhere(disk: Disk, binary: nat, backup: string) {
    exists path :: path in disk && disk[path] == binary && path != backup
  }

  /** What a cycle must meet for a binary to stay on a disk that holds it: a copy that
      is not in the backup of the path it works on, or a backup it does not touch. */
  ghost predicate Spares(disk: Disk, turn: Turn, current: string, binary: nat) {
    || !Offers(turn, current) || !turn.luck.prepared
    || HoldsElsewhere(disk, binary, Backup(turn.luck.exe))
    || (!turn.luck.removeOk && !Renames(disk, turn.luck.exe, turn.luck.backupOk))
  }

  /** The executable itself always survives its own update, in its place or in the backup. */
  lemma ElsewhereSurvives(disk: Disk, turn: Turn, current: string, binary: nat)
    requires HoldsElsewhere(disk, binary, Backup(turn.luck.exe))
    ensures Holds(DiskAfterTurn(disk, turn, current), binary)
  {
    var after, exe := DiskAfterTurn(disk, turn, current), turn.luck.exe;
    var path :| path in disk && disk[path] == binary && path != Backup(exe);
    if path != exe || after == disk || after == disk - {Backup(exe)} {
      assert path in after && after[path] == binary;
    } else {
      assert Backup(exe) in after && after[Backup(exe)] == binary;
    }
  }

  lemma NothingComesBack(disk: Disk, turn: Turn, current: string, binary: nat)
    requires turn.luck.staged != binary && Holds(DiskAfterTurn(disk, turn, current), binary)
    ensures Holds(disk, binary)
  {
    var after := DiskAfterTurn(disk, turn, current);
    var path :| path in after && after[path] == binary;
    if !(path in disk && disk[path] == binary) {
      assert disk[turn.luck.exe] == binary;
    }
  }

  /** One cycle leaves a binary on the disk if and only if it spares it. */
  lemma KeptByTurnIff(disk: Disk, turn: Turn, current: string, binary: nat)
    requires Holds(disk, binary) && turn.luck.staged != binary
    ensures Holds(DiskAfterTurn(disk, turn, current), binary) <==> Spares(disk, turn, current, binary)
  {
    var after, backup := DiskAfterTurn(disk, turn, current), Backup(turn.luck.exe);
    if HoldsElsewhere(disk, binary, backup) {
      ElsewhereSurvives(disk, turn, current, binary);
    } else {
      var path :| path in disk && disk[path] == binary;
      assert path == backup;
      if Spares(disk, turn, current, binary) {
        assert after == disk;
      } else {
        assert forall q :: q in after && after[q] == binary ==> q in disk && disk[q] == binary && q != backup;
      }
    }
  }

  /** Cycle k of the history spares the binary. */
  ghost predicate SparedAt(start: Disk, turns: seq<Turn>, k: nat, current: string, binary: nat)
    requires k < |turns|
  {
    Spares(DiskAfter(start, turns[..k], current), turns[k], current, binary)
  }

  ghost predicate AlwaysSpared(start: Disk, turns: seq<Turn>, current: string, binary: nat) {
    forall k :: 0 <= k < |turns| ==> SparedAt(start, turns, k, current, binary)
  }

  lemma SparedBefore(start: Disk, turns: seq<Turn>, n: nat, k: nat, current: string, binary: nat)
    requires k < n <= |turns|
    ensures SparedAt(start, turns[..n], k, current, binary) == SparedAt(start, turns, k, current, binary)
  {
    assert turns[..n][..k] == turns[..k];
  }

  lemma AlwaysSparedSnoc(start: Disk, turns: seq<Turn>, current: string, binary: nat)
    requires turns != []
    ensures var n := |turns| - 1;
            AlwaysSpared(start, turns, current, binary) <==>
            AlwaysSpared(start, turns[..n], current, binary) && SparedAt(start, turns, n, current, binary)
  {
    var n := |turns| - 1;
    forall k | 0 <= k < n
      ensures SparedAt(start, turns[..n], k, current, binary) == SparedAt(start, turns, k, current, binary)
    {
      SparedBefore(start, turns, n, k, current, binary);
    }
  }

  /** Main result. Whatever paths the lookups answer, a binary that the disk held and
      that is not downloaded again is still on the disk after a series of cycles if and
      only if every single cycle spared it. */
  lemma {:induction false} KeptIff(start: Disk, turns: seq<Turn>, current: string, binary: nat)
    requires Holds(start, binary) && forall turn :: turn in turns ==> turn.luck.staged != binary
    ensures Holds(DiskAfter(start, turns, current), binary) <==> AlwaysSpared(start, turns, current, binary)
  {
    if turns != [] {
      var n := |turns| - 1;
      var disk := DiskAfter(start, turns[..n], current);
      KeptIff(start, turns[..n], current, binary);
      AlwaysSparedSnoc(start, turns, current, binary);
      if Holds(disk, binary) {
        KeptByTurnIff(disk, turns[n], current, binary);
      } else if Holds(DiskAfterTurn(disk, turns[n], current), binary) {
        NothingComesBack(disk, turns[n], current, binary);
      }
    }
  }

  /** If each lookup answers a path where the running binary is at that moment, as a link
      that follows a renamed file does, then that binary is never lost. */
  lemma {:induction false} FollowedNeverLost(start: Disk, turns: seq<Turn>, current: string, binary: nat)
    requires Holds(start, binary)
    requires forall k :: 0 <= k < |turns| ==> FoundAt(DiskAfter(start, turns[..k], current), turns[k].luck.exe, binary)
    ensures Holds(DiskAfter(start, turns, current), binary)
  {
    if turns != [] {
      var n := |turns| - 1;
      var disk := DiskAfter(start, turns[..n], current);
      assert FoundAt(disk, turns[n].luck.exe, binary);
      ElsewhereSurvives(disk, turns[n], current, binary);
    }
  }

  predicate FoundAt(disk: Disk, path: string, binary: nat) {
    path in disk && disk[path] == binary
  }

  /** The path from which a re-exec starts the new binary: with the executable swapped
      at one path, the second lookup must answer that same path. */
  lemma ReexecRunsNewIff(disk: Disk, luck: Luck, answer: string)
    requires Succeeds(disk, luck) && luck.staged !in disk.Values
    ensures FoundAt(AfterSuccess(disk, luck), answer, luck.staged) <==> answer == luck.exe
    ensures answer == Backup(luck.exe) ==> FoundAt(AfterSuccess(disk, luck), answer, disk[luck.exe])
  {}

  // The same executable path in every cycle

  ghost predicate AtOnePath(turns: seq<Turn>, exe: string) {
    forall turn :: turn in turns ==> turn.luck.exe == exe
  }

  function LastTwo(s: seq<nat>): seq<nat> {
    if |s| <= 2 then s else s[|s| - 2..]
  }

  /** Where the binaries of a history can be: the newest at the executable path or,
      if that is empty, perhaps in the backup; otherwise the one before it there. */
  ghost predicate Placed(disk: Disk, exe: string, history: seq<nat>)
    requires history != []
  {
    var newest := history[|history| - 1];
    && disk.Keys <= {exe, Backup(exe)}
    && (exe in disk ==> disk[exe] == newest)
    && (Backup(exe) in disk ==> disk[Backup(exe)] in if exe in disk then LastTwo(history) else [newest])
  }

  lemma PlacedStep(disk: Disk, turn: Turn, current: string, history: seq<nat>)
    requires history != [] && Placed(disk, turn.luck.exe, history)
    ensures Placed(DiskAfterTurn(disk, turn, current), turn.luck.exe,
                   if Swaps(disk, turn, current) then history + [turn.luck.staged] else history)
  {
    var newest := history[|history| - 1];
    assert newest in LastTwo(history) && newest in [newest];
    if Swaps(disk, turn, current) {
      assert LastTwo(history + [turn.luck.staged]) == [newest, turn.luck.staged];
    }
  }

  /** If every cycle is told the same path, the disk only ever holds the two newest of
      the original binary and the ones swapped in since. */
  lemma {:induction false} OnlyTheNewestTwo(exe: string, running: nat, turns: seq<Turn>, current: string)
    requires AtOnePath(turns, exe)
    ensures var start := map[exe := running];
            Placed(DiskAfter(start, turns, current), exe, [running] + Installed(start, turns, current))
  {
    var start := map[exe := running];
    if turns != [] {
      var before, turn := turns[..|turns| - 1], turns[|turns| - 1];
      OnlyTheNewestTwo(exe, running, before, current);
      var disk, history := DiskAfter(start, before, current), [running] + Installed(start, before, current);
      PlacedStep(disk, turn, current, history);
      assert [running] + Installed(start, turns, current) ==
             if Swaps(disk, turn, current) then history + [turn.luck.staged] else history;
    }
  }

  /** On that disk a cycle spares the running binary if and only if it is still the
      executable, or the cycle stops before the backup, or touches it in neither way. */
  lemma SparesAtOnePathIff(disk: Disk, turn: Turn, current: string, running: nat)
    requires disk.Keys <= {turn.luck.exe, Backup(turn.luck.exe)}
    ensures Spares(disk, turn, current, running) <==>
            || FoundAt(disk, turn.luck.exe, running) || !Offers(turn, current) || !turn.luck.prepared
            || (!turn.luck.removeOk && !Renames(disk, turn.luck.exe, turn.luck.backupOk))
  {}

  /** The same at one path, in terms of a cycle's own guards. */
  ghost predicate SparedAtExe(start: Disk, turns: seq<Turn>, k: nat, current: string, exe: string, running: nat)
    requires k < |turns|
  {
    var disk, luck := DiskAfter(start, turns[..k], current), turns[k].luck;
    || FoundAt(disk, exe, running) || !Offers(turns[k], current) || !luck.prepared
    || (!luck.removeOk && !Renames(disk, exe, luck.backupOk))
  }

  lemma SparedAtExeIff(exe: string, running: nat, turns: seq<Turn>, k: nat, current: string)
    requires AtOnePath(turns, exe) && k < |turns|
    ensures SparedAtExe(map[exe := running], turns, k, current, exe, running) <==>
            SparedAt(map[exe := running], turns, k, current, running)
  {
    assert turns[k] in turns;
    OnlyTheNewestTwo(exe, running, turns[..k], current);
    SparesAtOnePathIff(DiskAfter(map[exe := running], turns[..k], current), turns[k], current, running);
  }

  /** So for one path the running binary is kept over a whole history if and only if no
      cycle that found it moved away got as far as removing or overwriting the backup. */
  lemma KeptAtOnePathIff(exe: string, running: nat, turns: seq<Turn>, current: string)
    requires AtOnePath(turns, exe) && forall turn :: turn in turns ==> turn.luck.staged != running
    ensures Holds(DiskAfter(map[exe := running], turns, current), running) <==>
            forall k :: 0 <= k < |turns| ==> SparedAtExe(map[exe := running], turns, k, current, exe, running)
  {
    var start := map[exe := running];
    assert start[exe] == running;
    KeptIff(start, turns, current, running);
    forall k | 0 <= k < |turns|
      ensures SparedAtExe(start, turns, k, current, exe, running) <==> SparedAt(start, turns, k, current, running)
    {
      SparedAtExeIff(exe, running, turns, k, current);
    }
  }

  lemma NotAmongNewest(disk: Disk, exe: string, history: seq<nat>, running: nat)
    requires |history| >= 3 && Placed(disk, exe, history) && running !in history[1..]
    ensures !Holds(disk, running)
  {
    assert forall i :: 1 <= i < |history| ==> history[i] in history[1..];
    assert LastTwo(history) == [history[|history| - 2], history[|history| - 1]];
  }

  /** In particular two swaps at one path without a restart in between lose it. */
  lemma SecondSwapLosesRunning(exe: string, running: nat, turns: seq<Turn>, current: string)
    requires AtOnePath(turns, exe)
    requires |Installed(map[exe := running], turns, current)| >= 2
    requires running !in Installed(map[exe := running], turns, current)
    ensures !Holds(DiskAfter(map[exe := running], turns, current), running)
  {
    var installed := Installed(map[exe := running], turns, current);
    OnlyTheNewestTwo(exe, running, turns, current);
    assert ([running] + installed)[1..] == installed;
    NotAmongNewest(DiskAfter(map[exe := running], turns, current), exe, [running] + installed, running);
  }

  lemma TwoTurns(start: Disk, first: Turn, second: Turn, current: string)
    ensures DiskAfter(start, [first, second], current) ==
            DiskAfterTurn(DiskAfterTurn(start, first, current), second, current)
  {
    assert [first, second][..1] == [first] && [first][..0] == [];
    assert DiskAfter(start, [], current) == start;
    assert DiskAfter(start, [first], current) == DiskAfterTurn(start, first, current);
  }

  /** A cycle whose replacing and restoring renames both failed leaves the binary in
      the backup only; the next cycle at the same path removes even that exactly when it
      finds a release, gets past the preparation, and the removal succeeds. */
  lemma RetryAfterStrandingIff(exe: string, running: nat, first: Turn, second: Turn, current: string)
    requires first.luck.exe == second.luck.exe == exe && Offers(first, current)
    requires first.luck.prepared && first.luck.backupOk && !first.luck.replaceOk && !first.luck.restoreOk
    ensures DiskAfter(map[exe := running], [first, second], current) == map[] <==>
            Offers(second, current) && second.luck.prepared && second.luck.removeOk
  {
    TwoTurns(map[exe := running], first, second, current);
    var stranded: Disk := map[Backup(exe) := running];
    assert DiskAfterTurn(map[exe := running], first, current) == stranded;
    assert stranded - {Backup(exe)} == map[];
    assert Backup(exe) in stranded;
  }
}
