/** The job engine and the per-site deploy lock as the objects the daemon keeps:
    what one call does to their fields. EngineMachine interleaves the same
    operations. */
module JobEngines {
  import opened Execution

  /** DefaultMaxConcurrentJobs, the capacity of the semaphore channel. */
  const MAX_CONCURRENT_JOBS := 10

  // Tables

  /** Load-or-store on a table: whether the key was free, and the table afterwards. */
  function Stored<K, V>(table: map<K, V>, key: K, value: V): (r: (bool, map<K, V>)) {
    if key in table then (false, table) else (true, table[key := value])
  }

  function Deleted<K, V>(table: map<K, V>, key: K): map<K, V> {
    table - {key}
  }

  lemma DeleteUndoesStore<K, V>(table: map<K, V>, key: K, value: V)
    ensures var (ok, table') := Stored(table, key, value);
            if ok then Deleted(table', key) == table && key in table' else table' == table && key in table
  {
    if key !in table {
      assert Deleted(table[key := value], key) == table;
    }
  }

  // Deploy lock

  class DeployLock {
    var active: map<string, nat>

    constructor ()
      ensures active == map[]
    {
      active := map[];
    }

    method TryAcquire(siteName: string, jobID: nat) returns (ok: bool)
      modifies this
      ensures (ok, active) == Stored(old(active), siteName, jobID)
    {
      if siteName in active {
        return false;
      }
      active := active[siteName := jobID];
      return true;
    }

    method Release(siteName: string)
      modifies this
      ensures active == Deleted(old(active), siteName)
    {
      active := active - {siteName};
    }

    /** The frame shared by runDeployScript and syncSite: both store job id 0 and
        release in a defer, so error, success and panic all leave the table as
        it was. `step` is what the guarded work itself leads to. */
    method Guarded(siteName: string, step: Exit) returns (exit: Exit)
      modifies this
      ensures active == old(active)
      ensures exit == if siteName in old(active) then FallsThrough(true) else step
    {
      DeleteUndoesStore(active, siteName, 0);
      var ok := TryAcquire(siteName, 0);
      if !ok {
        return FallsThrough(true);
      }
      exit := step;
      Release(siteName);
    }
  }

  // Engine

  /** The control plane's answer to a claim. A granted claim carries the id of
      the job it describes. */
  datatype Claim = Granted(id: nat) | AlreadyClaimed | ClaimError

  datatype Fate = NotDispatched | NotClaimed | Duplicate | GaveUp | Ran

  /** Which branch the semaphore `select` takes, and how the body ends. */
  datatype Course = Course(slotFirst: bool, exit: Exit)

  class JobEngine {
    var dispatched: map<nat, ()>
    var active: map<nat, ()>
    var slots: nat  // occupied entries of the semaphore channel

    constructor ()
      ensures dispatched == map[] && active == map[] && slots == 0
    {
      dispatched, active, slots := map[], map[], 0;
    }

    method MarkDispatched(jobID: nat) returns (first: bool)
      modifies this`dispatched
      ensures (first, dispatched) == Stored(old(dispatched), jobID, ())
    {
      first := jobID !in dispatched;
      if first {
        dispatched := dispatched[jobID := ()];
      }
    }

    method ClearDispatched(jobID: nat)
      modifies this`dispatched
      ensures dispatched == Deleted(old(dispatched), jobID)
    {
      dispatched := dispatched - {jobID};
    }

    /** Execute without interference from other handlers. The select blocks
        until one of its branches is ready, hence the precondition on `course`. */
    method Execute(client: Client, jobID: nat, ctxDone: bool, course: Course) returns (fate: Fate)
      requires slots <= MAX_CONCURRENT_JOBS
      requires if course.slotFirst then slots < MAX_CONCURRENT_JOBS else ctxDone
      modifies this, client
      ensures old(client.calls) <= client.calls
      ensures fate == if jobID in old(active) then Duplicate else if course.slotFirst then Ran else GaveUp
      ensures fate.Duplicate? ==> dispatched == old(dispatched)
      ensures !fate.Duplicate? && !course.exit.ReplacesProcess() ==> dispatched == Deleted(old(dispatched), jobID)
      ensures !course.exit.ReplacesProcess() ==> active == old(active) && slots == old(slots)
      ensures fate != Ran ==> client.calls == old(client.calls)
      ensures fate == Ran && !client.Faulty(|old(client.calls)|) ==>
                Completions(client.calls) == Completions(old(client.calls)) + Reports(course.exit)
    {
      if jobID in active {
        return Duplicate;
      }
      DeleteUndoesStore(active, jobID, ());
      active := active[jobID := ()];
      if course.slotFirst {
        slots := slots + 1;
        RunHoldingSlot(client, course.exit);
        if course.exit.ReplacesProcess() {
          return Ran;
        }
        slots := slots - 1;
        fate := Ran;
      } else {
        fate := GaveUp;
      }
      active := active - {jobID};
      ClearDispatched(jobID);
    }

    /** The light trigger: executes the job the claim response describes. */
    method HandleJobTrigger(client: Client, jobID: nat, claim: Claim, ctxDone: bool, course: Course)
      returns (fate: Fate)
      requires slots <= MAX_CONCURRENT_JOBS && !course.exit.ReplacesProcess()
      requires if course.slotFirst then slots < MAX_CONCURRENT_JOBS else ctxDone
      modifies this, client
      ensures active == old(active) && slots == old(slots)
      ensures dispatched == MarksAfter(old(dispatched), old(active), jobID, claim)
      ensures fate in {NotDispatched, NotClaimed, Duplicate, GaveUp} ==> client.calls == old(client.calls)
      ensures fate == Ran <==>
                jobID !in old(dispatched) && claim.Granted? && claim.id !in old(active) && course.slotFirst
      ensures fate == Ran && !client.Faulty(|old(client.calls)|) ==>
                Completions(client.calls) == Completions(old(client.calls)) + Reports(course.exit)
    {
      var first := MarkDispatched(jobID);
      if !first {
        return NotDispatched;
      }
      if !claim.Granted? {
        DeleteUndoesStore(old(dispatched), jobID, ());
        ClearDispatched(jobID);
        return NotClaimed;
      }
      fate := Execute(client, claim.id, ctxDone, course);
    }

    /** The full trigger: the claim only decides whether to run; the job that
        was asked for is executed. */
    method HandleJobTriggerFull(client: Client, jobID: nat, claim: Claim, ctxDone: bool, course: Course)
      returns (fate: Fate)
      requires slots <= MAX_CONCURRENT_JOBS && !course.exit.ReplacesProcess()
      requires if course.slotFirst then slots < MAX_CONCURRENT_JOBS else ctxDone
      modifies this, client
      ensures active == old(active) && slots == old(slots)
      ensures dispatched ==
                MarksAfter(old(dispatched), old(active), jobID, if claim.Granted? then Granted(jobID) else claim)
      ensures fate in {NotDispatched, NotClaimed, Duplicate, GaveUp} ==> client.calls == old(client.calls)
      ensures fate == Ran <==> jobID !in old(dispatched) && claim.Granted? && jobID !in old(active) && course.slotFirst
      ensures fate == Ran && !client.Faulty(|old(client.calls)|) ==>
                Completions(client.calls) == Completions(old(client.calls)) + Reports(course.exit)
    {
      var first := MarkDispatched(jobID);
      if !first {
        return NotDispatched;
      }
      if !claim.Granted? {
        DeleteUndoesStore(old(dispatched), jobID, ());
        ClearDispatched(jobID);
        return NotClaimed;
      }
      fate := Execute(client, jobID, ctxDone, course);
    }
  }

  /** The dispatch marks one complete trigger call leaves behind. */
  function MarksAfter(dispatched: map<nat, ()>, active: map<nat, ()>, jobID: nat, claim: Claim): map<nat, ()> {
    var (first, marked) := Stored(dispatched, jobID, ());
    if !first || !claim.Granted? then dispatched
    else if claim.id in active then marked
    else Deleted(marked, claim.id)
  }

  /** A trigger call that is first for its id returns with the marks it found
      exactly when the claim was refused or the response names the job that was
      asked for and that job is not active. A response naming another job leaks
      the mark, and the poll loop never picks that job up again. */
  lemma MarkReturnedIff(dispatched: map<nat, ()>, active: map<nat, ()>, jobID: nat, claim: Claim)
    requires jobID !in dispatched
    ensures MarksAfter(dispatched, active, jobID, claim) == dispatched <==>
            !claim.Granted? || (claim.id == jobID && jobID !in active)
    ensures claim.Granted? && claim.id != jobID ==> jobID in MarksAfter(dispatched, active, jobID, claim)
  {
    if claim.Granted? {
      var after := MarksAfter(dispatched, active, jobID, claim);
      if claim.id == jobID && jobID !in active {
        assert after == dispatched;
      } else {
        assert jobID in after;
      }
    }
  }
}
