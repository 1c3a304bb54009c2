/** What every reachable state of the engine satisfies. */
module EngineSafety {
  import opened JobEngines
  import opened Sums
  import opened EngineMachine

  // Invariants

  /** Phases in which a handler occupies an entry of the semaphore channel. */
  predicate HoldsSlot(p: Phase) {
    p.Running? || p.Locked? || p.Reporting? || p.Closing? || p.Releasing?
  }

  /** Phases in which a handler's job is in `active` on its behalf. */
  predicate Executing(p: Phase) {
    p.Queued? || HoldsSlot(p) || p.Retiring?
  }

  /** Phases in which a handler answers for a dispatch mark. */
  predicate Marking(p: Phase) {
    !p.Arrived? && !p.Done?
  }

  function SlotOf(x: Handler): nat {
    if HoldsSlot(x.phase) then 1 else 0
  }

  /** `owner` maps exactly the keys of the handlers in `claims` to those handlers,
      so two handlers in `claims` never share a key. */
  ghost predicate Owns<K>(owner: map<K, nat>, handlers: seq<Handler>, claims: Handler -> bool, key: Handler -> K) {
    && (forall h :: 0 <= h < |handlers| && claims(handlers[h]) ==>
          key(handlers[h]) in owner && owner[key(handlers[h])] == h)
    && (forall k :: k in owner ==>
          owner[k] < |handlers| && claims(handlers[owner[k]]) && key(handlers[owner[k]]) == k)
  }

  function IsExecuting(x: Handler): bool { Executing(x.phase) }
  function IsLocked(x: Handler): bool { x.phase.Locked? }
  function IsMarking(x: Handler): bool { Marking(x.phase) }
  function JobOf(x: Handler): nat { x.job }
  function AskedOf(x: Handler): nat { x.asked }
  function SiteOf(x: Handler): string { x.site }

  function Holders(locks: map<string, LockEntry>): map<string, nat> {
    map site | site in locks :: locks[site].holder
  }

  /** What holds whatever the control plane answers: `active` and the lock table
      name exactly the executing and lock-holding handlers, the stored lock value
      is 0, and the channel length is the number of slot holders, at most 10. */
  ghost predicate Core(s: State) {
    && Owns(s.active, s.handlers, IsExecuting, JobOf)
    && Owns(Holders(s.locks), s.handlers, IsLocked, SiteOf)
    && (forall site :: site in s.locks ==> s.locks[site].jobID == 0)
    && s.slots == Sum(s.handlers, SlotOf) <= MAX_CONCURRENT_JOBS
  }

  /** `dispatched` names exactly the marking handlers, and every handler
      executes the job it was triggered for. */
  ghost predicate MarksExact(s: State) {
    && Owns(s.dispatched, s.handlers, IsMarking, AskedOf)
    && JobsAsAsked(s.handlers)
  }

  predicate JobsAsAsked(handlers: seq<Handler>) {
    forall h :: 0 <= h < |handlers| ==> handlers[h].job == handlers[h].asked
  }

  // Preservation

  lemma OneOwner<K>(owner: map<K, nat>, handlers: seq<Handler>, claims: Handler -> bool, key: Handler -> K,
                    h: nat, k: nat)
    requires Owns(owner, handlers, claims, key)
    requires h < |handlers| && k < |handlers| && claims(handlers[h]) && claims(handlers[k])
    requires key(handlers[h]) == key(handlers[k])
    ensures h == k
  {}

  lemma OwnsAppend<K>(owner: map<K, nat>, handlers: seq<Handler>, claims: Handler -> bool, key: Handler -> K,
                      x: Handler)
    requires Owns(owner, handlers, claims, key) && !claims(x)
    ensures Owns(owner, handlers + [x], claims, key)
  {}

  lemma OwnsKept<K>(owner: map<K, nat>, handlers: seq<Handler>, claims: Handler -> bool, key: Handler -> K,
                    h: nat, x: Handler)
    requires Owns(owner, handlers, claims, key) && h < |handlers|
    requires claims(x) == claims(handlers[h])
    requires claims(x) ==> key(x) == key(handlers[h])
    ensures Owns(owner, handlers[h := x], claims, key)
  {}

  lemma OwnsTaken<K>(owner: map<K, nat>, handlers: seq<Handler>, claims: Handler -> bool, key: Handler -> K,
                     h: nat, x: Handler)
    requires Owns(owner, handlers, claims, key) && h < |handlers|
    requires claims(x) && !claims(handlers[h]) && key(x) !in owner
    ensures Owns(owner[key(x) := h], handlers[h := x], claims, key)
  {}

  lemma OwnsLeft<K>(owner: map<K, nat>, handlers: seq<Handler>, claims: Handler -> bool, key: Handler -> K,
                    h: nat, x: Handler)
    requires Owns(owner, handlers, claims, key) && h < |handlers|
    requires !claims(x) && claims(handlers[h])
    ensures Owns(owner - {key(handlers[h])}, handlers[h := x], claims, key)
  {}

  /** How an owner table may change when handler h goes from x to x'. */
  predicate Follows<K>(owner: map<K, nat>, owner': map<K, nat>, h: nat, x: Handler, x': Handler,
                       claims: Handler -> bool, key: Handler -> K) {
    if claims(x) == claims(x') then owner' == owner && (claims(x) ==> key(x') == key(x))
    else if claims(x') then key(x') !in owner && owner' == owner[key(x') := h]
    else owner' == owner - {key(x)}
  }

  lemma OwnsMoved<K>(owner: map<K, nat>, owner': map<K, nat>, handlers: seq<Handler>, h: nat, x': Handler,
                     claims: Handler -> bool, key: Handler -> K)
    requires Owns(owner, handlers, claims, key) && h < |handlers|
    requires Follows(owner, owner', h, handlers[h], x', claims, key)
    ensures Owns(owner', handlers[h := x'], claims, key)
  {
    if claims(handlers[h]) == claims(x') {
      OwnsKept(owner, handlers, claims, key, h, x');
    } else if claims(x') {
      OwnsTaken(owner, handlers, claims, key, h, x');
    } else {
      OwnsLeft(owner, handlers, claims, key, h, x');
    }
  }

  /** Only Arrive and Cancel touch no existing handler; every other step replaces
      exactly the handler it names. */
  lemma OneHandler(s: State, a: Step)
    requires Enabled(s, a) && !a.Arrive? && !a.Cancel?
    ensures a.h < |s.handlers| && Next(s, a).handlers == s.handlers[a.h := Moved(s, a)]
    ensures var x, x' := s.handlers[a.h], Moved(s, a);
            x'.asked == x.asked && x'.site == x.site && (!a.Grant? ==> x'.job == x.job)
  {}

  /** Only entering Execute and the deferred deletion change who executes. */
  lemma ExecutingStays(s: State, a: Step)
    requires Enabled(s, a) && !a.Arrive? && !a.Cancel? && !a.Enter? && !a.Retire?
    ensures IsExecuting(Moved(s, a)) == IsExecuting(s.handlers[a.h])
    ensures IsExecuting(s.handlers[a.h]) ==> Moved(s, a).job == s.handlers[a.h].job
  {}

  /** What a step does to `active` follows from how its handler's phase moves. */
  lemma ExecutingChange(s: State, a: Step)
    requires Enabled(s, a) && !a.Arrive? && !a.Cancel?
    ensures Follows(s.active, ActiveAfter(s, a), a.h, s.handlers[a.h], Moved(s, a), IsExecuting, JobOf)
  {
    if !a.Enter? && !a.Retire? {
      ExecutingStays(s, a);
    }
  }

  lemma LockChange(s: State, a: Step)
    requires Enabled(s, a) && !a.Arrive? && !a.Cancel?
    ensures var x, x' := s.handlers[a.h], Moved(s, a);
            if IsLocked(x) == IsLocked(x') then LocksAfter(s, a) == s.locks && x'.site == x.site
            else if IsLocked(x') then x'.site !in s.locks && LocksAfter(s, a) == s.locks[x'.site := LockEntry(0, a.h)]
            else LocksAfter(s, a) == s.locks - {x.site}
  {}

  lemma LockFollows(s: State, a: Step)
    requires Enabled(s, a) && !a.Arrive? && !a.Cancel?
    ensures Follows(Holders(s.locks), Holders(LocksAfter(s, a)), a.h, s.handlers[a.h], Moved(s, a), IsLocked, SiteOf)
  {
    LockChange(s, a);
    var x, x' := s.handlers[a.h], Moved(s, a);
    if IsLocked(x) != IsLocked(x') {
      HoldersChange(s.locks, x'.site, a.h);
      HoldersChange(s.locks, x.site, a.h);
    }
  }

  lemma HoldersChange(locks: map<string, LockEntry>, site: string, h: nat)
    ensures Holders(locks[site := LockEntry(0, h)]) == Holders(locks)[site := h]
    ensures Holders(locks - {site}) == Holders(locks) - {site}
  {}

  lemma SlotChange(s: State, a: Step)
    requires Enabled(s, a) && !a.Arrive? && !a.Cancel?
    ensures Next(s, a).slots + SlotOf(s.handlers[a.h]) == s.slots + SlotOf(Next(s, a).handlers[a.h])
    ensures Next(s, a).slots <= s.slots || Next(s, a).slots <= MAX_CONCURRENT_JOBS
  {}

  lemma JobStaysAsked(s: State, a: Step)
    requires Enabled(s, a) && !a.Arrive? && !a.Cancel? && HonestStep(s, a)
    requires s.handlers[a.h].job == s.handlers[a.h].asked
    ensures Moved(s, a).job == Moved(s, a).asked
  {}

  /** Only the mark and the two clears, and a duplicate in Execute, change who marks. */
  lemma MarkingStays(s: State, a: Step)
    requires Enabled(s, a) && !a.Arrive? && !a.Cancel? && !a.Mark? && !a.Forget? && !a.Clear?
    requires a.Enter? ==> s.handlers[a.h].job !in s.active
    ensures IsMarking(Moved(s, a)) == IsMarking(s.handlers[a.h]) && Moved(s, a).asked == s.handlers[a.h].asked
  {}

  lemma MarkingChange(s: State, a: Step)
    requires Enabled(s, a) && !a.Arrive? && !a.Cancel?
    requires s.handlers[a.h].job == s.handlers[a.h].asked
    requires a.Enter? ==> s.handlers[a.h].job !in s.active
    ensures Follows(s.dispatched, DispatchedAfter(s, a), a.h, s.handlers[a.h], Moved(s, a), IsMarking, AskedOf)
  {
    if !a.Mark? && !a.Forget? && !a.Clear? {
      MarkingStays(s, a);
    }
  }

  lemma ActiveStep(s: State, a: Step)
    requires Owns(s.active, s.handlers, IsExecuting, JobOf) && Enabled(s, a)
    ensures Owns(Next(s, a).active, Next(s, a).handlers, IsExecuting, JobOf)
  {
    if a.Arrive? {
      OwnsAppend(s.active, s.handlers, IsExecuting, JobOf, Next(s, a).handlers[|s.handlers|]);
    } else if !a.Cancel? {
      OneHandler(s, a);
      ExecutingChange(s, a);
      OwnsMoved(s.active, ActiveAfter(s, a), s.handlers, a.h, Moved(s, a), IsExecuting, JobOf);
    }
  }

  lemma LocksStep(s: State, a: Step)
    requires Owns(Holders(s.locks), s.handlers, IsLocked, SiteOf) && Enabled(s, a)
    ensures Owns(Holders(Next(s, a).locks), Next(s, a).handlers, IsLocked, SiteOf)
  {
    if a.Arrive? {
      OwnsAppend(Holders(s.locks), s.handlers, IsLocked, SiteOf, Next(s, a).handlers[|s.handlers|]);
    } else if !a.Cancel? {
      OneHandler(s, a);
      LockFollows(s, a);
      OwnsMoved(Holders(s.locks), Holders(LocksAfter(s, a)), s.handlers, a.h, Moved(s, a), IsLocked, SiteOf);
    }
  }

  lemma SlotSumStep(s: State, a: Step)
    requires Enabled(s, a) && !a.Arrive? && !a.Cancel?
    ensures Sum(Next(s, a).handlers, SlotOf) + SlotOf(s.handlers[a.h]) ==
            Sum(s.handlers, SlotOf) + SlotOf(Next(s, a).handlers[a.h])
  {
    OneHandler(s, a);
    SumUpdate(s.handlers, a.h, Moved(s, a), SlotOf);
  }

  lemma SlotsStep(s: State, a: Step)
    requires s.slots == Sum(s.handlers, SlotOf) <= MAX_CONCURRENT_JOBS && Enabled(s, a)
    ensures Next(s, a).slots == Sum(Next(s, a).handlers, SlotOf) <= MAX_CONCURRENT_JOBS
  {
    if a.Arrive? {
      SumAppend(s.handlers, Next(s, a).handlers[|s.handlers|], SlotOf);
    } else if a.Cancel? {
      assert Next(s, a).handlers == s.handlers;
    } else {
      SlotChange(s, a);
      SlotSumStep(s, a);
    }
  }

  lemma ZeroStep(s: State, a: Step)
    requires Enabled(s, a) && forall site :: site in s.locks ==> s.locks[site].jobID == 0
    ensures forall site :: site in Next(s, a).locks ==> Next(s, a).locks[site].jobID == 0
  {
    if !a.Arrive? && !a.Cancel? {
      LockChange(s, a);
    }
  }

  lemma CoreStep(s: State, a: Step)
    requires Core(s) && Enabled(s, a)
    ensures Core(Next(s, a))
  {
    ZeroStep(s, a);
    ActiveStep(s, a);
    LocksStep(s, a);
    SlotsStep(s, a);
  }

  lemma OwnMarkStep(s: State, a: Step)
    requires Core(s) && MarksExact(s) && Enabled(s, a) && HonestStep(s, a)
    ensures Owns(Next(s, a).dispatched, Next(s, a).handlers, IsMarking, AskedOf)
  {
    if a.Arrive? {
      OwnsAppend(s.dispatched, s.handlers, IsMarking, AskedOf, Next(s, a).handlers[|s.handlers|]);
    } else if !a.Cancel? {
      OneHandler(s, a);
      if a.Enter? {
        JobNotActive(s, a.h);
      }
      MarkingChange(s, a);
      OwnsMoved(s.dispatched, DispatchedAfter(s, a), s.handlers, a.h, Moved(s, a), IsMarking, AskedOf);
    }
  }

  lemma MarksStep(s: State, a: Step)
    requires Core(s) && MarksExact(s) && Enabled(s, a) && HonestStep(s, a)
    ensures MarksExact(Next(s, a))
  {
    OwnMarkStep(s, a);
    JobsStep(s, a);
  }

  lemma JobsStep(s: State, a: Step)
    requires JobsAsAsked(s.handlers) && Enabled(s, a) && HonestStep(s, a)
    ensures JobsAsAsked(Next(s, a).handlers)
  {
    if !a.Arrive? && !a.Cancel? {
      OneHandler(s, a);
      JobStaysAsked(s, a);
    }
  }

  /** A handler about to enter Execute never finds its job already there. */
  lemma JobNotActive(s: State, h: nat)
    requires Core(s) && MarksExact(s) && At(s, h, Claimed)
    ensures s.handlers[h].job !in s.active
  {
    var job := s.handlers[h].job;
    if job in s.active {
      OneOwner(s.dispatched, s.handlers, IsMarking, AskedOf, h, s.active[job]);
    }
  }

  // Every run

  lemma {:induction false} CoreAlways(run: seq<Step>)
    requires Legal(INIT, run)
    ensures Core(After(INIT, run))
    decreases |run|
  {
    if run != [] {
      CoreAlways(run[..|run| - 1]);
      CoreStep(After(INIT, run[..|run| - 1]), run[|run| - 1]);
    }
  }

  lemma {:induction false} MarksAlways(run: seq<Step>)
    requires Honest(INIT, run)
    ensures MarksExact(After(INIT, run))
    decreases |run|
  {
    if run != [] {
      CoreAlways(run[..|run| - 1]);
      MarksAlways(run[..|run| - 1]);
      MarksStep(After(INIT, run[..|run| - 1]), run[|run| - 1]);
    }
  }

  // Consequences in every reachable state

  lemma DispatchedHasOwner(s: State, id: nat)
    requires MarksExact(s) && id in s.dispatched
    ensures exists h :: 0 <= h < |s.handlers| && Marking(s.handlers[h].phase) && s.handlers[h].asked == id
  {
    assert IsMarking(s.handlers[s.dispatched[id]]) && AskedOf(s.handlers[s.dispatched[id]]) == id;
  }

  lemma ActiveIsDispatched(s: State, id: nat)
    requires Core(s) && MarksExact(s) && id in s.active
    ensures id in s.dispatched
  {
    var x := s.handlers[s.active[id]];
    assert IsExecuting(x) && JobOf(x) == id;
    assert IsMarking(x) && AskedOf(x) == id;
  }

  /** Every dispatched id belongs to exactly one live handler, and nothing
      executes that was not dispatched. */
  lemma DispatchedHasOneOwner(run: seq<Step>)
    requires Honest(INIT, run)
    ensures var s := After(INIT, run);
            && (forall id :: id in s.dispatched ==>
                  exists h :: 0 <= h < |s.handlers| && Marking(s.handlers[h].phase) && s.handlers[h].asked == id)
            && (forall h, k :: 0 <= h < k < |s.handlers| ==>
                  Marking(s.handlers[h].phase) && Marking(s.handlers[k].phase) ==>
                    s.handlers[h].asked != s.handlers[k].asked)
            && s.active.Keys <= s.dispatched.Keys
  {
    CoreAlways(run);
    MarksAlways(run);
    var s := After(INIT, run);
    forall id | id in s.dispatched
      ensures exists h :: 0 <= h < |s.handlers| && Marking(s.handlers[h].phase) && s.handlers[h].asked == id
    {
      DispatchedHasOwner(s, id);
    }
    forall h, k | 0 <= h < k < |s.handlers| && Marking(s.handlers[h].phase) && Marking(s.handlers[k].phase)
      ensures s.handlers[h].asked != s.handlers[k].asked
    {
      if s.handlers[h].asked == s.handlers[k].asked {
        OneOwner(s.dispatched, s.handlers, IsMarking, AskedOf, h, k);
      }
    }
    forall id | id in s.active
      ensures id in s.dispatched
    {
      ActiveIsDispatched(s, id);
    }
  }

  /** No two handlers ever execute the same job at the same time, whatever the
      control plane answers. */
  lemma NoJobRunsTwiceAtOnce(run: seq<Step>, h: nat, k: nat)
    requires Legal(INIT, run)
    requires h < |After(INIT, run).handlers| && k < |After(INIT, run).handlers| && h != k
    requires Executing(After(INIT, run).handlers[h].phase) && Executing(After(INIT, run).handlers[k].phase)
    ensures After(INIT, run).handlers[h].job != After(INIT, run).handlers[k].job
  {
    CoreAlways(run);
    var s := After(INIT, run);
    if s.handlers[h].job == s.handlers[k].job {
      OneOwner(s.active, s.handlers, IsExecuting, JobOf, h, k);
    }
  }

  /** The "already executing" branch of Execute is never taken, so its missing
      clean-up of the dispatch mark never matters. */
  lemma AlreadyExecutingUnreachable(run: seq<Step>, h: nat)
    requires Honest(INIT, run) && At(After(INIT, run), h, Claimed)
    ensures Next(After(INIT, run), Enter(h)).handlers[h].phase == Queued
  {
    CoreAlways(run);
    MarksAlways(run);
    JobNotActive(After(INIT, run), h);
  }

  /** At most ten handlers hold a slot, and the deferred receive never blocks. */
  lemma SemaphoreNeverBlocksRelease(run: seq<Step>, h: nat)
    requires Legal(INIT, run) && At(After(INIT, run), h, Releasing)
    ensures Enabled(After(INIT, run), FreeSlot(h))
    ensures Sum(After(INIT, run).handlers, SlotOf) <= 10
  {
    CoreAlways(run);
    SumAtLeast(After(INIT, run).handlers, h, SlotOf);
  }

  /** Deploy and sync exclude each other per site, and whoever runs Release is
      the one holder of that site's lock although the stored job id is always 0. */
  lemma OneLockHolderPerSite(run: seq<Step>, h: nat)
    requires Legal(INIT, run) && At(After(INIT, run), h, Locked)
    ensures var s := After(INIT, run);
            var site := s.handlers[h].site;
            && s.locks.Keys >= {site} && s.locks[site] == LockEntry(0, h)
            && (forall k :: 0 <= k < |s.handlers| ==>
                  s.handlers[k].phase.Locked? && s.handlers[k].site == site ==> k == h)
  {
    CoreAlways(run);
    var s := After(INIT, run);
    assert IsLocked(s.handlers[h]) && SiteOf(s.handlers[h]) in Holders(s.locks);
    forall k | 0 <= k < |s.handlers| && s.handlers[k].phase.Locked? && s.handlers[k].site == s.handlers[h].site
      ensures k == h
    {
      OneOwner(Holders(s.locks), s.handlers, IsLocked, SiteOf, h, k);
    }
  }

  // A control plane that answers for another job

  /** Extends a run that leads to `now` by one step. */
  lemma AndThen(run: seq<Step>, now: State, a: Step) returns (longer: seq<Step>, next: State)
    requires Legal(INIT, run) && After(INIT, run) == now && Enabled(now, a)
    ensures Legal(INIT, longer) && After(INIT, longer) == next == Next(now, a)
  {
    longer, next := run + [a], Next(now, a);
    assert longer[..|run|] == run;
  }

  function Light(asked: nat, job: nat, phase: Phase): Handler {
    Handler(asked, job, false, Other, "", phase, false)
  }

  /** Light triggers for the jobs 1 and 2 arrive. */
  lemma TwoTriggers() returns (run: seq<Step>, s: State)
    ensures Legal(INIT, run) && After(INIT, run) == s
    ensures s.handlers == [Light(1, 1, Arrived), Light(2, 2, Arrived)] && s.dispatched == map[] && s.active == map[]
  {
    run, s := AndThen([], INIT, Arrive(1, false, false, Other, ""));
    run, s := AndThen(run, s, Arrive(2, false, false, Other, ""));
  }

  lemma FirstMarked() returns (run: seq<Step>, s: State)
    ensures Legal(INIT, run) && After(INIT, run) == s
    ensures s.handlers == [Light(1, 1, Claiming), Light(2, 2, Arrived)]
    ensures s.dispatched == map[1 := 0] && s.active == map[]
  {
    run, s := TwoTriggers();
    run, s := AndThen(run, s, Mark(0));
  }

  /** The claim of job 1 is answered with job 2. */
  lemma WrongGrant() returns (run: seq<Step>, s: State)
    ensures Legal(INIT, run) && After(INIT, run) == s
    ensures s.handlers == [Light(1, 2, Claimed), Light(2, 2, Arrived)]
    ensures s.dispatched == map[1 := 0] && s.active == map[]
  {
    run, s := FirstMarked();
    run, s := AndThen(run, s, Grant(0, 2));
  }

  /** So job 2 is executing, on the first trigger, while only job 1 is marked. */
  lemma DishonestPrefix() returns (run: seq<Step>, s: State)
    ensures Legal(INIT, run) && After(INIT, run) == s
    ensures s.handlers == [Light(1, 2, Queued), Light(2, 2, Arrived)]
    ensures s.dispatched == map[1 := 0] && s.active == map[2 := 0]
  {
    run, s := WrongGrant();
    run, s := AndThen(run, s, Enter(0));
  }

  lemma SecondMarked() returns (run: seq<Step>, s: State)
    ensures Legal(INIT, run) && After(INIT, run) == s
    ensures s.handlers == [Light(1, 2, Queued), Light(2, 2, Claiming)]
    ensures s.dispatched == map[1 := 0, 2 := 1] && s.active == map[2 := 0]
  {
    run, s := DishonestPrefix();
    run, s := AndThen(run, s, Mark(1));
  }

  /** Without the honesty assumption the "already executing" branch is reachable,
      and the handler that takes it is gone while its mark stays. */
  lemma DishonestAnswerReachesDuplicate() returns (run: seq<Step>)
    ensures Legal(INIT, run)
    ensures var s := After(INIT, run);
            && At(s, 1, Claimed) && s.handlers[1].job in s.active
            && At(Next(s, Enter(1)), 1, Done) && 2 in Next(s, Enter(1)).dispatched
  {
    var s;
    run, s := SecondMarked();
    run, s := AndThen(run, s, Grant(1, 2));
  }
}
