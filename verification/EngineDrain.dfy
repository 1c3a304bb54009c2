/** The engine drains: without new triggers every run is finite, a live handler
    can always move, and once all handlers are done nothing is left behind. */
module EngineDrain {
  import opened Execution
  import opened JobEngines
  import opened Sums
  import opened EngineMachine
  import opened EngineSafety

  function Rank(p: Phase): nat {
    match p
    case Arrived => 14
    case Claiming => 13
    case Refused => 12
    case Claimed => 12
    case Queued => 11
    case Running => 10
    case Locked => 9
    case Reporting(pending, recovering) => 5 + |pending| + (if recovering then 0 else 1)
    case Closing => 4
    case Releasing => 3
    case Retiring => 2
    case Clearing => 1
    case Done => 0
  }

  function Weight(x: Handler): nat {
    Rank(x.phase)
  }

  function Measure(s: State): nat {
    Sum(s.handlers, Weight) + (if s.cancelled then 0 else 1)
  }

  /** Sending a log batch moves no handler on; every other step but a new trigger does. */
  predicate Advances(a: Step) {
    !a.Arrive? && !a.Flush?
  }

  lemma WeightDrops(s: State, a: Step)
    requires Enabled(s, a) && Advances(a) && !a.Cancel?
    ensures Weight(Moved(s, a)) < Weight(s.handlers[a.h])
  {
    if a.Unlock? || a.Finish? {
      ReportsAreFew(a.exit);
    }
  }

  /** Every step that advances uses up part of a finite measure, and sending a log
      batch gives nothing back. */
  lemma MeasureDrops(s: State, a: Step)
    requires Enabled(s, a) && !a.Arrive?
    ensures if Advances(a) then Measure(Next(s, a)) < Measure(s) else Measure(Next(s, a)) == Measure(s)
  {
    if a.Flush? {
      SumUpdate(s.handlers, a.h, Moved(s, a), Weight);
    } else if !a.Cancel? {
      WeightDrops(s, a);
      SumUpdate(s.handlers, a.h, Moved(s, a), Weight);
    }
  }

  function Work(a: Step): nat {
    if Advances(a) then 1 else 0
  }

  /** So a run without new triggers advances at most Measure(s) times. */
  lemma {:induction false} RunsAreBounded(s: State, run: seq<Step>)
    requires Legal(s, run) && forall a :: a in run ==> !a.Arrive?
    ensures Sum(run, Work) + Measure(After(s, run)) <= Measure(s)
    decreases |run|
  {
    if run != [] {
      RunsAreBounded(s, run[..|run| - 1]);
      MeasureDrops(After(s, run[..|run| - 1]), run[|run| - 1]);
    }
  }

  /** The step a live handler takes next once its client call has returned. A
      handler waiting for a slot may have to let a slot holder move instead. */
  lemma LiveHandlerMoves(s: State, h: nat) returns (a: Step)
    requires Core(s) && h < |s.handlers| && !s.handlers[h].phase.Done?
    ensures Enabled(s, a) && Advances(a) && !a.Cancel?
  {
    match s.handlers[h].phase {
      case Arrived => a := Mark(h);
      case Claiming => a := Refuse(h);
      case Refused => a := Forget(h);
      case Claimed => a := Enter(h);
      case Queued =>
        if s.slots < MAX_CONCURRENT_JOBS {
          a := Acquire(h);
        } else {
          var k := PositiveSummand(s.handlers, SlotOf);
          a := SlotHolderMoves(s, k);
        }
      case Retiring => a := Retire(h);
      case Clearing => a := Clear(h);
      case _ => a := SlotHolderMoves(s, h);
    }
  }

  lemma SlotHolderMoves(s: State, h: nat) returns (a: Step)
    requires Core(s) && h < |s.handlers| && HoldsSlot(s.handlers[h].phase)
    ensures Enabled(s, a) && Advances(a) && !a.Cancel?
  {
    match s.handlers[h].phase {
      case Running => a := Finish(h, InvalidParams);
      case Locked => a := Unlock(h, FallsThrough(false));
      case Reporting(_, _) => a := Report(h);
      case Closing => a := Close(h);
      case Releasing =>
        SumAtLeast(s.handlers, h, SlotOf);
        a := FreeSlot(h);
    }
  }

  ghost predicate Quiet(s: State) {
    forall h :: 0 <= h < |s.handlers| ==> s.handlers[h].phase.Done?
  }

  /** Ownership by handlers that are all done is empty. */
  lemma NobodyOwns<K>(s: State, owner: map<K, nat>, claims: Handler -> bool, key: Handler -> K)
    requires Owns(owner, s.handlers, claims, key) && Quiet(s)
    requires forall x: Handler :: x.phase.Done? ==> !claims(x)
    ensures owner == map[]
  {
    OwnersLive(s, owner, claims, key);
    assert forall k :: k !in owner;
  }

  lemma OwnersLive<K>(s: State, owner: map<K, nat>, claims: Handler -> bool, key: Handler -> K)
    requires Owns(owner, s.handlers, claims, key)
    requires forall x: Handler :: x.phase.Done? ==> !claims(x)
    ensures forall k :: k in owner ==> owner[k] < |s.handlers| && !s.handlers[owner[k]].phase.Done?
  {}

  /** With no live handler the active set, the semaphore and the lock table are
      empty, whatever happened before. */
  lemma QuietMeansFree(s: State)
    requires Core(s) && Quiet(s)
    ensures s.active == map[] && s.locks == map[] && s.slots == 0
  {
    SumZero(s.handlers, SlotOf);
    NobodyOwns(s, s.active, IsExecuting, JobOf);
    NobodyOwns(s, Holders(s.locks), IsLocked, SiteOf);
    assert s.locks.Keys == Holders(s.locks).Keys;
  }

  lemma QuietMeansUnmarked(s: State)
    requires MarksExact(s) && Quiet(s)
    ensures s.dispatched == map[]
  {
    NobodyOwns(s, s.dispatched, IsMarking, AskedOf);
  }

  /** Main result. From any reachable state, an arrival-free continuation advances
      at most Measure times, and where it can advance no further every handler is
      done and all four tables are empty: on success, refused claim, panic and
      cancellation alike. */
  lemma EngineDrains(run: seq<Step>, rest: seq<Step>)
    requires Honest(INIT, run) && Honest(INIT, run + rest)
    requires forall a :: a in rest ==> !a.Arrive?
    ensures Legal(After(INIT, run), rest) && After(After(INIT, run), rest) == After(INIT, run + rest)
    ensures Sum(rest, Work) <= Measure(After(INIT, run))
    ensures var t := After(INIT, run + rest);
            (forall a: Step :: Enabled(t, a) ==> !Advances(a) || a.Cancel?) ==>
              Quiet(t) && t.dispatched == map[] && t.active == map[] && t.slots == 0 && t.locks == map[]
  {
    Continues(INIT, run, rest);
    RunsAreBounded(After(INIT, run), rest);
    CoreAlways(run + rest);
    MarksAlways(run + rest);
    var t := After(INIT, run + rest);
    if forall a: Step :: Enabled(t, a) ==> !Advances(a) || a.Cancel? {
      forall h | 0 <= h < |t.handlers|
        ensures t.handlers[h].phase.Done?
      {
        if !t.handlers[h].phase.Done? {
          var a := LiveHandlerMoves(t, h);
        }
      }
      QuietMeansFree(t);
      QuietMeansUnmarked(t);
    }
  }

  /** A run splits at any point. */
  lemma {:induction false} Continues(s: State, run: seq<Step>, rest: seq<Step>)
    requires Legal(s, run) && Legal(s, run + rest)
    ensures Legal(After(s, run), rest) && After(After(s, run), rest) == After(s, run + rest)
    decreases |rest|
  {
    if rest == [] {
      assert run + rest == run;
    } else {
      var n := |rest| - 1;
      assert (run + rest)[..|run + rest| - 1] == run + rest[..n];
      Continues(s, run, rest[..n]);
    }
  }
}
