/** Every interleaving of the trigger handlers: a labelled transition system
    whose steps are the atomic actions of HandleJobTrigger, HandleJobTriggerFull
    and Execute, defers included. Labels carry the choices of the environment. */
module EngineMachine {
  import opened Execution
  import opened JobEngines

  datatype Action = Deploy | Sync | Other

  /** Where a handler goroutine stands. */
  datatype Phase =
    | Arrived                                          // before markDispatched
    | Claiming                                         // claim in flight
    | Refused                                          // claim failed; the mark is still set
    | Claimed                                          // about to enter Execute
    | Queued                                           // in `active`, waiting for a slot
    | Running                                          // holds a slot
    | Locked                                           // holds a slot and the deploy lock of its site
    | Reporting(pending: seq<Status>, recovering: bool)
    | Closing                                          // deferred lb.Close
    | Releasing                                        // deferred receive from the semaphore
    | Retiring                                         // deferred active.Delete
    | Clearing                                         // deferred clearDispatched
    | Done

  /** `asked` is the id of the trigger, `job` the id being executed, `batcher`
      whether its log batcher exists; the batcher's background goroutines can
      still be sending when the handler has returned. */
  datatype Handler = Handler(
    asked: nat, job: nat, full: bool, action: Action, site: string,
    phase: Phase, batcher: bool)

  datatype Event =
    | ClaimGranted(h: nat, job: nat)
    | ClaimRefused(h: nat, asked: nat)
    | Started(h: nat, job: nat)
    | LogsStreamed(h: nat, job: nat)
    | Completed(h: nat, job: nat, status: Status)

  /** The stored value is always 0, as in the source; `holder` is an auxiliary
      record that no transition reads. So are the values of `dispatched` and
      `active`, which name the handler that stored the key. */
  datatype LockEntry = LockEntry(jobID: nat, holder: nat)

  datatype State = State(
    handlers: seq<Handler>,
    dispatched: map<nat, nat>,
    active: map<nat, nat>,
    slots: nat,
    locks: map<string, LockEntry>,
    cancelled: bool,
    trace: seq<Event>)

  datatype Step =
    | Arrive(asked: nat, full: bool, polled: bool, action: Action, site: string)
    | Mark(h: nat)
    | Grant(h: nat, got: nat)
    | Refuse(h: nat)
    | Forget(h: nat)
    | Enter(h: nat)
    | Acquire(h: nat)
    | GiveUp(h: nat)
    | TryLock(h: nat)
    | Unlock(h: nat, exit: Exit)
    | Finish(h: nat, exit: Exit)
    | Report(h: nat)
    | ReportPanics(h: nat)
    | FlushPanics(h: nat)
    | Close(h: nat)
    | FreeSlot(h: nat)
    | Retire(h: nat)
    | Clear(h: nat)
    | Flush(h: nat)
    | Cancel

  const INIT := State([], map[], map[], 0, map[], false, [])

  // Transitions

  predicate At(s: State, h: nat, p: Phase) {
    h < |s.handlers| && s.handlers[h].phase == p
  }

  predicate Enabled(s: State, a: Step) {
    match a
    case Arrive(asked, _, polled, _, _) => polled ==> asked !in s.dispatched
    case Mark(h) => At(s, h, Arrived)
    case Grant(h, got) => At(s, h, Claiming)
    case Refuse(h) => At(s, h, Claiming)
    case Forget(h) => At(s, h, Refused)
    case Enter(h) => At(s, h, Claimed)
    case Acquire(h) => At(s, h, Queued) && s.slots < MAX_CONCURRENT_JOBS
    case GiveUp(h) => At(s, h, Queued) && s.cancelled
    case TryLock(h) => At(s, h, Running) && s.handlers[h].action != Other
    case Unlock(h, exit) => At(s, h, Locked) && (exit.FallsThrough? || exit.Panics?)
    case Finish(h, exit) =>
      At(s, h, Running) && !exit.ReplacesProcess() && (s.handlers[h].action == Other || exit.InvalidParams?)
    case Report(h) => h < |s.handlers| && s.handlers[h].phase.Reporting?
    case ReportPanics(h) => h < |s.handlers| && s.handlers[h].phase.Reporting? && s.handlers[h].phase.pending != []
    case FlushPanics(h) => h < |s.handlers| && s.handlers[h].phase.Reporting? && s.handlers[h].phase.pending != []
    case Close(h) => At(s, h, Closing)
    case FreeSlot(h) => At(s, h, Releasing) && s.slots > 0
    case Retire(h) => At(s, h, Retiring)
    case Clear(h) => At(s, h, Clearing)
    case Flush(h) => h < |s.handlers| && s.handlers[h].batcher
    case Cancel => !s.cancelled
  }

  /** The handler that step `a` names, as the step leaves it. */
  function Moved(s: State, a: Step): Handler
    requires Enabled(s, a) && !a.Arrive? && !a.Cancel?
  {
    var x := s.handlers[a.h];
    match a
    case Mark(h) => x.(phase := if Stored(s.dispatched, x.asked, h).0 then Claiming else Done)
    case Grant(_, got) => x.(phase := Claimed, job := if x.full then x.asked else got)
    case Refuse(_) => x.(phase := Refused)
    case Forget(_) => x.(phase := Done)
    // a job that is already executing ends here, before any defer is set up
    case Enter(h) => x.(phase := if Stored(s.active, x.job, h).0 then Queued else Done)
    case Acquire(_) => x.(phase := Running, batcher := true)
    case GiveUp(_) => x.(phase := Retiring)
    case TryLock(_) =>
      x.(phase := if Stored(s.locks, x.site, LockEntry(0, a.h)).0 then Locked
                  else Reporting(Reports(FallsThrough(true)), false))
    case Unlock(_, exit) => x.(phase := Reporting(Reports(exit), exit.Panics?))
    case Finish(_, exit) => x.(phase := Reporting(Reports(exit), exit.Panics?))
    case Report(_) =>
      var p := x.phase;
      x.(phase := if p.pending == [] then Closing else Reporting(p.pending[1..], p.recovering))
    case ReportPanics(_) => x.(phase := Reporting(if x.phase.recovering then [] else [Failed], true))
    case FlushPanics(_) => x.(phase := Reporting(if x.phase.recovering then [] else [Failed], true))
    case Close(_) => x.(phase := Releasing)
    case FreeSlot(_) => x.(phase := Retiring)
    case Retire(_) => x.(phase := Clearing)
    case Clear(_) => x.(phase := Done)
    case Flush(_) => x
  }

  function HandlersAfter(s: State, a: Step): seq<Handler>
    requires Enabled(s, a)
  {
    match a
    case Arrive(asked, full, _, action, site) =>
      s.handlers + [Handler(asked, asked, full, action, site, Arrived, false)]
    case Cancel => s.handlers
    case _ => s.handlers[a.h := Moved(s, a)]
  }

  /** markDispatched stores if absent; clearDispatched deletes the handler's
      asked id after a failed claim and its executed id after Execute. */
  function DispatchedAfter(s: State, a: Step): map<nat, nat>
    requires Enabled(s, a)
  {
    match a
    case Mark(h) => Stored(s.dispatched, s.handlers[h].asked, h).1
    case Forget(h) => Deleted(s.dispatched, s.handlers[h].asked)
    case Clear(h) => Deleted(s.dispatched, s.handlers[h].job)
    case _ => s.dispatched
  }

  function ActiveAfter(s: State, a: Step): map<nat, nat>
    requires Enabled(s, a)
  {
    match a
    case Enter(h) => Stored(s.active, s.handlers[h].job, h).1
    case Retire(h) => Deleted(s.active, s.handlers[h].job)
    case _ => s.active
  }

  function SlotsAfter(s: State, a: Step): nat
    requires Enabled(s, a)
  {
    match a
    case Acquire(_) => s.slots + 1
    case FreeSlot(_) => s.slots - 1
    case _ => s.slots
  }

  function LocksAfter(s: State, a: Step): map<string, LockEntry>
    requires Enabled(s, a)
  {
    match a
    case TryLock(h) => Stored(s.locks, s.handlers[h].site, LockEntry(0, h)).1
    case Unlock(h, _) => Deleted(s.locks, s.handlers[h].site)
    case _ => s.locks
  }

  /** What the control plane sees of a step. */
  function EventsOf(s: State, a: Step): seq<Event>
    requires Enabled(s, a)
  {
    match a
    case Grant(h, _) => [ClaimGranted(h, Moved(s, a).job)]
    case Refuse(h) => [ClaimRefused(h, s.handlers[h].asked)]
    case Acquire(h) => [Started(h, s.handlers[h].job)]
    case Report(h) =>
      var pending := s.handlers[h].phase.pending;
      if pending == [] then [] else [Completed(h, s.handlers[h].job, pending[0])]
    case ReportPanics(h) => [Completed(h, s.handlers[h].job, s.handlers[h].phase.pending[0])]
    case FlushPanics(h) => [LogsStreamed(h, s.handlers[h].job)]
    case Flush(h) => [LogsStreamed(h, s.handlers[h].job)]
    case _ => []
  }

  function Next(s: State, a: Step): State
    requires Enabled(s, a)
  {
    State(HandlersAfter(s, a), DispatchedAfter(s, a), ActiveAfter(s, a), SlotsAfter(s, a),
          LocksAfter(s, a), s.cancelled || a.Cancel?, s.trace + EventsOf(s, a))
  }

  // Runs

  ghost predicate Legal(s: State, run: seq<Step>)
    decreases |run|, 0
  {
    run == [] || (Legal(s, run[..|run| - 1]) && Enabled(After(s, run[..|run| - 1]), run[|run| - 1]))
  }

  ghost function After(s: State, run: seq<Step>): State
    requires Legal(s, run)
    decreases |run|, 1
  {
    if run == [] then s else Next(After(s, run[..|run| - 1]), run[|run| - 1])
  }

  /** The control plane answers a light claim with the job that was asked for. */
  predicate HonestStep(s: State, a: Step)
    requires Enabled(s, a)
  {
    a.Grant? && !s.handlers[a.h].full ==> a.got == s.handlers[a.h].asked
  }

  /** A legal run all of whose claim answers are honest. */
  ghost predicate Honest(s: State, run: seq<Step>)
    ensures Honest(s, run) ==> Legal(s, run)
    decreases |run|
  {
    run == [] ||
    (Honest(s, run[..|run| - 1])
     && Enabled(After(s, run[..|run| - 1]), run[|run| - 1])
     && HonestStep(After(s, run[..|run| - 1]), run[|run| - 1]))
  }
}
