/** Completion accounting in every interleaving: which CompleteJob calls the control
    plane sees of one handler, over whole runs of the engine. */
module EngineReports {
  import opened Execution
  import opened Sums
  import opened EngineMachine
  import opened EngineSafety

  /** The statuses one handler reports in a trace, in order. */
  function ReportsBy(trace: seq<Event>, h: nat): seq<Status> {
    if trace == [] then []
    else
      ReportsBy(trace[..|trace| - 1], h) +
      match trace[|trace| - 1]
      case Completed(k, _, status) => if k == h then [status] else []
      case _ => []
  }

  lemma {:induction false} ReportsByConcat(a: seq<Event>, b: seq<Event>, h: nat)
    ensures ReportsBy(a + b, h) == ReportsBy(a, h) + ReportsBy(b, h)
  {
    if b == [] {
      assert a + b == a;
    } else {
      var n := |b| - 1;
      ReportsByConcat(a, b[..n], h);
      assert (a + b)[..|a + b| - 1] == a + b[..n] && (a + b)[|a + b| - 1] == b[n];
    }
  }

  function StartBy(h: nat): Event -> nat {
    (e: Event) => if e.Started? && e.h == h then 1 else 0
  }

  /** How a handler's execution ended, once it has. A busy site's lock ends it with an
      ordinary error. */
  datatype Verdict = Undecided | Decided(exit: Exit)

  function VerdictAfter(s: State, a: Step, h: nat, v: Verdict): Verdict
    requires Enabled(s, a)
  {
    match a
    case Finish(k, exit) => if k == h then Decided(exit) else v
    case Unlock(k, exit) => if k == h then Decided(exit) else v
    case TryLock(k) => if k == h && !Moved(s, a).phase.Locked? then Decided(FallsThrough(true)) else v
    case _ => v
  }

  ghost function VerdictOf(run: seq<Step>, h: nat): Verdict
    requires Legal(INIT, run)
    decreases |run|
  {
    if run == [] then Undecided
    else VerdictAfter(After(INIT, run[..|run| - 1]), run[|run| - 1], h, VerdictOf(run[..|run| - 1], h))
  }

  /** A client call of this handler panics. */
  predicate Disturbs(a: Step, h: nat) {
    (a.ReportPanics? || a.FlushPanics?) && a.h == h
  }

  /** What the trace shows of a handler at each point of its way. */
  predicate PhaseAccounts(p: Phase, v: Verdict, reported: seq<Status>, starts: nat) {
    match p
    case Reporting(pending, _) => v.Decided? && reported + pending == Reports(v.exit) && starts == 1
    case Closing => v.Decided? && reported == Reports(v.exit) && starts == 1
    case Releasing => v.Decided? && reported == Reports(v.exit) && starts == 1
    case Retiring => if v.Decided? then reported == Reports(v.exit) && starts == 1 else reported == [] && starts == 0
    case Clearing => if v.Decided? then reported == Reports(v.exit) && starts == 1 else reported == [] && starts == 0
    case Done => if v.Decided? then reported == Reports(v.exit) && starts == 1 else reported == [] && starts == 0
    case Running => v.Undecided? && reported == [] && starts == 1
    case Locked => v.Undecided? && reported == [] && starts == 1
    case _ => v.Undecided? && reported == [] && starts == 0
  }

  predicate Accounted(s: State, h: nat, v: Verdict) {
    var reported, starts := ReportsBy(s.trace, h), Sum(s.trace, StartBy(h));
    if h < |s.handlers| then PhaseAccounts(s.handlers[h].phase, v, reported, starts)
    else v.Undecided? && reported == [] && starts == 0
  }

  /** The part of a step's events that is this handler's own. */
  lemma EventsBy(s: State, a: Step, h: nat)
    requires Enabled(s, a)
    ensures Sum(EventsOf(s, a), StartBy(h)) == if a.Acquire? && a.h == h then 1 else 0
    ensures ReportsBy(EventsOf(s, a), h) ==
            if a.Report? && a.h == h && s.handlers[h].phase.pending != [] then [s.handlers[h].phase.pending[0]]
            else if a.ReportPanics? && a.h == h then [s.handlers[h].phase.pending[0]]
            else []
  {
    var events := EventsOf(s, a);
    if events != [] {
      assert events[..0] == [] && |events| == 1;
      assert Sum(events, StartBy(h)) == StartBy(h)(events[0]);
    }
  }

  lemma TakeFirst(made: seq<Status>, due: seq<Status>)
    requires due != []
    ensures made + due == made + [due[0]] + due[1..]
  {}

  lemma NothingDue(made: seq<Status>)
    ensures made + [] == made
  {}

  /** Making the next report leaves the sum of reports made and still due as it is. */
  lemma ReportAccounts(s: State, h: nat, v: Verdict, reported: seq<Status>, starts: nat)
    requires Enabled(s, Report(h)) && PhaseAccounts(s.handlers[h].phase, v, reported, starts)
    ensures PhaseAccounts(Moved(s, Report(h)).phase, v, reported + ReportsBy(EventsOf(s, Report(h)), h), starts)
  {
    EventsBy(s, Report(h), h);
    NothingDue(reported);
    var pending := s.handlers[h].phase.pending;
    if pending != [] {
      TakeFirst(reported, pending);
    }
  }

  /** A step that reports nothing and starts nothing. */
  lemma SilentAccounts(s: State, a: Step, v: Verdict, reported: seq<Status>, starts: nat)
    requires Enabled(s, a) && !a.Arrive? && !a.Cancel? && !a.Report? && !a.Acquire? && !Disturbs(a, a.h)
    requires PhaseAccounts(s.handlers[a.h].phase, v, reported, starts)
    ensures PhaseAccounts(Moved(s, a).phase, VerdictAfter(s, a, a.h, v), reported, starts)
  {
    assert forall exit: Exit :: [] + Reports(exit) == Reports(exit);
  }

  /** A handler's own step keeps its account. */
  lemma MoverAccounts(s: State, a: Step, v: Verdict, reported: seq<Status>, starts: nat)
    requires Enabled(s, a) && !a.Arrive? && !a.Cancel? && !Disturbs(a, a.h)
    requires PhaseAccounts(s.handlers[a.h].phase, v, reported, starts)
    ensures PhaseAccounts(Moved(s, a).phase, VerdictAfter(s, a, a.h, v),
                          reported + ReportsBy(EventsOf(s, a), a.h), starts + Sum(EventsOf(s, a), StartBy(a.h)))
  {
    EventsBy(s, a, a.h);
    if a.Report? {
      ReportAccounts(s, a.h, v, reported, starts);
    } else if !a.Acquire? {
      SilentAccounts(s, a, v, reported, starts);
      assert reported + [] == reported;
    }
  }

  predicate Moves(a: Step, h: nat) {
    !a.Arrive? && !a.Cancel? && a.h == h
  }

  /** A step leaves every handler alone but the one it names. */
  lemma OthersStay(s: State, a: Step, h: nat)
    requires Enabled(s, a) && !Moves(a, h)
    ensures h < |s.handlers| ==> h < |Next(s, a).handlers| && Next(s, a).handlers[h] == s.handlers[h]
    ensures |s.handlers| <= h < |Next(s, a).handlers| ==> Next(s, a).handlers[h].phase == Arrived
  {
    if !a.Arrive? && !a.Cancel? {
      OneHandler(s, a);
    }
  }

  lemma TraceGrows(s: State, a: Step, h: nat)
    requires Enabled(s, a)
    ensures ReportsBy(Next(s, a).trace, h) == ReportsBy(s.trace, h) + ReportsBy(EventsOf(s, a), h)
    ensures Sum(Next(s, a).trace, StartBy(h)) == Sum(s.trace, StartBy(h)) + Sum(EventsOf(s, a), StartBy(h))
  {
    ReportsByConcat(s.trace, EventsOf(s, a), h);
    SumConcat(s.trace, EventsOf(s, a), StartBy(h));
  }

  lemma AccountOfMover(s: State, a: Step, v: Verdict)
    requires Enabled(s, a) && !a.Arrive? && !a.Cancel? && Accounted(s, a.h, v) && !Disturbs(a, a.h)
    ensures Accounted(Next(s, a), a.h, VerdictAfter(s, a, a.h, v))
  {
    TraceGrows(s, a, a.h);
    MoverAccounts(s, a, v, ReportsBy(s.trace, a.h), Sum(s.trace, StartBy(a.h)));
    OneHandler(s, a);
  }

  /** What a handler shows is not changed by the steps of others. */
  lemma OthersUnheard(s: State, a: Step, h: nat)
    requires Enabled(s, a) && !Moves(a, h)
    ensures ReportsBy(Next(s, a).trace, h) == ReportsBy(s.trace, h)
    ensures Sum(Next(s, a).trace, StartBy(h)) == Sum(s.trace, StartBy(h))
  {
    TraceGrows(s, a, h);
    EventsBy(s, a, h);
    NothingDue(ReportsBy(s.trace, h));
  }

  lemma VerdictOfOthers(s: State, a: Step, h: nat, v: Verdict)
    requires Enabled(s, a) && !Moves(a, h)
    ensures VerdictAfter(s, a, h, v) == v
  {}

  lemma AccountOfOthers(s: State, a: Step, h: nat, v: Verdict)
    requires Enabled(s, a) && Accounted(s, h, v) && !Moves(a, h)
    ensures Accounted(Next(s, a), h, v)
  {
    OthersUnheard(s, a, h);
    OthersStay(s, a, h);
  }

  lemma AccountStep(s: State, a: Step, h: nat, v: Verdict)
    requires Enabled(s, a) && Accounted(s, h, v) && !Disturbs(a, h)
    ensures Accounted(Next(s, a), h, VerdictAfter(s, a, h, v))
  {
    if Moves(a, h) {
      AccountOfMover(s, a, v);
    } else {
      VerdictOfOthers(s, a, h, v);
      AccountOfOthers(s, a, h, v);
    }
  }

  lemma {:induction false} AlwaysAccounted(run: seq<Step>, h: nat)
    requires Legal(INIT, run) && forall a :: a in run ==> !Disturbs(a, h)
    ensures Accounted(After(INIT, run), h, VerdictOf(run, h))
    decreases |run|
  {
    if run != [] {
      var before, a := run[..|run| - 1], run[|run| - 1];
      AlwaysAccounted(before, h);
      AccountStep(After(INIT, before), a, h, VerdictOf(before, h));
    }
  }

  /** Main result. In every interleaving, a handler that is done and none of whose client
      calls panicked has reported exactly what its exit path calls for if it started, in
      that order, and nothing if it did not. */
  lemma DoneHandlerReported(run: seq<Step>, h: nat)
    requires Legal(INIT, run) && At(After(INIT, run), h, Done) && forall a :: a in run ==> !Disturbs(a, h)
    ensures var trace, v := After(INIT, run).trace, VerdictOf(run, h);
            && Sum(trace, StartBy(h)) <= 1
            && (Sum(trace, StartBy(h)) == 1 <==> v.Decided?)
            && ReportsBy(trace, h) == if v.Decided? then Reports(v.exit) else []
  {
    AlwaysAccounted(run, h);
  }

  /** So with a steady environment it has reported once, save for a failed re-exec. */
  lemma DoneHandlerReportedOnce(run: seq<Step>, h: nat)
    requires Legal(INIT, run) && At(After(INIT, run), h, Done) && forall a :: a in run ==> !Disturbs(a, h)
    requires VerdictOf(run, h).Decided?
    requires VerdictOf(run, h).exit.Restarts? ==> VerdictOf(run, h).exit.host.Constant()
    ensures var reported, exit := ReportsBy(After(INIT, run).trace, h), VerdictOf(run, h).exit;
            if exit.Restarts? && !exit.host.middle && exit.host.attemptFails then reported == [Success, Failed]
            else |reported| == 1
  {
    DoneHandlerReported(run, h);
    ExactlyOneReport(VerdictOf(run, h).exit);
  }

  // What becomes of a granted job

  predicate Grants(a: Step, h: nat) {
    a.Grant? && a.h == h
  }

  ghost predicate Granted(run: seq<Step>, h: nat) {
    exists i :: 0 <= i < |run| && Grants(run[i], h)
  }

  lemma OneMore(run: seq<Step>, h: nat)
    requires run != []
    ensures var before, a := run[..|run| - 1], run[|run| - 1];
            && (Granted(run, h) <==> Granted(before, h) || Grants(a, h))
            && (GiveUp(h) in run <==> GiveUp(h) in before || a == GiveUp(h))
  {
    var before, a := run[..|run| - 1], run[|run| - 1];
    assert run == before + [a];
    if Granted(before, h) {
      var i :| 0 <= i < |before| && Grants(before[i], h);
      assert Grants(run[i], h);
    }
    if Grants(a, h) {
      assert Grants(run[|run| - 1], h);
    }
  }

  /** How far a handler can have got, given whether its claim was granted and whether it
      gave up waiting for a slot. */
  predicate CourseFits(p: Phase, granted: bool, gaveUp: bool, starts: nat) {
    match p
    case Arrived => !granted && !gaveUp && starts == 0
    case Claiming => !granted && !gaveUp && starts == 0
    case Refused => !granted && !gaveUp && starts == 0
    case Claimed => granted && !gaveUp && starts == 0
    case Queued => granted && !gaveUp && starts == 0
    case Retiring => granted && starts == if gaveUp then 0 else 1
    case Clearing => granted && starts == if gaveUp then 0 else 1
    case Done => (gaveUp ==> granted) && starts == if granted && !gaveUp then 1 else 0
    case _ => granted && !gaveUp && starts == 1
  }

  /** Nothing is reported before the start. */
  predicate OnCourse(s: State, h: nat, granted: bool, gaveUp: bool) {
    var starts := Sum(s.trace, StartBy(h));
    && (starts == 0 ==> ReportsBy(s.trace, h) == [])
    && (if h < |s.handlers| then CourseFits(s.handlers[h].phase, granted, gaveUp, starts)
        else !granted && !gaveUp && starts == 0)
  }

  /** A handler's own step, unless it finds its job already executing. */
  lemma MoverOnCourse(s: State, a: Step, granted: bool, gaveUp: bool, starts: nat)
    requires Enabled(s, a) && !a.Arrive? && !a.Cancel?
    requires a.Enter? ==> s.handlers[a.h].job !in s.active
    requires CourseFits(s.handlers[a.h].phase, granted, gaveUp, starts)
    ensures CourseFits(Moved(s, a).phase, granted || a.Grant?, gaveUp || a.GiveUp?,
                       starts + if a.Acquire? then 1 else 0)
  {}

  lemma CourseOfMover(s: State, a: Step, granted: bool, gaveUp: bool)
    requires Enabled(s, a) && !a.Arrive? && !a.Cancel? && OnCourse(s, a.h, granted, gaveUp)
    requires a.Enter? ==> s.handlers[a.h].job !in s.active
    ensures OnCourse(Next(s, a), a.h, granted || a.Grant?, gaveUp || a.GiveUp?)
  {
    TraceGrows(s, a, a.h);
    EventsBy(s, a, a.h);
    MoverOnCourse(s, a, granted, gaveUp, Sum(s.trace, StartBy(a.h)));
    OneHandler(s, a);
  }

  lemma CourseOfOthers(s: State, a: Step, h: nat, granted: bool, gaveUp: bool)
    requires Enabled(s, a) && !Moves(a, h) && OnCourse(s, h, granted, gaveUp)
    ensures OnCourse(Next(s, a), h, granted, gaveUp)
  {
    OthersUnheard(s, a, h);
    OthersStay(s, a, h);
  }

  lemma CourseStep(s: State, a: Step, h: nat, granted: bool, gaveUp: bool)
    requires Core(s) && MarksExact(s) && Enabled(s, a) && OnCourse(s, h, granted, gaveUp)
    ensures OnCourse(Next(s, a), h, granted || Grants(a, h), gaveUp || a == GiveUp(h))
  {
    if Moves(a, h) {
      if a.Enter? {
        JobNotActive(s, h);
      }
      CourseOfMover(s, a, granted, gaveUp);
    } else {
      CourseOfOthers(s, a, h, granted, gaveUp);
    }
  }

  lemma {:induction false} AlwaysOnCourse(run: seq<Step>, h: nat)
    requires Honest(INIT, run)
    ensures OnCourse(After(INIT, run), h, Granted(run, h), GiveUp(h) in run)
    decreases |run|
  {
    if run != [] {
      var before := run[..|run| - 1];
      AlwaysOnCourse(before, h);
      CoreAlways(before);
      MarksAlways(before);
      OneMore(run, h);
      CourseStep(After(INIT, before), run[|run| - 1], h, Granted(before, h), GiveUp(h) in before);
    }
  }

  /** A granted job whose handler is done was started, and once, if and only if the
      handler did not give up waiting for a slot; one that gave up reports nothing, ever. */
  lemma GrantedStartsIff(run: seq<Step>, h: nat)
    requires Honest(INIT, run) && At(After(INIT, run), h, Done) && Granted(run, h)
    ensures Sum(After(INIT, run).trace, StartBy(h)) == if GiveUp(h) in run then 0 else 1
    ensures GiveUp(h) in run ==> ReportsBy(After(INIT, run).trace, h) == []
  {
    AlwaysOnCourse(run, h);
  }

  /** So, unless one of its client calls panics, the control plane gets from a handler
      that was granted its job exactly the reports of its exit path, and none at all if
      the context ended while it waited for a slot. */
  lemma GrantedReported(run: seq<Step>, h: nat)
    requires Honest(INIT, run) && At(After(INIT, run), h, Done) && Granted(run, h)
    requires forall a :: a in run ==> !Disturbs(a, h)
    ensures VerdictOf(run, h).Decided? <==> GiveUp(h) !in run
    ensures ReportsBy(After(INIT, run).trace, h) == if GiveUp(h) in run then [] else Reports(VerdictOf(run, h).exit)
  {
    GrantedStartsIff(run, h);
    DoneHandlerReported(run, h);
  }

  // With panics

  /** How many more reports a handler can make from where it stands. */
  function Allowance(p: Phase): nat {
    match p
    case Reporting(pending, recovering) => |pending| + if recovering then 0 else 1
    case Closing => 0
    case Releasing => 0
    case Retiring => 0
    case Clearing => 0
    case Done => 0
    case _ => 3
  }

  predicate Limited(s: State, h: nat) {
    |ReportsBy(s.trace, h)| + (if h < |s.handlers| then Allowance(s.handlers[h].phase) else 3) <= 3
  }

  lemma AllowanceUsed(s: State, a: Step)
    requires Enabled(s, a) && !a.Arrive? && !a.Cancel?
    ensures |ReportsBy(EventsOf(s, a), a.h)| + Allowance(Moved(s, a).phase) <= Allowance(s.handlers[a.h].phase)
  {
    EventsBy(s, a, a.h);
    if a.Finish? || a.Unlock? {
      ReportsAreFew(a.exit);
    }
  }

  lemma LimitedStep(s: State, a: Step, h: nat)
    requires Enabled(s, a) && Limited(s, h)
    ensures Limited(Next(s, a), h)
  {
    if Moves(a, h) {
      TraceGrows(s, a, h);
      AllowanceUsed(s, a);
      OneHandler(s, a);
    } else {
      OthersUnheard(s, a, h);
      OthersStay(s, a, h);
    }
  }

  /** Whatever panics, a handler never reports more than three times. */
  lemma {:induction false} ThreeReportsAtMost(run: seq<Step>, h: nat)
    requires Legal(INIT, run)
    ensures Limited(After(INIT, run), h)
    ensures |ReportsBy(After(INIT, run).trace, h)| <= 3
    decreases |run|
  {
    if run != [] {
      ThreeReportsAtMost(run[..|run| - 1], h);
      LimitedStep(After(INIT, run[..|run| - 1]), run[|run| - 1], h);
    }
  }
}
