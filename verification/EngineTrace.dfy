/** What the control plane can observe: claims precede everything else, and no
    job runs more often than it was granted. Holds for every control plane. */
module EngineTrace {
  import opened Sums
  import opened EngineMachine
  import opened EngineSafety

  /** Events that presuppose the handler's own granted claim. */
  predicate NeedsGrant(e: Event) {
    e.Started? || e.LogsStreamed? || e.Completed?
  }

  /** Every such event is preceded by the grant of that job to that handler. */
  ghost predicate Justified(trace: seq<Event>) {
    forall i :: 0 <= i < |trace| && NeedsGrant(trace[i]) ==> ClaimGranted(trace[i].h, trace[i].job) in trace[..i]
  }

  predicate PastClaim(p: Phase) {
    !p.Arrived? && !p.Claiming? && !p.Refused?
  }

  /** Whoever got past its claim, or still has a batcher, was granted its job. */
  predicate GrantTold(trace: seq<Event>, h: nat, x: Handler) {
    x.batcher || (PastClaim(x.phase) && !x.phase.Done?) ==> ClaimGranted(h, x.job) in trace
  }

  ghost predicate GrantsTold(s: State) {
    forall h :: 0 <= h < |s.handlers| ==> GrantTold(s.trace, h, s.handlers[h])
  }

  /** A claim event in the trace decides how far its handler can have got. */
  predicate ClaimTrue(s: State, e: Event) {
    && (e.ClaimGranted? ==> e.h < |s.handlers| && PastClaim(s.handlers[e.h].phase))
    && (e.ClaimRefused? ==> e.h < |s.handlers| && (s.handlers[e.h].phase.Refused? || s.handlers[e.h].phase.Done?))
  }

  ghost predicate ClaimsTrue(s: State) {
    forall e :: e in s.trace ==> ClaimTrue(s, e)
  }

  ghost predicate NeverBoth(trace: seq<Event>) {
    forall e, f :: e in trace && f in trace && e.ClaimGranted? && f.ClaimRefused? ==> e.h != f.h
  }

  lemma GrantToldMoves(s: State, a: Step)
    requires Enabled(s, a) && !a.Arrive? && !a.Cancel? && GrantTold(s.trace, a.h, s.handlers[a.h])
    ensures GrantTold(s.trace + EventsOf(s, a), a.h, Moved(s, a))
  {}

  lemma GrantsToldStep(s: State, a: Step)
    requires GrantsTold(s) && Enabled(s, a)
    ensures GrantsTold(Next(s, a))
  {
    var s' := Next(s, a);
    if !a.Arrive? && !a.Cancel? {
      OneHandler(s, a);
      GrantToldMoves(s, a);
    }
    forall h | 0 <= h < |s'.handlers|
      ensures GrantTold(s'.trace, h, s'.handlers[h])
    {
      assert h < |s.handlers| ==> GrantTold(s.trace, h, s.handlers[h]);
    }
  }

  /** A handler never falls back behind its claim, and never past a refused one. */
  lemma ClaimSettled(s: State, a: Step)
    requires Enabled(s, a) && !a.Arrive? && !a.Cancel?
    ensures PastClaim(s.handlers[a.h].phase) ==> PastClaim(Moved(s, a).phase)
    ensures s.handlers[a.h].phase.Refused? || s.handlers[a.h].phase.Done? ==>
              Moved(s, a).phase.Refused? || Moved(s, a).phase.Done?
  {}

  lemma ClaimStaysTrue(s: State, a: Step, e: Event)
    requires Enabled(s, a) && ClaimTrue(s, e)
    ensures ClaimTrue(Next(s, a), e)
  {
    if !a.Arrive? && !a.Cancel? {
      OneHandler(s, a);
      ClaimSettled(s, a);
    }
  }

  lemma NewClaimTrue(s: State, a: Step, e: Event)
    requires Enabled(s, a) && e in EventsOf(s, a)
    ensures ClaimTrue(Next(s, a), e)
  {}

  lemma ClaimsTrueStep(s: State, a: Step)
    requires ClaimsTrue(s) && Enabled(s, a)
    ensures ClaimsTrue(Next(s, a))
  {
    forall e | e in Next(s, a).trace
      ensures ClaimTrue(Next(s, a), e)
    {
      if e in s.trace {
        ClaimStaysTrue(s, a, e);
      } else {
        NewClaimTrue(s, a, e);
      }
    }
  }

  lemma NeverBothStep(s: State, a: Step)
    requires ClaimsTrue(s) && NeverBoth(s.trace) && Enabled(s, a)
    ensures NeverBoth(Next(s, a).trace)
  {
    var s' := Next(s, a);
    assert forall e :: e in s'.trace <==> e in s.trace || e in EventsOf(s, a);
  }

  lemma JustifiedStep(s: State, a: Step)
    requires GrantsTold(s) && Justified(s.trace) && Enabled(s, a)
    ensures Justified(Next(s, a).trace)
  {
    var t := Next(s, a).trace;
    forall i | 0 <= i < |t| && NeedsGrant(t[i])
      ensures ClaimGranted(t[i].h, t[i].job) in t[..i]
    {
      if i < |s.trace| {
        assert t[..i] == s.trace[..i];
      } else {
        assert t[..i] == s.trace;
      }
    }
  }

  lemma {:induction false} TraceAlways(run: seq<Step>)
    requires Legal(INIT, run)
    ensures var s := After(INIT, run); GrantsTold(s) && ClaimsTrue(s) && NeverBoth(s.trace) && Justified(s.trace)
    decreases |run|
  {
    if run != [] {
      var s, a := After(INIT, run[..|run| - 1]), run[|run| - 1];
      TraceAlways(run[..|run| - 1]);
      GrantsToldStep(s, a);
      ClaimsTrueStep(s, a);
      NeverBothStep(s, a);
      JustifiedStep(s, a);
    }
  }

  /** No log batch and no completion is reported for a job before that job was
      granted to the very handler that reports it. */
  lemma ClaimPrecedesReports(run: seq<Step>, i: nat)
    requires Legal(INIT, run) && i < |After(INIT, run).trace| && NeedsGrant(After(INIT, run).trace[i])
    ensures var t := After(INIT, run).trace;
            exists j :: 0 <= j < i && t[j] == ClaimGranted(t[i].h, t[i].job)
  {
    TraceAlways(run);
    var t := After(INIT, run).trace;
    assert ClaimGranted(t[i].h, t[i].job) in t[..i];
    var j :| 0 <= j < i && t[..i][j] == ClaimGranted(t[i].h, t[i].job);
    assert t[j] == ClaimGranted(t[i].h, t[i].job);
  }

  /** A handler whose claim failed (409, error or timeout) neither starts, nor
      streams logs, nor completes anything, ever. */
  lemma RefusedClaimDoesNothing(run: seq<Step>, e: Event, f: Event)
    requires Legal(INIT, run) && e in After(INIT, run).trace && f in After(INIT, run).trace
    requires e.ClaimRefused? && NeedsGrant(f)
    ensures e.h != f.h
  {
    var t := After(INIT, run).trace;
    TraceAlways(run);
    var i :| 0 <= i < |t| && t[i] == f;
    assert ClaimGranted(f.h, f.job) in t[..i];
  }

  // Runs against grants

  function GrantOf(id: nat): Event -> nat {
    (e: Event) => if e.ClaimGranted? && e.job == id then 1 else 0
  }

  function StartOf(id: nat): Event -> nat {
    (e: Event) => if e.Started? && e.job == id then 1 else 0
  }

  /** A grant that has not been turned into a run yet. */
  function Pending(id: nat): Handler -> nat {
    (x: Handler) => if (x.phase.Claimed? || x.phase.Queued?) && x.job == id then 1 else 0
  }

  /** A step adds a pending grant only by being granted, and starts only what
      was pending. */
  lemma PendingChange(s: State, a: Step, id: nat)
    requires Enabled(s, a) && !a.Arrive? && !a.Cancel?
    ensures Pending(id)(Moved(s, a)) + Sum(EventsOf(s, a), StartOf(id))
            <= Pending(id)(s.handlers[a.h]) + Sum(EventsOf(s, a), GrantOf(id))
  {
    var events := EventsOf(s, a);
    if events != [] {
      assert events[..0] == [] && |events| == 1;
      assert Sum(events, StartOf(id)) == StartOf(id)(events[0]);
      assert Sum(events, GrantOf(id)) == GrantOf(id)(events[0]);
    }
  }

  lemma PendingStep(s: State, a: Step, id: nat)
    requires Enabled(s, a)
    requires Sum(s.trace, StartOf(id)) + Sum(s.handlers, Pending(id)) <= Sum(s.trace, GrantOf(id))
    ensures var s' := Next(s, a);
            Sum(s'.trace, StartOf(id)) + Sum(s'.handlers, Pending(id)) <= Sum(s'.trace, GrantOf(id))
  {
    SumConcat(s.trace, EventsOf(s, a), StartOf(id));
    SumConcat(s.trace, EventsOf(s, a), GrantOf(id));
    if a.Arrive? {
      SumAppend(s.handlers, Next(s, a).handlers[|s.handlers|], Pending(id));
    } else if !a.Cancel? {
      SumUpdate(s.handlers, a.h, Moved(s, a), Pending(id));
      PendingChange(s, a, id);
    }
  }

  lemma {:induction false} PendingAlways(run: seq<Step>, id: nat)
    requires Legal(INIT, run)
    ensures var s := After(INIT, run);
            Sum(s.trace, StartOf(id)) + Sum(s.handlers, Pending(id)) <= Sum(s.trace, GrantOf(id))
    decreases |run|
  {
    if run != [] {
      PendingAlways(run[..|run| - 1], id);
      PendingStep(After(INIT, run[..|run| - 1]), run[|run| - 1], id);
    }
  }

  /** At every moment a job has been started at most as often as it was granted. */
  lemma RunsNeverOutnumberGrants(run: seq<Step>, id: nat)
    requires Legal(INIT, run)
    ensures Sum(After(INIT, run).trace, StartOf(id)) <= Sum(After(INIT, run).trace, GrantOf(id))
  {
    PendingAlways(run, id);
  }
}
