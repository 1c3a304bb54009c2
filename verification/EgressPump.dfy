/** The egress side of the WebSocket client over its whole life: two priority
    queues that outlive connections, and one pump goroutine per connection. */
module EgressPump {
  import opened Connection
  import opened Sums

  const EGRESS_CAP := 32
  const EGRESS_LOW_CAP := 128

  /** Where the pump goroutine of a connection stands; a pump that has returned
      is no longer in the table. */
  datatype Pump =
    | Selecting                   // at the outer select
    | SendHigh(high: nat)
    | GotLow(low: nat)            // low message in hand, about to look for high ones
    | DrainHigh(low: nat, high: nat)
    | SendLow(low: nat)           // no high message was waiting

  /** A message that left a queue: written, or lost with the pump that held it. */
  datatype Retired = Retired(msg: nat, conn: nat, written: bool)

  datatype Event = QueuedHigh(m: nat) | WroteHigh(m: nat) | WroteLow(m: nat)

  /** Messages are numbered per class in the order the queues accepted them.
      `stamps[m]` is auxiliary: the number of low writes when high message m was
      accepted. */
  datatype State = State(
    high: seq<nat>, low: seq<nat>, highIn: nat, lowIn: nat,
    main: Main, conns: nat, rootDone: bool, pumps: map<nat, Pump>,
    highOut: seq<Retired>, lowOut: seq<Retired>,
    stamps: seq<nat>, trace: seq<Event>)

  datatype Step =
    | OfferHigh
    | OfferLow
    | Dial
    | RootDone
    | HangUp
    | Return
    | Stop(c: nat)
    | PickHigh(c: nat)
    | PickLow(c: nat)
    | WriteHigh(c: nat, ok: bool)
    | Look(c: nat)
    | WriteDrained(c: nat, ok: bool)
    | WriteLow(c: nat, ok: bool)

  const INIT := State([], [], 0, 0, Between, 0, false, map[], [], [], [], [])

  predicate Enabled(s: State, a: Step) {
    match a
    case OfferHigh => true
    case OfferLow => true
    case Dial => s.main == Between
    case RootDone => !s.rootDone
    case HangUp => s.main.Serving?
    case Return => s.main.Closing? && s.main.c !in s.pumps  // pumps.Wait
    case Stop(c) => c in s.pumps && s.pumps[c] == Selecting && (s.rootDone || s.main == Closing(c))
    case PickHigh(c) => c in s.pumps && s.pumps[c] == Selecting && s.high != []
    case PickLow(c) => c in s.pumps && s.pumps[c] == Selecting && s.low != []
    case WriteHigh(c, _) => c in s.pumps && s.pumps[c].SendHigh?
    case Look(c) => c in s.pumps && s.pumps[c].GotLow?
    case WriteDrained(c, _) => c in s.pumps && s.pumps[c].DrainHigh?
    case WriteLow(c, _) => c in s.pumps && s.pumps[c].SendLow?
  }

  function Lows(trace: seq<Event>): nat {
    Sum(trace, IsLow)
  }

  function IsLow(e: Event): nat {
    if e.WroteLow? then 1 else 0
  }

  function PumpsAfter(s: State, a: Step): map<nat, Pump>
    requires Enabled(s, a)
  {
    match a
    case Dial => s.pumps[s.conns := Selecting]
    case Stop(c) => s.pumps - {c}
    case PickHigh(c) => s.pumps[c := SendHigh(s.high[0])]
    case PickLow(c) => s.pumps[c := GotLow(s.low[0])]
    case WriteHigh(c, ok) => if ok then s.pumps[c := Selecting] else s.pumps - {c}
    case Look(c) =>
      s.pumps[c := if s.high == [] then SendLow(s.pumps[c].low) else DrainHigh(s.pumps[c].low, s.high[0])]
    case WriteDrained(c, ok) => if ok then s.pumps[c := GotLow(s.pumps[c].low)] else s.pumps - {c}
    case WriteLow(c, ok) => if ok then s.pumps[c := Selecting] else s.pumps - {c}
    case _ => s.pumps
  }

  /** Does the step let the high queue accept a message? */
  predicate Accepts(s: State, a: Step) {
    a.OfferHigh? && |s.high| < EGRESS_CAP
  }

  function HighAfter(s: State, a: Step): seq<nat>
    requires Enabled(s, a)
  {
    if Accepts(s, a) then s.high + [s.highIn]
    else if a.PickHigh? || (a.Look? && s.high != []) then s.high[1..]
    else s.high
  }

  function LowAfter(s: State, a: Step): seq<nat>
    requires Enabled(s, a)
  {
    if a.OfferLow? && |s.low| < EGRESS_LOW_CAP then s.low + [s.lowIn]
    else if a.PickLow? then s.low[1..]
    else s.low
  }

  function HighOutAfter(s: State, a: Step): seq<Retired>
    requires Enabled(s, a)
  {
    match a
    case WriteHigh(c, ok) => s.highOut + [Retired(s.pumps[c].high, c, ok)]
    case WriteDrained(c, ok) => s.highOut + [Retired(s.pumps[c].high, c, ok)]
    case _ => s.highOut
  }

  function LowOutAfter(s: State, a: Step): seq<Retired>
    requires Enabled(s, a)
  {
    match a
    case WriteLow(c, ok) => s.lowOut + [Retired(s.pumps[c].low, c, ok)]
    case WriteDrained(c, ok) => if ok then s.lowOut else s.lowOut + [Retired(s.pumps[c].low, c, false)]
    case _ => s.lowOut
  }

  function MainAfter(s: State, a: Step): Main
    requires Enabled(s, a)
  {
    match a
    case Dial => Serving(s.conns)
    case HangUp => Closing(s.main.c)
    case Return => Between
    case _ => s.main
  }

  function EventsOf(s: State, a: Step): seq<Event>
    requires Enabled(s, a)
  {
    match a
    case OfferHigh => if Accepts(s, a) then [QueuedHigh(s.highIn)] else []
    case WriteHigh(c, ok) => if ok then [Event.WroteHigh(s.pumps[c].high)] else []
    case WriteDrained(c, ok) => if ok then [Event.WroteHigh(s.pumps[c].high)] else []
    case WriteLow(c, ok) => if ok then [WroteLow(s.pumps[c].low)] else []
    case _ => []
  }

  function Next(s: State, a: Step): State
    requires Enabled(s, a)
  {
    State(
      HighAfter(s, a), LowAfter(s, a),
      if Accepts(s, a) then s.highIn + 1 else s.highIn,
      if a.OfferLow? && |s.low| < EGRESS_LOW_CAP then s.lowIn + 1 else s.lowIn,
      MainAfter(s, a), if a.Dial? then s.conns + 1 else s.conns, s.rootDone || a.RootDone?, PumpsAfter(s, a),
      HighOutAfter(s, a), LowOutAfter(s, a),
      if Accepts(s, a) then s.stamps + [Lows(s.trace)] else s.stamps, s.trace + EventsOf(s, a))
  }

  ghost predicate Legal(s: State, run: seq<Step>)
    decreases |run|, 0
  {
    run == [] || (Legal(s, run[..|run| - 1]) && Enabled(After(s, run[..|run| - 1]), run[|run| - 1]))
  }

  ghost function After(s: State, run: seq<Step>): State
    requires Legal(s, run)
    decreases |run|, 1
  {
    if run == [] then s else Next(After(s, run[..|run| - 1]), run[|run| - 1])
  }

  // One pump at a time

  /** The only connection whose pump can be alive is the latest one, and only
      until connectOnce returns. */
  ghost predicate OnePump(s: State) {
    && (s.main == Between ==> s.pumps == map[])
    && (s.main != Between ==> s.conns == s.main.c + 1 && s.pumps.Keys <= {s.main.c})
  }

  lemma OnePumpStep(s: State, a: Step)
    requires OnePump(s) && Enabled(s, a)
    ensures OnePump(Next(s, a))
  {}

  // Conservation and order

  /** The message classes the live pump holds outside the queues. */
  function HeldHigh(s: State): seq<nat> {
    if s.main == Between || s.main.c !in s.pumps then []
    else
      match s.pumps[s.main.c]
      case SendHigh(h) => [h]
      case DrainHigh(_, h) => [h]
      case _ => []
  }

  function HeldLow(s: State): seq<nat> {
    if s.main == Between || s.main.c !in s.pumps then []
    else
      match s.pumps[s.main.c]
      case GotLow(m) => [m]
      case DrainHigh(m, _) => [m]
      case SendLow(m) => [m]
      case _ => []
  }

  function Messages(out: seq<Retired>): (r: seq<nat>)
    ensures |r| == |out| && forall i :: 0 <= i < |r| ==> r[i] == out[i].msg
  {
    seq(|out|, i requires 0 <= i < |out| => out[i].msg)
  }

  ghost predicate InOrder(messages: seq<nat>, n: nat) {
    |messages| == n && forall i :: 0 <= i < n ==> messages[i] == i
  }

  /** Every accepted message is, in acceptance order, retired, held by the pump,
      or still queued. */
  ghost predicate Fifo(s: State) {
    && InOrder(Messages(s.highOut) + HeldHigh(s) + s.high, s.highIn)
    && InOrder(Messages(s.lowOut) + HeldLow(s) + s.low, s.lowIn)
    && |s.high| <= EGRESS_CAP && |s.low| <= EGRESS_LOW_CAP
  }

  lemma FifoHighStep(s: State, a: Step)
    requires OnePump(s) && Fifo(s) && Enabled(s, a)
    ensures InOrder(Messages(Next(s, a).highOut) + HeldHigh(Next(s, a)) + Next(s, a).high, Next(s, a).highIn)
  {
    var s' := Next(s, a);
    if Accepts(s, a) {
      assert Messages(s'.highOut) + HeldHigh(s') + s'.high == Messages(s.highOut) + HeldHigh(s) + s.high + [s.highIn];
    } else {
      assert Messages(s'.highOut) + HeldHigh(s') + s'.high == Messages(s.highOut) + HeldHigh(s) + s.high;
    }
  }

  lemma FifoLowStep(s: State, a: Step)
    requires OnePump(s) && Fifo(s) && Enabled(s, a)
    ensures InOrder(Messages(Next(s, a).lowOut) + HeldLow(Next(s, a)) + Next(s, a).low, Next(s, a).lowIn)
  {
    var s' := Next(s, a);
    if a.OfferLow? && |s.low| < EGRESS_LOW_CAP {
      assert Messages(s'.lowOut) + HeldLow(s') + s'.low == Messages(s.lowOut) + HeldLow(s) + s.low + [s.lowIn];
    } else {
      assert Messages(s'.lowOut) + HeldLow(s') + s'.low == Messages(s.lowOut) + HeldLow(s) + s.low;
    }
  }

  // Losses

  /** A loss ends its pump, so a connection loses at most one message per class. */
  ghost predicate LossesBounded(out: seq<Retired>, s: State) {
    && (forall i :: 0 <= i < |out| ==> out[i].conn < s.conns)
    && (forall i :: 0 <= i < |out| && !out[i].written ==> out[i].conn !in s.pumps)
    && (forall i, j :: 0 <= i < j < |out| && !out[i].written && !out[j].written ==> out[i].conn != out[j].conn)
  }

  lemma LossStep(s: State, a: Step)
    requires OnePump(s) && Enabled(s, a) && LossesBounded(s.highOut, s) && LossesBounded(s.lowOut, s)
    ensures LossesBounded(Next(s, a).highOut, Next(s, a))
    ensures LossesBounded(Next(s, a).lowOut, Next(s, a))
  {}

  // Priority

  /** High messages that were accepted and not yet written or lost. */
  ghost predicate Waiting(s: State, m: nat) {
    m in HeldHigh(s) || m in s.high
  }

  predicate SendingLow(s: State) {
    s.main != Between && s.main.c in s.pumps && s.pumps[s.main.c].SendLow?
  }

  /** A waiting high message has seen at most one low write since it was
      accepted, and none if a low write is just under way. */
  ghost predicate PromptFor(s: State, m: nat) {
    && m < |s.stamps|
    && Lows(s.trace) <= s.stamps[m] + 1
    && (SendingLow(s) ==> Lows(s.trace) == s.stamps[m])
  }

  ghost predicate StampsSound(s: State) {
    |s.stamps| == s.highIn && forall m: nat :: m < s.highIn ==> s.stamps[m] <= Lows(s.trace)
  }

  ghost predicate Prompt(s: State) {
    StampsSound(s) && forall m: nat :: Waiting(s, m) ==> PromptFor(s, m)
  }

  lemma LowsStep(s: State, a: Step)
    requires Enabled(s, a)
    ensures Lows(Next(s, a).trace) == Lows(s.trace) + (if a.WriteLow? && a.ok then 1 else 0)
  {
    SumConcat(s.trace, EventsOf(s, a), IsLow);
    if EventsOf(s, a) != [] {
      assert EventsOf(s, a)[..0] == [];
    }
  }

  /** A message starts to wait only by being accepted. */
  lemma WaitingStep(s: State, a: Step, m: nat)
    requires OnePump(s) && Enabled(s, a) && Waiting(Next(s, a), m)
    ensures Waiting(s, m) || (Accepts(s, a) && m == s.highIn)
  {}

  /** A low write gets under way only when no high message is waiting. */
  lemma SendingStep(s: State, a: Step, m: nat)
    requires OnePump(s) && Enabled(s, a) && SendingLow(Next(s, a))
    ensures SendingLow(s) || !Waiting(Next(s, a), m)
    ensures SendingLow(s) ==> !a.WriteLow?
  {}

  lemma PromptForStep(s: State, a: Step, m: nat)
    requires OnePump(s) && Prompt(s) && Enabled(s, a) && Waiting(Next(s, a), m)
    ensures PromptFor(Next(s, a), m)
  {
    LowsStep(s, a);
    WaitingStep(s, a, m);
    assert a.WriteLow? ==> SendingLow(s);
    if SendingLow(Next(s, a)) {
      SendingStep(s, a, m);
    }
  }

  /** Stamps are only added, each with the current number of low writes. */
  lemma StampsGrow(s: State, a: Step)
    requires Enabled(s, a) && |s.stamps| == s.highIn
    ensures |Next(s, a).stamps| == Next(s, a).highIn
    ensures forall m :: 0 <= m < |Next(s, a).stamps| ==>
              Next(s, a).stamps[m] == if m < |s.stamps| then s.stamps[m] else Lows(s.trace)
  {}

  lemma StampsStep(s: State, a: Step)
    requires StampsSound(s) && Enabled(s, a)
    ensures StampsSound(Next(s, a))
  {
    var s' := Next(s, a);
    LowsStep(s, a);
    StampsGrow(s, a);
    forall m: nat | m < s'.highIn
      ensures s'.stamps[m] <= Lows(s'.trace)
    {
      assert m < |s.stamps| ==> s.stamps[m] <= Lows(s.trace);
    }
  }

  lemma PromptStep(s: State, a: Step)
    requires OnePump(s) && Prompt(s) && Enabled(s, a)
    ensures Prompt(Next(s, a))
  {
    StampsStep(s, a);
    forall m: nat | Waiting(Next(s, a), m)
      ensures PromptFor(Next(s, a), m)
    {
      PromptForStep(s, a, m);
    }
  }

  /** The trace tells the stamps: acceptance at position i is stamped with the
      low writes before i, and a high write at position k comes at most one low
      write after its stamp. */
  ghost predicate Stamped(s: State) {
    && (forall i, m: nat :: 0 <= i < |s.trace| && s.trace[i] == QueuedHigh(m) ==>
          m < |s.stamps| && s.stamps[m] == Lows(s.trace[..i]))
    && (forall k, m: nat :: 0 <= k < |s.trace| && s.trace[k] == Event.WroteHigh(m) ==>
          m < |s.stamps| && Lows(s.trace[..k]) <= s.stamps[m] + 1)
  }

  lemma StampedStep(s: State, a: Step)
    requires OnePump(s) && Prompt(s) && Stamped(s) && Enabled(s, a)
    ensures Stamped(Next(s, a))
  {
    var s' := Next(s, a);
    var n := |s.trace|;
    assert forall i :: 0 <= i <= n ==> s'.trace[..i] == s.trace[..i];
    assert s'.trace[..n] == s.trace && s.trace[..n] == s.trace;
    if EventsOf(s, a) != [] && EventsOf(s, a)[0].WroteHigh? {
      assert Waiting(s, EventsOf(s, a)[0].m) && PromptFor(s, EventsOf(s, a)[0].m);
    }
  }

  // Every run

  lemma {:induction false} AlwaysOrderly(run: seq<Step>)
    requires Legal(INIT, run)
    ensures var s := After(INIT, run);
            OnePump(s) && Fifo(s) && LossesBounded(s.highOut, s) && LossesBounded(s.lowOut, s)
    decreases |run|
  {
    if run != [] {
      var s, a := After(INIT, run[..|run| - 1]), run[|run| - 1];
      AlwaysOrderly(run[..|run| - 1]);
      OnePumpStep(s, a);
      FifoHighStep(s, a);
      FifoLowStep(s, a);
      LossStep(s, a);
    }
  }

  lemma {:induction false} AlwaysPrompt(run: seq<Step>)
    requires Legal(INIT, run)
    ensures Prompt(After(INIT, run)) && Stamped(After(INIT, run))
    decreases |run|
  {
    if run != [] {
      var s, a := After(INIT, run[..|run| - 1]), run[|run| - 1];
      AlwaysOrderly(run[..|run| - 1]);
      AlwaysPrompt(run[..|run| - 1]);
      PromptStep(s, a);
      StampedStep(s, a);
    }
  }

  /** Between the moment a high-priority message is queued and the moment it is
      written, at most one low-priority message is written, over any run,
      reconnects included. */
  lemma HighWaitsForOneLowAtMost(run: seq<Step>, i: nat, k: nat, m: nat)
    requires Legal(INIT, run) && i < k < |After(INIT, run).trace|
    requires After(INIT, run).trace[i] == QueuedHigh(m) && After(INIT, run).trace[k] == Event.WroteHigh(m)
    ensures Lows(After(INIT, run).trace[i..k]) <= 1
  {
    AlwaysPrompt(run);
    StampsBound(After(INIT, run), i, k, m);
  }

  lemma StampsBound(s: State, i: nat, k: nat, m: nat)
    requires Stamped(s) && i < k < |s.trace|
    requires s.trace[i] == QueuedHigh(m) && s.trace[k] == Event.WroteHigh(m)
    ensures Lows(s.trace[i..k]) <= 1
  {
    LowsBetween(s.trace, i, k);
  }

  lemma LowsBetween(trace: seq<Event>, i: nat, k: nat)
    requires i <= k <= |trace|
    ensures Lows(trace[..k]) == Lows(trace[..i]) + Lows(trace[i..k])
  {
    assert trace[..k] == trace[..i] + trace[i..k];
    SumConcat(trace[..i], trace[i..k], IsLow);
  }

  /** No pump survives connectOnce, and no two are ever alive together. */
  lemma NoPumpOutlivesItsConnection(run: seq<Step>)
    requires Legal(INIT, run)
    ensures var s := After(INIT, run);
            |s.pumps| <= 1 && (s.main == Between ==> s.pumps == map[])
            && (s.main.Serving? || s.main.Closing? ==> forall c :: c in s.pumps ==> c == s.main.c)
  {
    AlwaysOrderly(run);
    var s := After(INIT, run);
    if s.main != Between && s.main.c in s.pumps {
      assert s.pumps.Keys == {s.main.c};
    } else {
      assert s.pumps.Keys == {};
    }
  }

  /** What left a queue was written or lost, in the order it was accepted, save
      for at most one message of the class in the pump's hands. */
  lemma DequeuedIsWrittenOrLost(run: seq<Step>)
    requires Legal(INIT, run)
    ensures var s := After(INIT, run);
            && |s.highOut| + |HeldHigh(s)| + |s.high| == s.highIn && |HeldHigh(s)| <= 1
            && |s.lowOut| + |HeldLow(s)| + |s.low| == s.lowIn && |HeldLow(s)| <= 1
            && (forall i :: 0 <= i < |s.highOut| ==> s.highOut[i].msg == i)
            && (forall i :: 0 <= i < |s.lowOut| ==> s.lowOut[i].msg == i)
  {
    AlwaysOrderly(run);
    var s := After(INIT, run);
    forall i | 0 <= i < |s.highOut|
      ensures s.highOut[i].msg == i
    {
      assert (Messages(s.highOut) + HeldHigh(s) + s.high)[i] == Messages(s.highOut)[i];
    }
    forall i | 0 <= i < |s.lowOut|
      ensures s.lowOut[i].msg == i
    {
      assert (Messages(s.lowOut) + HeldLow(s) + s.low)[i] == Messages(s.lowOut)[i];
    }
  }

  /** One connection loses at most one message of each class. */
  lemma OneLossPerConnection(run: seq<Step>, i: nat, j: nat)
    requires Legal(INIT, run) && i < j
    ensures var out := After(INIT, run).highOut;
            j < |out| && !out[i].written && !out[j].written ==> out[i].conn != out[j].conn
    ensures var out := After(INIT, run).lowOut;
            j < |out| && !out[i].written && !out[j].written ==> out[i].conn != out[j].conn
  {
    AlwaysOrderly(run);
  }

  // The one low write does happen

  /** Extends a run that leads to `now` by one step. */
  lemma AndThen(run: seq<Step>, now: State, a: Step) returns (longer: seq<Step>, next: State)
    requires Legal(INIT, run) && After(INIT, run) == now && Enabled(now, a)
    ensures Legal(INIT, longer) && After(INIT, longer) == next == Next(now, a)
  {
    longer, next := run + [a], Next(now, a);
    assert longer[..|run|] == run;
  }

  /** A connection whose pump is idle, with a low message queued. */
  lemma LowQueued() returns (run: seq<Step>, s: State)
    ensures Legal(INIT, run) && After(INIT, run) == s
    ensures s == State([], [0], 0, 1, Serving(0), 1, false, map[0 := Selecting], [], [], [], [])
  {
    run, s := AndThen([], INIT, OfferLow);
    run, s := AndThen(run, s, Dial);
  }

  lemma LowPicked() returns (run: seq<Step>, s: State)
    ensures Legal(INIT, run) && After(INIT, run) == s
    ensures s == State([], [], 0, 1, Serving(0), 1, false, map[0 := GotLow(0)], [], [], [], [])
  {
    run, s := LowQueued();
    run, s := AndThen(run, s, PickLow(0));
  }

  /** The pump has the low message in hand and has just found no high one waiting. */
  lemma LowUnderWay() returns (run: seq<Step>, s: State)
    ensures Legal(INIT, run) && After(INIT, run) == s
    ensures s == State([], [], 0, 1, Serving(0), 1, false, map[0 := SendLow(0)], [], [], [], [])
  {
    run, s := LowPicked();
    run, s := AndThen(run, s, Look(0));
  }

  /** A high message is queued right then. */
  lemma HighQueued() returns (run: seq<Step>, s: State)
    ensures Legal(INIT, run) && After(INIT, run) == s
    ensures s.high == [0] && s.pumps == map[0 := SendLow(0)] && s.trace == [QueuedHigh(0)]
  {
    run, s := LowUnderWay();
    run, s := AndThen(run, s, OfferHigh);
  }

  lemma LowWritten() returns (run: seq<Step>, s: State)
    ensures Legal(INIT, run) && After(INIT, run) == s
    ensures s.high == [0] && s.pumps == map[0 := Selecting] && s.trace == [QueuedHigh(0), WroteLow(0)]
  {
    run, s := HighQueued();
    run, s := AndThen(run, s, WriteLow(0, true));
  }

  lemma HighPicked() returns (run: seq<Step>, s: State)
    ensures Legal(INIT, run) && After(INIT, run) == s
    ensures s.pumps == map[0 := SendHigh(0)] && s.trace == [QueuedHigh(0), WroteLow(0)]
  {
    run, s := LowWritten();
    run, s := AndThen(run, s, PickHigh(0));
  }

  /** And then the high one is written. */
  lemma HighWritten() returns (run: seq<Step>)
    ensures Legal(INIT, run)
    ensures After(INIT, run).trace == [QueuedHigh(0), WroteLow(0), Event.WroteHigh(0)]
  {
    var s;
    run, s := HighPicked();
    run, s := AndThen(run, s, WriteHigh(0, true));
  }

  lemma OneLowAmong()
    ensures Lows([QueuedHigh(0), WroteLow(0)]) == 1
  {
    assert [QueuedHigh(0), WroteLow(0)][..1] == [QueuedHigh(0)];
    assert [QueuedHigh(0)][..0] == [];
    assert Sum([QueuedHigh(0)], IsLow) == 0;
  }

  /** The bound is attained: here one low message is written between the queueing and
      the writing of a high one. */
  lemma OneLowWriteHappens() returns (run: seq<Step>)
    ensures Legal(INIT, run)
    ensures After(INIT, run).trace == [QueuedHigh(0), WroteLow(0), Event.WroteHigh(0)]
    ensures Lows(After(INIT, run).trace[0..2]) == 1
  {
    run := HighWritten();
    assert After(INIT, run).trace[0..2] == [QueuedHigh(0), WroteLow(0)];
    OneLowAmong();
  }
}
