/** The stream workers of the WebSocket client: their registration, their
    forwarders, and the teardown of their connection. */
module StreamWorkers {
  import opened Connection
  import opened LogStreams

  const MAX_STREAMS := 5
  const LOG_CHANNEL_CAP := 64

  /** A stream worker: following (StreamLogs running), after it returned, with
      its channel closed and the forwarder draining, about to run the deferred
      remove, and gone. */
  datatype Phase = Following | Ended | Draining | Leaving | Gone

  /** `stops` counts the calls of this worker's cancel by stop and stopAll;
      `sent`, `buffered` and `passed` count lines into, in and out of logCh. */
  datatype Worker = Worker(id: string, conn: nat, phase: Phase, stops: nat, closed: bool, sent: nat, buffered: nat,
                           passed: nat)

  /** `swept` says that stopAll has run for the connection being closed. */
  datatype State = State(main: Main, conns: nat, swept: bool, registry: map<string, nat>, workers: seq<Worker>)

  datatype Step =
    | Dial
    | HangUp
    | StopAll
    | Return
    | Start(id: string)
    | Stop(id: string)
    | Emit(w: nat)
    | FollowEnds(w: nat)
    | CloseChannel(w: nat)
    | Forward(w: nat)
    | ForwarderDone(w: nat)
    | Remove(w: nat)

  const INIT := State(Between, 0, false, map[], [])

  predicate Live(x: Worker) {
    x.phase != Gone
  }

  predicate Enabled(s: State, a: Step) {
    match a
    case Dial => s.main == Between
    case HangUp => s.main.Serving?
    case StopAll => s.main.Closing? && !s.swept
    case Return =>
      s.main.Closing? && s.swept &&
      forall w :: 0 <= w < |s.workers| && s.workers[w].conn == s.main.c ==> !Live(s.workers[w])  // pumps.Wait
    case Start(_) => s.main.Serving?
    case Stop(_) => s.main.Serving?
    case _ =>
      a.w < |s.workers| &&
      var x := s.workers[a.w];
      match a
      case Emit(_) => x.phase == Following
      case FollowEnds(_) => x.phase == Following
      case CloseChannel(_) => x.phase == Ended
      case Forward(_) => x.buffered > 0
      case ForwarderDone(_) => x.phase == Draining && x.buffered == 0
      case Remove(_) => x.phase == Leaving
  }

  predicate Accepted(s: State, a: Step) {
    a.Start? && Added(s.registry, a.id, |s.workers|, MAX_STREAMS).0
  }

  function RegistryAfter(s: State, a: Step): map<string, nat>
    requires Enabled(s, a)
  {
    match a
    case StopAll => map[]
    case Start(id) => Added(s.registry, id, |s.workers|, MAX_STREAMS).1
    case Stop(id) => s.registry - {id}
    case Remove(w) => s.registry - {s.workers[w].id}  // whatever entry is there now
    case _ => s.registry
  }

  /** The workers after the cancels registered under `ids` have been called. */
  function StoppedBy(s: State, ids: set<string>): (r: seq<Worker>)
    ensures |r| == |s.workers|
    ensures forall w :: 0 <= w < |r| ==> r[w] == Stopped(s, ids, w)
  {
    seq(|s.workers|, w requires 0 <= w < |s.workers| => Stopped(s, ids, w))
  }

  function Stopped(s: State, ids: set<string>, w: nat): Worker
    requires w < |s.workers|
  {
    var x := s.workers[w];
    if x.id in ids && Registered(s, w) then x.(stops := x.stops + 1) else x
  }

  /** The registry entry under the worker's id is the worker's own. */
  predicate Registered(s: State, w: nat)
    requires w < |s.workers|
  {
    s.workers[w].id in s.registry && s.registry[s.workers[w].id] == w
  }

  function Moved(x: Worker, a: Step): Worker {
    match a
    case Emit(_) =>
      if x.buffered < LOG_CHANNEL_CAP then x.(sent := x.sent + 1, buffered := x.buffered + 1) else x
    case FollowEnds(_) => x.(phase := Ended)
    case CloseChannel(_) => x.(phase := Draining, closed := true)
    case Forward(_) => if x.buffered > 0 then x.(buffered := x.buffered - 1, passed := x.passed + 1) else x
    case ForwarderDone(_) => x.(phase := Leaving)
    case Remove(_) => x.(phase := Gone)
    case _ => x
  }

  function WorkersAfter(s: State, a: Step): seq<Worker>
    requires Enabled(s, a)
  {
    match a
    case Dial => s.workers
    case HangUp => s.workers
    case Return => s.workers
    case StopAll => StoppedBy(s, s.registry.Keys)
    case Stop(id) => StoppedBy(s, {id})
    case Start(id) =>
      if Accepted(s, a) then s.workers + [Worker(id, s.main.c, Following, 0, false, 0, 0, 0)] else s.workers
    case _ => s.workers[a.w := Moved(s.workers[a.w], a)]
  }

  function MainAfter(s: State, a: Step): Main
    requires Enabled(s, a)
  {
    match a
    case Dial => Serving(s.conns)
    case HangUp => Closing(s.main.c)
    case Return => Between
    case _ => s.main
  }

  function Next(s: State, a: Step): State
    requires Enabled(s, a)
  {
    State(MainAfter(s, a), if a.Dial? then s.conns + 1 else s.conns,
          if a.StopAll? then true else if a.Dial? then false else s.swept,
          RegistryAfter(s, a), WorkersAfter(s, a))
  }

  ghost predicate Legal(s: State, run: seq<Step>)
    decreases |run|, 0
  {
    run == [] || (Legal(s, run[..|run| - 1]) && Enabled(After(s, run[..|run| - 1]), run[|run| - 1]))
  }

  ghost function After(s: State, run: seq<Step>): State
    requires Legal(s, run)
    decreases |run|, 1
  {
    if run == [] then s else Next(After(s, run[..|run| - 1]), run[|run| - 1])
  }

  // What always holds

  /** Registry entries name live workers of the current connection, under their
      own id, that nobody has stopped; the limit is kept. */
  ghost predicate RegistrySound(s: State) {
    && |s.registry| <= MAX_STREAMS
    && (forall id :: id in s.registry ==> EntrySound(s, id))
  }

  ghost predicate EntrySound(s: State, id: string)
    requires id in s.registry
  {
    s.registry[id] < |s.workers| &&
    var x := s.workers[s.registry[id]];
    x.id == id && Live(x) && x.stops == 0
  }

  /** Live workers belong to the connection that is being served or closed. */
  ghost predicate ConnSound(s: State) {
    && (s.main != Between ==> s.conns == s.main.c + 1)
    && (forall w :: 0 <= w < |s.workers| && Live(s.workers[w]) ==> s.main != Between && s.workers[w].conn == s.main.c)
    && (s.main == Between || (s.main.Closing? && s.swept) ==> s.registry == map[])
    && (s.main.Serving? ==> !s.swept)
  }

  /** A worker's cancel is called at most once, its channel is closed only after
      following has ended, and no line of the channel is lost or invented. */
  predicate WorkerSound(x: Worker) {
    && x.stops <= 1
    && (x.closed <==> x.phase in {Draining, Leaving, Gone})
    && x.sent == x.buffered + x.passed && x.buffered <= LOG_CHANNEL_CAP
    && (x.phase in {Leaving, Gone} ==> x.buffered == 0)
  }

  ghost predicate WorkersSound(s: State) {
    forall w :: 0 <= w < |s.workers| ==> WorkerSound(s.workers[w])
  }

  lemma RegistryStaysSmall(s: State, a: Step)
    requires |s.registry| <= MAX_STREAMS && Enabled(s, a)
    ensures |RegistryAfter(s, a)| <= MAX_STREAMS
  {
    match a {
      case StopAll => assert RegistryAfter(s, a) == map[];
      case Start(id) => AddedStaysSmall(s.registry, id, |s.workers|);
      case Stop(id) => Shrinks(s.registry, {id});
      case Remove(w) => Shrinks(s.registry, {s.workers[w].id});
      case _ => assert RegistryAfter(s, a) == s.registry;
    }
  }

  lemma AddedStaysSmall(registry: map<string, nat>, id: string, cancel: nat)
    requires |registry| <= MAX_STREAMS
    ensures |Added(registry, id, cancel, MAX_STREAMS).1| <= MAX_STREAMS
  {
    assert registry[id := cancel].Keys == registry.Keys + {id};
  }

  lemma EntryStep(s: State, a: Step, id: string)
    requires RegistrySound(s) && Enabled(s, a) && id in Next(s, a).registry
    ensures EntrySound(Next(s, a), id)
  {
    if id in s.registry {
      assert EntrySound(s, id);
    }
  }

  lemma RegistryStep(s: State, a: Step)
    requires RegistrySound(s) && Enabled(s, a)
    ensures RegistrySound(Next(s, a))
  {
    RegistryStaysSmall(s, a);
    forall id | id in Next(s, a).registry
      ensures EntrySound(Next(s, a), id)
    {
      EntryStep(s, a, id);
    }
  }

  lemma ConnStep(s: State, a: Step)
    requires ConnSound(s) && Enabled(s, a)
    ensures ConnSound(Next(s, a))
  {}

  lemma StoppedStaysSound(s: State, ids: set<string>, w: nat)
    requires RegistrySound(s) && w < |s.workers| && WorkerSound(s.workers[w])
    ensures WorkerSound(Stopped(s, ids, w))
  {
    if Registered(s, w) {
      assert EntrySound(s, s.workers[w].id);
    }
  }

  lemma MovedStaysSound(s: State, a: Step)
    requires Enabled(s, a) && !a.Start? && !a.Stop? && !a.StopAll? && !a.Dial? && !a.HangUp? && !a.Return?
    requires WorkerSound(s.workers[a.w])
    ensures WorkerSound(Moved(s.workers[a.w], a))
  {}

  lemma WorkersStep(s: State, a: Step)
    requires RegistrySound(s) && WorkersSound(s) && Enabled(s, a)
    ensures WorkersSound(Next(s, a))
  {
    var s' := Next(s, a);
    if a.Stop? || a.StopAll? {
      var ids := if a.Stop? then {a.id} else s.registry.Keys;
      forall w | 0 <= w < |s'.workers|
        ensures WorkerSound(s'.workers[w])
      {
        StoppedStaysSound(s, ids, w);
        assert s'.workers[w] == Stopped(s, ids, w);
      }
    } else if !a.Start? && !a.Dial? && !a.HangUp? && !a.Return? {
      MovedStaysSound(s, a);
      assert s'.workers == s.workers[a.w := Moved(s.workers[a.w], a)];
    }
  }

  lemma {:induction false} AlwaysSound(run: seq<Step>)
    requires Legal(INIT, run)
    ensures RegistrySound(After(INIT, run)) && ConnSound(After(INIT, run)) && WorkersSound(After(INIT, run))
    decreases |run|
  {
    if run != [] {
      var s, a := After(INIT, run[..|run| - 1]), run[|run| - 1];
      AlwaysSound(run[..|run| - 1]);
      RegistryStep(s, a);
      ConnStep(s, a);
      WorkersStep(s, a);
    }
  }

  /** In every reachable state at most five streams are registered, each
      registered cancel has not been called yet and none is called twice, and a
      worker that still sends on its channel has not closed it. */
  lemma StreamsWithinLimits(run: seq<Step>, w: nat)
    requires Legal(INIT, run) && w < |After(INIT, run).workers|
    ensures var s := After(INIT, run);
            && |s.registry| <= MAX_STREAMS
            && s.workers[w].stops <= 1
            && (Registered(s, w) ==> s.workers[w].stops == 0)
            && (Enabled(s, Emit(w)) ==> !s.workers[w].closed)
            && s.workers[w].sent == s.workers[w].passed + s.workers[w].buffered
  {
    AlwaysSound(run);
    assert WorkerSound(After(INIT, run).workers[w]);
  }

  /** When connectOnce has returned, no stream is registered, no worker is alive,
      and everything that entered a channel has left it. */
  lemma TeardownLeavesNothing(run: seq<Step>, w: nat)
    requires Legal(INIT, run) && After(INIT, run).main == Between
    ensures After(INIT, run).registry == map[]
    ensures w < |After(INIT, run).workers| ==>
              var x := After(INIT, run).workers[w]; !Live(x) && x.closed && x.sent == x.passed
  {
    AlwaysSound(run);
    if w < |After(INIT, run).workers| {
      assert WorkerSound(After(INIT, run).workers[w]);
    }
  }

  // When the registry is exact

  predicate ExactFor(s: State, w: nat)
    requires w < |s.workers|
  {
    Registered(s, w) <==> Live(s.workers[w]) && s.workers[w].stops == 0
  }

  /** The registry is exactly the live workers nobody has stopped. */
  ghost predicate Exact(s: State) {
    forall w :: 0 <= w < |s.workers| ==> ExactFor(s, w)
  }

  /** No two live workers share a stream id. */
  ghost predicate Solo(s: State) {
    forall v, w :: 0 <= v < w < |s.workers| && Live(s.workers[v]) && Live(s.workers[w]) ==>
      s.workers[v].id != s.workers[w].id
  }

  /** No live worker carries the id: what holds at every start if the control
      plane never reuses a stream id within a connection. */
  ghost predicate Unused(s: State, id: string) {
    forall w :: 0 <= w < |s.workers| && Live(s.workers[w]) ==> s.workers[w].id != id
  }

  lemma SoloStep(s: State, a: Step)
    requires Solo(s) && Enabled(s, a) && (Accepted(s, a) ==> Unused(s, a.id))
    ensures Solo(Next(s, a))
  {}

  lemma ExactAfterStop(s: State, a: Step, w: nat)
    requires RegistrySound(s) && Enabled(s, a) && (a.Stop? || a.StopAll?)
    requires w < |s.workers| && ExactFor(s, w)
    ensures w < |Next(s, a).workers| && ExactFor(Next(s, a), w)
  {
    var ids := if a.Stop? then {a.id} else s.registry.Keys;
    assert Next(s, a).workers[w] == Stopped(s, ids, w);
    if s.workers[w].id in s.registry {
      assert EntrySound(s, s.workers[w].id);
    }
  }

  lemma ExactAfterRemove(s: State, v: nat, w: nat)
    requires RegistrySound(s) && Solo(s) && Enabled(s, Remove(v))
    requires w < |s.workers| && ExactFor(s, w)
    ensures w < |Next(s, Remove(v)).workers| && ExactFor(Next(s, Remove(v)), w)
  {
    if v != w {
      assert Live(s.workers[v]);
    }
  }

  lemma ExactAfterStart(s: State, id: string, w: nat)
    requires Enabled(s, Start(id)) && (Accepted(s, Start(id)) ==> Unused(s, id))
    requires w < |s.workers| && ExactFor(s, w)
    ensures w < |Next(s, Start(id)).workers| && ExactFor(Next(s, Start(id)), w)
  {
    if Accepted(s, Start(id)) && s.workers[w].id == id {
      assert !Live(s.workers[w]);
    }
  }

  /** No other step touches the registry, or what exactness reads of a worker. */
  lemma ExactOtherwise(s: State, a: Step, w: nat)
    requires Enabled(s, a) && !a.StopAll? && !a.Stop? && !a.Remove? && !a.Start?
    requires w < |s.workers| && ExactFor(s, w)
    ensures w < |Next(s, a).workers| && ExactFor(Next(s, a), w)
  {
    var x, x' := s.workers[w], Next(s, a).workers[w];
    assert Next(s, a).registry == s.registry;
    assert x'.id == x.id && x'.stops == x.stops && Live(x') == Live(x);
  }

  lemma ExactOld(s: State, a: Step, w: nat)
    requires RegistrySound(s) && Solo(s) && Enabled(s, a) && (Accepted(s, a) ==> Unused(s, a.id))
    requires w < |s.workers| && ExactFor(s, w)
    ensures w < |Next(s, a).workers| && ExactFor(Next(s, a), w)
  {
    match a {
      case StopAll => ExactAfterStop(s, a, w);
      case Stop(_) => ExactAfterStop(s, a, w);
      case Remove(v) => ExactAfterRemove(s, v, w);
      case Start(id) => ExactAfterStart(s, id, w);
      case _ => ExactOtherwise(s, a, w);
    }
  }

  lemma ExactStep(s: State, a: Step)
    requires RegistrySound(s) && Exact(s) && Solo(s) && Enabled(s, a) && (Accepted(s, a) ==> Unused(s, a.id))
    ensures Exact(Next(s, a))
  {
    forall w | 0 <= w < |Next(s, a).workers|
      ensures ExactFor(Next(s, a), w)
    {
      if w < |s.workers| {
        ExactOld(s, a, w);
      }
    }
  }

  /** Every accepted start of the run uses an id no live worker carries. */
  ghost predicate CleanStarts(s: State, run: seq<Step>)
    ensures CleanStarts(s, run) ==> Legal(s, run)
    decreases |run|
  {
    run == [] ||
    (CleanStarts(s, run[..|run| - 1])
     && Enabled(After(s, run[..|run| - 1]), run[|run| - 1])
     && (Accepted(After(s, run[..|run| - 1]), run[|run| - 1]) ==>
           Unused(After(s, run[..|run| - 1]), run[|run| - 1].id)))
  }

  /** With stream ids not reused while their worker lives, the registry is
      exactly the live, unstopped workers in every reachable state. */
  lemma {:induction false} RegistryExact(run: seq<Step>)
    requires CleanStarts(INIT, run)
    ensures Exact(After(INIT, run)) && Solo(After(INIT, run))
    decreases |run|
  {
    if run != [] {
      var s, a := After(INIT, run[..|run| - 1]), run[|run| - 1];
      RegistryExact(run[..|run| - 1]);
      AlwaysSound(run[..|run| - 1]);
      ExactStep(s, a);
      SoloStep(s, a);
    }
  }

  // A reused id

  ghost predicate NoStarts(run: seq<Step>) {
    forall a :: a in run ==> !a.Start?
  }

  lemma {:induction false} ExactWithoutStarts(s: State, run: seq<Step>)
    requires RegistrySound(s) && Exact(s) && Solo(s) && Legal(s, run) && NoStarts(run)
    ensures RegistrySound(After(s, run)) && Exact(After(s, run)) && Solo(After(s, run))
    decreases |run|
  {
    if run != [] {
      var t, a := After(s, run[..|run| - 1]), run[|run| - 1];
      ExactWithoutStarts(s, run[..|run| - 1]);
      RegistryStep(t, a);
      ExactStep(t, a);
      SoloStep(t, a);
    }
  }

  lemma {:induction false} Prepend(s: State, a: Step, run: seq<Step>)
    requires Enabled(s, a) && Legal(Next(s, a), run)
    ensures Legal(s, [a] + run) && After(s, [a] + run) == After(Next(s, a), run)
    decreases |run|
  {
    if run == [] {
      assert ([a] + run)[..0] == [] && [a] + run == [a];
      assert Legal(s, []);
    } else {
      Prepend(s, a, run[..|run| - 1]);
      assert ([a] + run)[..|run|] == [a] + run[..|run| - 1];
    }
  }

  function Rank(x: Worker): nat {
    x.buffered + (match x.phase case Following => 4 case Ended => 3 case Draining => 2 case Leaving => 1 case Gone => 0)
  }

  /** A live worker can always finish on its own; its deferred remove then
      deletes whatever is registered under its id. */
  lemma {:induction false} WorkerCanFinish(s: State, w: nat) returns (run: seq<Step>)
    requires w < |s.workers| && Live(s.workers[w])
    ensures Legal(s, run) && NoStarts(run)
    ensures After(s, run).registry == s.registry - {s.workers[w].id}
    ensures |After(s, run).workers| == |s.workers|
    ensures forall v :: 0 <= v < |s.workers| && v != w ==> After(s, run).workers[v] == s.workers[v]
    decreases Rank(s.workers[w])
  {
    var x := s.workers[w];
    var a := if x.buffered > 0 then Forward(w)
             else match x.phase
                  case Following => FollowEnds(w)
                  case Ended => CloseChannel(w)
                  case Draining => ForwarderDone(w)
                  case _ => Remove(w);
    var rest := [];
    if a != Remove(w) {
      rest := WorkerCanFinish(Next(s, a), w);
    }
    Prepend(s, a, rest);
    run := [a] + rest;
  }

  lemma UnusedIsSafe(s: State, id: string, run: seq<Step>)
    requires RegistrySound(s) && Exact(s) && Solo(s) && Enabled(s, Start(id)) && Unused(s, id)
    requires Legal(Next(s, Start(id)), run) && NoStarts(run)
    ensures Exact(After(Next(s, Start(id)), run))
  {
    RegistryStep(s, Start(id));
    ExactStep(s, Start(id));
    SoloStep(s, Start(id));
    ExactWithoutStarts(Next(s, Start(id)), run);
  }

  lemma UsedBreaks(s: State, id: string) returns (run: seq<Step>)
    requires Enabled(s, Start(id)) && Accepted(s, Start(id)) && !Unused(s, id)
    ensures Legal(Next(s, Start(id)), run) && NoStarts(run)
    ensures !Exact(After(Next(s, Start(id)), run))
  {
    var s', n := Next(s, Start(id)), |s.workers|;
    var v :| 0 <= v < n && Live(s.workers[v]) && s.workers[v].id == id;
    assert s'.workers[v] == s.workers[v] && s'.workers[n].id == id;
    run := WorkerCanFinish(s', v);
    var t := After(s', run);
    assert t.workers[n] == s'.workers[n] && id !in t.registry;
    assert !ExactFor(t, n);
  }

  /** An accepted start keeps the registry exact, whatever happens afterwards
      without further starts, if and only if no live worker still carries the
      requested id. A stopped worker that is still draining breaks it. */
  lemma StartIsSafeIff(s: State, id: string)
    requires RegistrySound(s) && Exact(s) && Solo(s) && Enabled(s, Start(id)) && Accepted(s, Start(id))
    ensures (forall run :: Legal(Next(s, Start(id)), run) && NoStarts(run) ==> Exact(After(Next(s, Start(id)), run)))
            <==> Unused(s, id)
  {
    if Unused(s, id) {
      forall run | Legal(Next(s, Start(id)), run) && NoStarts(run)
        ensures Exact(After(Next(s, Start(id)), run))
      {
        UnusedIsSafe(s, id, run);
      }
    } else {
      var run := UsedBreaks(s, id);
    }
  }
}
