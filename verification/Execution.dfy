/** One job execution in isolation: the exit paths of the action switch, the
    deferred cleanup, and what each path reports to the control plane. */
module Execution {

  datatype Status = Success | Failed

  /** What a restart attempt leads to: systemd queued it, the process image was
      replaced (nothing runs afterwards), or it could not be attempted. */
  datatype Restart = RestartQueued | ImageReplaced | RestartFailed

  /** The answers one self-update run receives. `underSystemd` is evaluated
      three times (before the early report, inside RestartAgent, and before the
      late report), so each evaluation has its own answer here. */
  datatype Host = Host(early: bool, middle: bool, late: bool, attemptFails: bool) {
    function Attempt(): Restart {
      if attemptFails then RestartFailed
      else if middle then RestartQueued
      else ImageReplaced
    }

    predicate Constant() {
      early == middle == late
    }
  }

  /** How the body of Execute comes to an end once it holds a slot. */
  datatype Exit =
    | InvalidParams             // validateActionParams rejects the job
    | FallsThrough(err: bool)   // an ordinary action; execErr set or nil
    | ReportsItself             // read_env, read_nginx_config, diagnostics
    | Panics                    // a panic raised by the action itself
    | Restarts(host: Host)      // self_update after a successful binary swap
  {
    predicate ReplacesProcess() {
      Restarts? && host.Attempt() == ImageReplaced
    }
  }

  /** The CompleteJob statuses an exit path produces when the client itself
      never panics, in order. */
  function Reports(exit: Exit): seq<Status> {
    match exit
    case InvalidParams => [Failed]
    case FallsThrough(err) => [if err then Failed else Success]
    case ReportsItself => [Success]
    case Panics => [Failed]
    case Restarts(host) =>
      FinishReports(host) + (if host.attemptFails then [Failed] else [])
  }

  /** The reports finishSelfUpdate makes itself: early outside systemd, because
      a re-exec does not return; late under systemd, once the restart is queued. */
  function FinishReports(host: Host): seq<Status> {
    (if host.early then [] else [Success]) +
    (if host.Attempt() == RestartQueued && host.late then [Success] else [])
  }

  lemma ReportsAreFew(exit: Exit)
    ensures |Reports(exit)| <= 2
  {}

  // Completion accounting

  /** With a steady answer from the environment every exit path reports exactly
      once, except a failed re-exec, which reports success and then failure. */
  lemma ExactlyOneReport(exit: Exit)
    requires exit.Restarts? ==> exit.host.Constant()
    ensures |Reports(exit)| != 1 <==> exit.Restarts? && !exit.host.middle && exit.host.attemptFails
    ensures |Reports(exit)| != 1 ==> Reports(exit) == [Success, Failed]
  {
    if exit.Restarts? {
      assert exit.host.Attempt().RestartFailed? <==> exit.host.attemptFails;
    }
  }

  /** The exact condition when the three answers may differ. */
  lemma OneReportIff(host: Host)
    ensures |Reports(Restarts(host))| == 1 <==>
            match host.Attempt()
            case RestartFailed => host.early
            case ImageReplaced => !host.early
            case RestartQueued => host.early == host.late
  {
    match host.Attempt() {
      case RestartFailed =>
      case ImageReplaced =>
      case RestartQueued =>
    }
  }

  /** A restart that failed is reported as a success exactly when the first
      evaluation said the agent does not run under systemd. */
  lemma FailedRestartReportsSuccessIff(host: Host)
    requires host.Attempt() == RestartFailed
    ensures Success in Reports(Restarts(host)) <==> !host.early
    ensures Reports(Restarts(host))[|Reports(Restarts(host))| - 1] == Failed
  {
    if host.early {
      assert Reports(Restarts(host)) == [Failed];
    } else {
      assert Reports(Restarts(host)) == [Success, Failed];
    }
  }

  // The client

  datatype Call = StreamLogs | CompleteJob(status: Status)

  /** The statuses among a sequence of client calls. */
  function Completions(calls: seq<Call>): seq<Status> {
    if calls == [] then []
    else Completions(calls[..|calls| - 1]) +
         (match calls[|calls| - 1]
          case StreamLogs => []
          case CompleteJob(s) => [s])
  }

  /** The control-plane client as one execution sees it. `faults` holds the
      positions of the calls that panic; a panicking call was still made. */
  class Client {
    var calls: seq<Call>
    const faults: set<nat>

    constructor (faults: set<nat>)
      ensures calls == [] && this.faults == faults
    {
      calls := [];
      this.faults := faults;
    }

    method Do(call: Call) returns (panicked: bool)
      modifies this
      ensures calls == old(calls) + [call]
      ensures panicked == (|old(calls)| in faults)
      ensures panicked ==> forall start :: 0 <= start <= |old(calls)| ==> Faulty(start)
      ensures Completions(calls) ==
              Completions(old(calls)) + (if call.CompleteJob? then [call.status] else [])
    {
      panicked := |calls| in faults;
      calls := calls + [call];
      assert calls[..|calls| - 1] == old(calls);
      assert panicked ==> |old(calls)| < |calls| && |old(calls)| in faults;
    }

    /** flushNow: no call at all when the ticker has already emptied the buffer. */
    method Flush() returns (panicked: bool)
      modifies this
      ensures old(calls) <= calls
      ensures Completions(calls) == Completions(old(calls))
      ensures panicked ==> Faulty(|old(calls)|)
    {
      panicked := false;
      if * {
        panicked := Do(StreamLogs);
      }
    }

    /** Some call from position `start` on has panicked. */
    ghost predicate Faulty(start: nat)
      reads this
    {
      exists i :: start <= i < |calls| && i in faults
    }
  }

  /** reportJobPanic: records the failure; its own panics are swallowed. */
  method ReportJobPanic(client: Client)
    modifies client
    ensures old(client.calls) <= client.calls
    ensures !client.Faulty(|old(client.calls)|) ==>
              Completions(client.calls) == Completions(old(client.calls)) + [Failed]
  {
    var panicked := client.Flush();
    if !panicked {
      var _ := client.Do(CompleteJob(Failed));
    }
  }

  /** finishSelfUpdate with RestartAgent inlined as `host.Attempt()`. */
  method FinishSelfUpdate(client: Client, host: Host) returns (restart: Restart, panicked: bool)
    modifies client
    ensures old(client.calls) <= client.calls
    ensures panicked ==> client.Faulty(|old(client.calls)|)
    ensures !panicked ==> restart == host.Attempt()
    ensures !panicked ==> Completions(client.calls) == Completions(old(client.calls)) + FinishReports(host)
  {
    restart := host.Attempt();
    panicked := client.Flush();
    if panicked { return; }
    if !host.early {
      panicked := client.Do(CompleteJob(Success));
      if panicked { return; }
    }
    if restart == RestartQueued && host.late {
      panicked := client.Do(CompleteJob(Success));
    }
  }

  /** The part of Execute between the slot and the defers. */
  method RunBody(client: Client, exit: Exit) returns (panicked: bool)
    modifies client
    ensures old(client.calls) <= client.calls
    ensures !client.Faulty(|old(client.calls)|) ==> panicked == exit.Panics?
    ensures !client.Faulty(|old(client.calls)|) && !panicked ==>
              Completions(client.calls) == Completions(old(client.calls)) + Reports(exit)
    ensures !client.Faulty(|old(client.calls)|) && panicked ==>
              Completions(client.calls) == Completions(old(client.calls))
  {
    panicked := false;
    var status := Success;
    match exit {
      case InvalidParams =>
        status := Failed;
      case FallsThrough(err) =>
        if err { status := Failed; }
      case ReportsItself =>
      case Panics =>
        panicked := true;
        return;
      case Restarts(host) =>
        var restart;
        restart, panicked := FinishSelfUpdate(client, host);
        if panicked || restart != RestartFailed { return; }
        status := Failed;
    }
    panicked := client.Flush();
    if panicked { return; }
    panicked := client.Do(CompleteJob(status));
  }

  /** Body, recovery, and the final flush of the log batcher: everything an
      execution does while it holds its slot. Whatever the exit path, if no
      client call panicked the reports are exactly the ones Reports names. */
  method RunHoldingSlot(client: Client, exit: Exit)
    modifies client
    ensures old(client.calls) <= client.calls
    ensures !client.Faulty(|old(client.calls)|) ==>
              Completions(client.calls) == Completions(old(client.calls)) + Reports(exit)
  {
    var panicked := RunBody(client, exit);
    if panicked {
      ReportJobPanic(client);
    }
    if !exit.ReplacesProcess() {
      var _ := client.Flush();  // lb.Close
    }
  }
}
