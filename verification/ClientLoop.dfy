/** The connect loop of the WebSocket client and one pass through connectOnce: dial,
    dispatch, teardown. Pumps and streams of a connection have their own modules. */
module ClientLoop {
  import opened Backoff

  /** What the dispatch loop makes of a message: not an envelope at all, a job trigger,
      a trigger whose payload does not decode, a new token, or anything that leaves this
      client's own fields alone. */
  datatype Message = Malformed | Job(id: nat) | JobFull(id: nat) | BadPayload | TokenRotated(newToken: string) | Other

  datatype Trigger = Light(id: nat) | Full(id: nat)

  /** The error value of connectOnce. */
  datatype Error = Nil | DialFailed | ConnectionClosed

  /** What one pass meets: whether the dial succeeds, the messages until the read channel
      is closed, how long it all takes, and the jitter drawn afterwards. */
  datatype Trip = Trip(dials: bool, received: seq<Message>, pass: Pass)

  /** The triggers handed on, in order. Without a handler for full triggers the light
      one takes their place. */
  function Triggers(received: seq<Message>, takesFull: bool): seq<Trigger> {
    if received == [] then []
    else
      Triggers(received[..|received| - 1], takesFull) +
      match received[|received| - 1]
      case Job(id) => [Light(id)]
      case JobFull(id) => [if takesFull then Full(id) else Light(id)]
      case _ => []
  }

  /** The last token received that is not empty. */
  function TokenAfter(token: string, received: seq<Message>): string {
    if received == [] then token
    else
      match received[|received| - 1]
      case TokenRotated(newToken) => if newToken != "" then newToken else TokenAfter(token, received[..|received| - 1])
      case _ => TokenAfter(token, received[..|received| - 1])
  }

  function PassesOf(trips: seq<Trip>): (r: seq<Pass>)
    ensures |r| == |trips| && forall i :: 0 <= i < |r| ==> r[i] == trips[i].pass
  {
    seq(|trips|, i requires 0 <= i < |trips| => trips[i].pass)
  }

  class Client {
    var token: string
    var connected: bool
    var triggers: seq<Trigger>
    const takesFull: bool

    constructor (token: string, takesFull: bool)
      ensures this.token == token && this.takesFull == takesFull && !connected && triggers == []
    {
      this.token, this.takesFull, connected, triggers := token, takesFull, false, [];
    }

    /** connectOnce: whatever happens, it ends in an error. */
    method ConnectOnce(trip: Trip) returns (err: Error)
      modifies this
      ensures err != Nil
      ensures err.DialFailed? <==> !trip.dials
      ensures !trip.dials ==> unchanged(this)
      ensures trip.dials ==> !connected && token == TokenAfter(old(token), trip.received)
      ensures trip.dials ==> triggers == old(triggers) + Triggers(trip.received, takesFull)
    {
      if !trip.dials {
        return DialFailed;
      }
      connected := true;
      Dispatch(trip.received);
      connected := false;
      return ConnectionClosed;
    }

    /** The dispatch loop, until the read channel is closed and drained. */
    method Dispatch(received: seq<Message>)
      modifies this`token, this`triggers
      ensures token == TokenAfter(old(token), received)
      ensures triggers == old(triggers) + Triggers(received, takesFull)
    {
      var i := 0;
      while i < |received|
        invariant 0 <= i <= |received|
        invariant token == TokenAfter(old(token), received[..i])
        invariant triggers == old(triggers) + Triggers(received[..i], takesFull)
      {
        assert received[..i + 1][..i] == received[..i];
        match received[i] {
          case Job(id) =>
            triggers := triggers + [Light(id)];
          case JobFull(id) =>
            if takesFull {
              triggers := triggers + [Full(id)];
            } else {
              triggers := triggers + [Light(id)];
            }
          case TokenRotated(newToken) =>
            if newToken != "" {
              token := newToken;
            }
          case _ =>
        }
        i := i + 1;
      }
      assert received[..|received|] == received;
    }

    /** Connect, for as many passes as the context lives. `waited` lists the delays. That
        there is one for every pass means that the delay-free branch is never taken. */
    method Connect(trips: seq<Trip>) returns (elapsed: nat, attempt: nat, waited: seq<nat>)
      requires Drawn(PassesOf(trips))
      modifies this
      ensures |waited| == |trips|
      ensures elapsed == Elapsed(PassesOf(trips)) && attempt == Attempt(PassesOf(trips))
      ensures 10 * elapsed >= 91 * |trips| * SECOND - 300 * SECOND
      ensures connected ==> old(connected)
    {
      elapsed, attempt, waited := 0, 0, [];
      ghost var passes := PassesOf(trips);
      var n := 0;
      assert passes[..0] == [];
      while n < |trips|
        invariant 0 <= n <= |trips| == |passes|
        invariant |waited| == n
        invariant elapsed == Elapsed(passes[..n]) && attempt == Attempt(passes[..n])
        invariant connected ==> old(connected)
      {
        assert passes[..n + 1][..n] == passes[..n];
        assert DrawnAt(passes, n);
        var trip := trips[n];
        n := n + 1;
        var err := ConnectOnce(trip);
        elapsed := elapsed + trip.pass.connected;
        if trip.pass.connected >= RESET_AFTER {
          attempt := 0;
        }
        if err == Nil {
          continue;
        }
        var delay := ReconnectDelay(attempt, trip.pass.jitter);
        attempt := attempt + 1;
        elapsed := elapsed + delay;
        waited := waited + [delay];
      }
      assert passes[..|passes|] == passes;
      PaceBound(passes);
    }
  }
}
