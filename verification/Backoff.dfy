/** The reconnect delays of the WebSocket client, and how fast its loop can
    possibly turn. Durations are integers of nanoseconds. */
module Backoff {

  const SECOND := 1_000_000_000
  const BASE_DELAY := 1 * SECOND
  const MAX_DELAY := 120 * SECOND
  const RESET_AFTER := 30 * SECOND

  /** The delay before jitter: 1, 2, 4, ... seconds, capped at two minutes. */
  function Ceiling(attempt: nat): nat {
    if attempt == 0 then BASE_DELAY
    else
      var previous := Ceiling(attempt - 1);
      if 2 * previous > MAX_DELAY then MAX_DELAY else 2 * previous
  }

  /** The seven distinct ceilings and the plateau. */
  lemma CeilingValues(attempt: nat)
    ensures Ceiling(0) == 1 * SECOND && Ceiling(1) == 2 * SECOND && Ceiling(2) == 4 * SECOND
    ensures Ceiling(3) == 8 * SECOND && Ceiling(4) == 16 * SECOND && Ceiling(5) == 32 * SECOND
    ensures Ceiling(6) == 64 * SECOND
    ensures attempt >= 7 ==> Ceiling(attempt) == MAX_DELAY
  {
    assert Ceiling(1) == 2 * SECOND;
    assert Ceiling(2) == 4 * SECOND;
    assert Ceiling(3) == 8 * SECOND;
    assert Ceiling(4) == 16 * SECOND;
    assert Ceiling(5) == 32 * SECOND;
    assert Ceiling(6) == 64 * SECOND;
    if attempt > 7 {
      CeilingValues(attempt - 1);
    }
  }

  /** reconnectDelay. `jitter` is the value drawn by rand.N(half + 1). The loop
      stops doubling at the ceiling, so the delay never exceeds 128 seconds on
      the way and cannot overflow however large `attempt` grows. */
  method ReconnectDelay(attempt: nat, jitter: nat) returns (d: nat)
    requires jitter <= Ceiling(attempt) / 2
    ensures d == Ceiling(attempt) / 2 + jitter
    ensures Ceiling(attempt) / 2 <= d <= Ceiling(attempt) <= MAX_DELAY
  {
    var delay := BASE_DELAY;
    var i := 0;
    CeilingValues(attempt);
    while i < attempt && delay < MAX_DELAY
      invariant 0 <= i <= attempt
      invariant BASE_DELAY <= delay <= 128 * SECOND
      invariant (if delay > MAX_DELAY then MAX_DELAY else delay) == Ceiling(i)
      invariant delay < MAX_DELAY ==> delay == Ceiling(i)
      invariant delay >= MAX_DELAY ==> i >= 7
    {
      CeilingValues(i);
      CeilingValues(i + 1);
      delay := delay * 2;
      i := i + 1;
    }
    CeilingValues(i);
    if delay > MAX_DELAY {
      delay := MAX_DELAY;
    }
    var half := delay / 2;
    d := half + jitter;
  }

  // The loop

  /** One pass: how long connectOnce ran, and the jitter drawn afterwards. */
  datatype Pass = Pass(connected: nat, jitter: nat)

  function AttemptAfter(attempt: nat, pass: Pass): nat {
    (if pass.connected >= RESET_AFTER then 0 else attempt) + 1
  }

  function Cost(attempt: nat, pass: Pass): nat {
    pass.connected + Ceiling(if pass.connected >= RESET_AFTER then 0 else attempt) / 2 + pass.jitter
  }

  /** Attempt counter and elapsed time after the given passes. */
  function Attempt(passes: seq<Pass>): nat {
    if passes == [] then 0 else AttemptAfter(Attempt(passes[..|passes| - 1]), passes[|passes| - 1])
  }

  function Elapsed(passes: seq<Pass>): nat {
    if passes == [] then 0
    else Elapsed(passes[..|passes| - 1]) + Cost(Attempt(passes[..|passes| - 1]), passes[|passes| - 1])
  }

  /** The jitter of every pass lies in the range rand.N offers. */
  ghost predicate Drawn(passes: seq<Pass>) {
    forall i :: 0 <= i < |passes| ==> DrawnAt(passes, i)
  }

  ghost predicate DrawnAt(passes: seq<Pass>, i: nat)
    requires i < |passes|
  {
    passes[i].jitter <= Ceiling(Attempt(passes[..i + 1]) - 1) / 2
  }

  // How fast the loop can turn

  /** The credit a loop can have run up, in tenths of a second: passes with a
      small attempt number are cheap, and the reset that makes them cheap again
      costs a 30-second connection. */
  function Credit(attempt: nat): nat {
    match attempt
    case 0 => 0
    case 1 => 86
    case 2 => 167
    case 3 => 238
    case 4 => 289
    case 5 => 300
    case 6 => 231
    case 7 => 2
    case _ => 0
  }

  lemma CreditPays(attempt: nat, pass: Pass)
    ensures 10 * Cost(attempt, pass) + Credit(AttemptAfter(attempt, pass)) * SECOND
            >= 91 * SECOND + Credit(attempt) * SECOND
  {
    CeilingValues(attempt);
  }

  lemma {:induction false} PotentialBound(passes: seq<Pass>)
    ensures 10 * Elapsed(passes) + Credit(Attempt(passes)) * SECOND >= 91 * |passes| * SECOND
  {
    if passes != [] {
      var last := |passes| - 1;
      PotentialBound(passes[..last]);
      CreditPays(Attempt(passes[..last]), passes[last]);
    }
  }

  /** However short and long connections alternate, n passes take at least
      9.1 n - 30 seconds. */
  lemma PaceBound(passes: seq<Pass>)
    ensures 10 * Elapsed(passes) >= 91 * |passes| * SECOND - 300 * SECOND
  {
    PotentialBound(passes);
    CreditAtMost(Attempt(passes));
  }

  lemma {:induction false} AttemptAtMost(passes: seq<Pass>)
    ensures Attempt(passes) <= |passes|
  {
    if passes != [] {
      AttemptAtMost(passes[..|passes| - 1]);
    }
  }

  lemma CreditAtMost(attempt: nat)
    ensures Credit(attempt) <= 300
    ensures attempt < 5 ==> Credit(attempt) <= 289
  {}

  /** A rounder bound, better for fewer than five passes: 9 n - 29.5 seconds. */
  lemma PaceBoundNine(passes: seq<Pass>)
    ensures 10 * Elapsed(passes) >= 90 * |passes| * SECOND - 295 * SECOND
  {
    PotentialBound(passes);
    AttemptAtMost(passes);
    CreditAtMost(Attempt(passes));
    RoundDown(Elapsed(passes), Credit(Attempt(passes)), |passes|);
  }

  lemma RoundDown(elapsed: nat, credit: nat, n: nat)
    requires 10 * elapsed + credit * SECOND >= 91 * n * SECOND
    requires credit <= 300 && (n < 5 ==> credit <= 289)
    ensures 10 * elapsed >= 90 * n * SECOND - 295 * SECOND
  {
    assert 91 * n - credit >= 90 * n - 295;
  }

  /** A pass of the fastest loop, without jitter: a quick failure while the attempt counter
      is below five, a connection of exactly 30 seconds once it is five. */
  function FastPass(attempt: nat): Pass {
    Pass(if attempt == 5 then RESET_AFTER else 0, 0)
  }

  /** The attempt counter of that loop. */
  function Counter(n: nat): nat {
    if n == 0 then 0 else if Counter(n - 1) == 5 then 1 else Counter(n - 1) + 1
  }

  lemma OnePass(passes: seq<Pass>, pass: Pass)
    ensures Attempt(passes + [pass]) == AttemptAfter(Attempt(passes), pass)
    ensures Elapsed(passes + [pass]) == Elapsed(passes) + Cost(Attempt(passes), pass)
  {
    assert (passes + [pass])[..|passes|] == passes;
  }

  lemma FastPassCost(attempt: nat)
    requires attempt <= 5
    ensures AttemptAfter(attempt, FastPass(attempt)) == if attempt == 5 then 1 else attempt + 1
    ensures 10 * Cost(attempt, FastPass(attempt)) + Credit(AttemptAfter(attempt, FastPass(attempt))) * SECOND
            == 91 * SECOND + Credit(attempt) * SECOND
  {
    CeilingValues(0);
  }

  lemma ExtendFastest(passes: seq<Pass>, attempt: nat)
    requires Attempt(passes) == attempt <= 5
    requires 10 * Elapsed(passes) + Credit(attempt) * SECOND == 91 * |passes| * SECOND
    ensures var more, next := passes + [FastPass(attempt)], if attempt == 5 then 1 else attempt + 1;
            Attempt(more) == next && 10 * Elapsed(more) + Credit(next) * SECOND == 91 * |more| * SECOND
  {
    FastPassCost(attempt);
    OnePass(passes, FastPass(attempt));
  }

  /** A loop that runs up exactly the credit of its attempt counter all the time. */
  lemma {:induction false} FastestPace(n: nat) returns (passes: seq<Pass>)
    ensures |passes| == n && Attempt(passes) == Counter(n) <= 5
    ensures forall pass :: pass in passes ==> pass.jitter == 0
    ensures 10 * Elapsed(passes) + Credit(Counter(n)) * SECOND == 91 * n * SECOND
  {
    passes := [];
    if n > 0 {
      passes := FastestPace(n - 1);
      ExtendFastest(passes, Counter(n - 1));
      passes := passes + [FastPass(Counter(n - 1))];
    }
  }

  lemma {:induction false} CounterAtFive(rounds: nat)
    requires rounds > 0
    ensures Counter(5 * rounds) == 5
  {
    var n := 5 * (rounds - 1);
    if rounds > 1 {
      CounterAtFive(rounds - 1);
    }
    assert Counter(n + 1) == 1;
    assert Counter(n + 2) == 2;
    assert Counter(n + 3) == 3;
    assert Counter(n + 4) == 4;
  }

  /** The bound is attained: no larger rate and no smaller constant is true. */
  lemma PaceBoundIsTight(rounds: nat) returns (passes: seq<Pass>)
    requires rounds > 0
    ensures |passes| == 5 * rounds && forall pass :: pass in passes ==> pass.jitter == 0
    ensures 10 * Elapsed(passes) == 91 * |passes| * SECOND - 300 * SECOND
  {
    passes := FastestPace(5 * rounds);
    CounterAtFive(rounds);
  }
}
