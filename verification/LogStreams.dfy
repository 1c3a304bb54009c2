/** The registry of Docker log streams. */
module LogStreams {

  /** The registry after an add, and whether it was accepted: not under an id in
      use, and not beyond the limit. */
  function Added(registry: map<string, nat>, id: string, cancel: nat, max: nat): (r: (bool, map<string, nat>)) {
    if id in registry || |registry| >= max then (false, registry) else (true, registry[id := cancel])
  }

  // The registry object

  /** logStreams. Cancel functions are identified by number; `called` lists the
      calls made by stop and stopAll. */
  class LogStreams {
    var cancel: map<string, nat>
    const max: nat
    var called: seq<nat>

    /** Registered cancels are distinct and uncalled, none was called twice, and
        the registry is never over its limit. */
    ghost predicate Valid()
      reads this
    {
      && |cancel| <= max
      && OneCancelEach(cancel) && Distinct(called)
      && (forall a :: a in cancel ==> cancel[a] !in called)
    }

    constructor (max: nat)
      ensures Valid() && cancel == map[] && called == [] && this.max == max
    {
      cancel, called, this.max := map[], [], max;
    }

    /** add; every call passes a new cancel function. */
    method Add(streamID: string, c: nat) returns (ok: bool)
      requires Valid() && c !in called && c !in cancel.Values
      modifies this`cancel
      ensures Valid()
      ensures (ok, cancel) == Added(old(cancel), streamID, c, max)
    {
      if streamID in cancel {
        return false;
      }
      if |cancel| >= max {
        return false;
      }
      cancel := cancel[streamID := c];
      return true;
    }

    method Remove(streamID: string)
      requires Valid()
      modifies this`cancel
      ensures Valid() && cancel == old(cancel) - {streamID}
    {
      Shrinks(cancel, {streamID});
      cancel := cancel - {streamID};
    }

    method Stop(streamID: string) returns (ok: bool)
      requires Valid()
      modifies this
      ensures Valid() && ok == (streamID in old(cancel))
      ensures cancel == old(cancel) - {streamID}
      ensures called == old(called) + (if ok then [old(cancel)[streamID]] else [])
    {
      ok := streamID in cancel;
      if ok {
        var c := cancel[streamID];
        Shrinks(cancel, {streamID});
        cancel := cancel - {streamID};
        called := called + [c];
      }
    }

    /** The part of stopAll under the lock: the entries leave in some order. */
    method Collect() returns (cancels: seq<nat>)
      requires OneCancelEach(cancel)
      modifies this`cancel
      ensures cancel == map[] && Collected(old(cancel), cancel, cancels)
    {
      ghost var before := cancel;
      cancels := [];
      while cancel != map[]
        invariant Collected(before, cancel, cancels)
        decreases |cancel|
      {
        var id :| id in cancel.Keys;
        CollectedStep(before, cancel, cancels, id);
        Shrinks(cancel, {id});
        cancels := cancels + [cancel[id]];
        cancel := cancel - {id};
      }
    }

    /** The part of stopAll behind the lock. */
    method CallEach(cancels: seq<nat>)
      modifies this`called
      ensures called == old(called) + cancels
    {
      var i := 0;
      while i < |cancels|
        invariant 0 <= i <= |cancels| && called == old(called) + cancels[..i]
      {
        called := called + [cancels[i]];
        i := i + 1;
      }
      assert cancels[..|cancels|] == cancels;
    }

    /** stopAll: everything registered leaves, and then each cancel is called. */
    method StopAll() returns (cancels: seq<nat>)
      requires Valid()
      modifies this
      ensures Valid() && cancel == map[]
      ensures called == old(called) + cancels
      ensures forall c :: c in cancels <==> c in old(cancel).Values
    {
      cancels := Collect();
      CollectedAll(old(cancel), cancels);
      DistinctTogether(called, cancels);
      CallEach(cancels);
    }
  }

  /** Different ids have different cancels. */
  predicate OneCancelEach(registry: map<string, nat>) {
    forall a, b :: a in registry && b in registry && a != b ==> registry[a] != registry[b]
  }

  predicate Distinct(cancels: seq<nat>) {
    forall i, j :: 0 <= i < j < |cancels| ==> cancels[i] != cancels[j]
  }

  /** `cancels` lists, each once, the entries of `before` that are no longer in `rest`. */
  ghost predicate Collected(before: map<string, nat>, rest: map<string, nat>, cancels: seq<nat>) {
    && OneCancelEach(before) && Distinct(cancels)
    && rest.Keys <= before.Keys && (forall id :: id in rest ==> rest[id] == before[id])
    && (forall c :: c in cancels ==> exists id :: id in before && id !in rest && before[id] == c)
    && (forall id :: id in before && id !in rest ==> before[id] in cancels)
  }

  lemma CollectedStep(before: map<string, nat>, rest: map<string, nat>, cancels: seq<nat>, id: string)
    requires Collected(before, rest, cancels) && id in rest
    ensures Collected(before, rest - {id}, cancels + [rest[id]])
  {
    var more := cancels + [rest[id]];
    assert rest[id] !in cancels;
    forall c | c in more
      ensures exists k :: k in before && k !in rest - {id} && before[k] == c
    {
      if c == rest[id] {
        assert id in before && id !in rest - {id} && before[id] == c;
      } else {
        var k :| k in before && k !in rest && before[k] == c;
        assert k !in rest - {id};
      }
    }
  }

  lemma DistinctTogether(a: seq<nat>, b: seq<nat>)
    requires Distinct(a) && Distinct(b) && forall c :: c in b ==> c !in a
    ensures Distinct(a + b)
  {
    forall i, j | 0 <= i < j < |a + b|
      ensures (a + b)[i] != (a + b)[j]
    {
      if i < |a| <= j {
        assert (a + b)[i] in a && (a + b)[j] in b;
      }
    }
  }

  lemma CollectedAll(before: map<string, nat>, cancels: seq<nat>)
    requires Collected(before, map[], cancels)
    ensures Distinct(cancels) && forall c :: c in cancels <==> c in before.Values
  {}

  lemma Shrinks(m: map<string, nat>, ids: set<string>)
    ensures |m - ids| <= |m|
    ensures forall id :: id in ids && id in m ==> |m - ids| < |m|
  {
    assert (m - ids).Keys == m.Keys - ids;
    assert m.Keys == (m.Keys - ids) + (m.Keys * ids);
    assert |m.Keys| == |m.Keys - ids| + |m.Keys * ids|;
    forall id | id in ids && id in m
      ensures |m - ids| < |m|
    {
      assert id in m.Keys * ids;
    }
  }
}
