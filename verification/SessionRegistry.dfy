// Opening ordered sessions: a process-wide list keeps two live sessions from sharing a stream.

module SessionRegistryObject {
  import opened Wrappers
  import opened OrderedTypes

  /** One element of the list: a grant and the session it was opened for, held weakly. */
  datatype Slot = Slot(grant: Grant, session: nat)

  datatype Code = StreamRejected

  /** No two live sessions have the same stream identity. */
  predicate OneLivePerStream(slots: seq<Slot>, live: set<nat>) {
    forall i, j | 0 <= i < j < |slots| && slots[i].session in live && slots[j].session in live ::
      !SameStreamId(slots[i].grant, slots[j].grant)
  }

  predicate Holds(slots: seq<Slot>, live: set<nat>, slot: Slot) {
    slot in slots && slot.session in live
  }

  /** Some live session has the stream of the grant. */
  predicate StreamTaken(slots: seq<Slot>, live: set<nat>, grant: Grant) {
    exists i | 0 <= i < |slots| :: slots[i].session in live && SameStreamId(slots[i].grant, grant)
  }

  function Swept(slots: seq<Slot>, live: set<nat>): seq<Slot> {
    if slots == [] then []
    else
      var n := |slots| - 1;
      Swept(slots[..n], live) + (if slots[n].session in live then [slots[n]] else [])
  }

  lemma {:induction false} SweptIsTheLivePart(slots: seq<Slot>, live: set<nat>)
    ensures forall x :: x in Swept(slots, live) <==> Holds(slots, live, x)
    ensures OneLivePerStream(slots, live) ==> OneLivePerStream(Swept(slots, live), live)
    decreases |slots|
  {
    if slots != [] {
      var n := |slots| - 1;
      SweptIsTheLivePart(slots[..n], live);
      assert slots == slots[..n] + [slots[n]];
      if OneLivePerStream(slots, live) {
        assert OneLivePerStream(slots[..n], live);
        forall x | x in Swept(slots[..n], live) && slots[n].session in live
          ensures !SameStreamId(x.grant, slots[n].grant)
        {
          assert x in slots[..n];
        }
      }
    }
  }

  class SessionRegistry {
    var slots: seq<Slot>
    /** The sessions somebody still owns. */
    var live: set<nat>
    var lastInstance: nat

    predicate Valid()
      reads this
    {
      && OneLivePerStream(slots, live)
      && (forall s | s in live :: s <= lastInstance)
      && (forall i | 0 <= i < |slots| :: slots[i].session <= lastInstance)
    }

    constructor ()
      ensures Valid() && slots == [] && live == {}
    {
      slots, live, lastInstance := [], {}, 0;
    }

    /** The loop of OpenImpl: it drops dead entries until it meets the stream of the grant. */
    method Find(grant: Grant) returns (found: Option<Slot>)
      requires Valid()
      modifies `slots
      ensures Valid()
      ensures forall x :: Holds(slots, live, x) <==> Holds(old(slots), live, x)
      ensures found.None? <==> !StreamTaken(old(slots), live, grant)
      ensures found.Some? ==> Holds(old(slots), live, found.value) && SameStreamId(found.value.grant, grant)
    {
      var kept: seq<Slot>, i := [], 0;
      while i < |slots|
        invariant i <= |slots| && kept == Swept(slots[..i], live)
        invariant !StreamTaken(slots[..i], live, grant)
      {
        assert slots[..i + 1][..i] == slots[..i];
        if slots[i].session in live {
          if SameStreamId(slots[i].grant, grant) {
            found := Some(slots[i]);
            Resweep(i);
            slots := kept + slots[i..];
            return;
          }
          kept := kept + [slots[i]];
        }
        i := i + 1;
      }
      Resweep(i);
      assert slots[..i] == slots && kept + slots[i..] == kept;
      slots := kept;
      return None;
    }

    lemma Resweep(i: nat)
      requires Valid() && i <= |slots|
      ensures var mixed := Swept(slots[..i], live) + slots[i..];
        && OneLivePerStream(mixed, live)
        && (forall x :: Holds(mixed, live, x) <==> Holds(slots, live, x))
        && (forall j | 0 <= j < |mixed| :: mixed[j].session <= lastInstance)
    {
      var kept, rest := Swept(slots[..i], live), slots[i..];
      assert slots == slots[..i] + rest;
      assert OneLivePerStream(slots[..i], live);
      SweptIsTheLivePart(slots[..i], live);
      forall x, j | x in kept && 0 <= j < |rest| && rest[j].session in live
        ensures !SameStreamId(x.grant, rest[j].grant)
      {
        var p :| 0 <= p < i && slots[p] == x;
        assert slots[i + j] == rest[j];
      }
      forall j | 0 <= j < |kept| ensures kept[j].session <= lastInstance {
        assert Holds(slots[..i], live, kept[j]) && kept[j] in slots[..i];
        var p :| 0 <= p < i && slots[p] == kept[j];
      }
      assert OneLivePerStream(rest, live) by {
        forall p, q | 0 <= p < q < |rest| && rest[p].session in live && rest[q].session in live
          ensures !SameStreamId(rest[p].grant, rest[q].grant)
        {
          assert rest[p] == slots[i + p] && rest[q] == slots[i + q];
        }
      }
    }

    /** Open: the same grant shares the live session, another grant of a live stream is refused, and only a
        stream without a live session gets a new one. */
    method Open(grant: Grant) returns (r: Result<nat, Code>)
      requires Valid()
      modifies this
      ensures Valid()
      ensures r.Err? <==> exists x ::
        && Holds(old(slots), old(live), x) && x.grant.service == grant.service
        && x.grant.actorKey == grant.actorKey && x.grant.producerId == grant.producerId
        && x.grant.producerEpoch == grant.producerEpoch && x.grant.receiverEpoch == grant.receiverEpoch
        && x.grant.peerPrincipal != grant.peerPrincipal
      ensures r.Ok? && StreamTaken(old(slots), old(live), grant) ==>
        Holds(old(slots), old(live), Slot(grant, r.value)) && live == old(live)
      ensures r.Ok? && !StreamTaken(old(slots), old(live), grant)
        ==> r.value !in old(live) && live == old(live) + {r.value}
      ensures r.Ok? ==> Holds(slots, live, Slot(grant, r.value))
    {
      ghost var slots0 := slots;
      var found := Find(grant);
      if found.Some? {
        OneHolder(slots0, live, found.value, grant);
        if found.value.grant == grant {
          return Ok(found.value.session);
        }
        return Err(StreamRejected);
      }
      forall x | Holds(slots, live, x) ensures !SameStreamId(x.grant, grant) {
        NotTaken(slots0, live, x, grant);
      }
      lastInstance := lastInstance + 1;
      slots := slots + [Slot(grant, lastInstance)];
      live := live + {lastInstance};
      assert slots[|slots| - 1] == Slot(grant, lastInstance);
      return Ok(lastInstance);
    }

    /** The last owner of a session lets go. */
    method Destroy(session: nat)
      requires Valid() && session in live
      modifies this
      ensures Valid() && live == old(live) - {session}
      ensures forall x :: Holds(slots, live, x) <==> Holds(old(slots), live, x)
    {
      live := live - {session};
      SweptIsTheLivePart(slots, live);
      forall j | 0 <= j < |Swept(slots, live)| ensures Swept(slots, live)[j].session <= lastInstance {
        assert Holds(slots, live, Swept(slots, live)[j]);
      }
      slots := Swept(slots, live);
    }
  }

  lemma NotTaken(slots: seq<Slot>, live: set<nat>, x: Slot, grant: Grant)
    requires Holds(slots, live, x) && !StreamTaken(slots, live, grant)
    ensures !SameStreamId(x.grant, grant)
  {
    var i :| 0 <= i < |slots| && slots[i] == x;
  }

  /** At most one live session has the stream of the grant. */
  lemma OneHolder(slots: seq<Slot>, live: set<nat>, x: Slot, grant: Grant)
    requires OneLivePerStream(slots, live) && Holds(slots, live, x) && SameStreamId(x.grant, grant)
    ensures forall y | Holds(slots, live, y) && SameStreamId(y.grant, grant) :: y == x
    ensures StreamTaken(slots, live, grant)
  {
    var i :| 0 <= i < |slots| && slots[i] == x;
    forall y | Holds(slots, live, y) && SameStreamId(y.grant, grant) ensures y == x {
      var j :| 0 <= j < |slots| && slots[j] == y;
      assert SameStreamId(slots[i].grant, slots[j].grant) && SameStreamId(slots[j].grant, slots[i].grant);
    }
  }
}
