/**
 The backend's keeper of compress requests: an object whose fields every call changes in place,
 each call proved to be the one on the value in `LeaseQueue`.
 */
module CompressQueue {
  import opened Wrappers
  import opened LeaseQueue

  /** What becomes of one request and of those behind it. */
  lemma ReleasedFrom(queue: seq<Entry>, i: nat, session: Session)
    requires i < |queue|
    ensures var e, rest := queue[i], queue[i + 1..];
            var dropped := HeldBy(e, session) && e.lease.value.dispatched;
            var kept := if dropped then [] else if HeldBy(e, session) then [e.(lease := None)] else [e];
            Released(queue[i..], session) == kept + Released(rest, session)
            && Restored(queue[i..], session)
               == (if HeldBy(e, session) && !dropped then 1 else 0) + Restored(rest, session)
  {
    assert queue[i..][1..] == queue[i + 1..];
  }

  class PendingCompress {
    var queue: seq<Entry>
    var ready: bool
    var nextId: nat
    var nextGen: nat
    var recent: seq<(nat, nat)>

    function View(): Queue
      reads this
    {
      Queue(queue, nextId, nextGen, recent)
    }

    constructor ()
      ensures View() == LeaseQueue.EMPTY && !ready
    {
      queue, ready, nextId, nextGen, recent := [], false, 0, 0, [];
    }

    method Push(launch: Launch)
      modifies this
      ensures View() == LeaseQueue.Push(old(View()), launch) && ready == old(ready)
    {
      nextId := nextId + 1;
      queue := queue + [Entry(nextId, launch, None)];
    }

    method RememberAck(id: nat, gen: nat)
      modifies this`recent
      ensures recent == Last(old(recent) + [(id, gen)], KEEP)
    {
      recent := recent + [(id, gen)];
      ghost var all := recent;
      while |recent| > KEEP
        invariant |recent| <= |all| && recent == all[|all| - |recent|..]
        invariant |all| >= KEEP ==> |recent| >= KEEP
        invariant |all| < KEEP ==> recent == all
      {
        recent := recent[1..];
      }
    }

    method WasAcked(id: nat, gen: nat) returns (b: bool)
      ensures b <==> (id, gen) in recent
    {
      b := (id, gen) in recent;
    }

    /** The lease call also tells that the window is ready to be signalled. */
    method Lease(session: Session) returns (take: Take)
      modifies this
      ensures (View(), take) == LeaseFront(old(View()), session)
      ensures ready
    {
      ready := true;
      var more := |queue| > 1;
      if |queue| == 0 {
        return NOTHING;
      }
      var front := queue[0];
      match front.lease {
        case Some(l) =>
          if l.session == session {
            return Take(front.id, l.gen, Some(front.launch), more);
          }
          return NOTHING;
        case None =>
      }
      nextGen := nextGen + 1;
      queue := [front.(lease := Some(LeaseQueue.Lease(nextGen, session, false)))] + queue[1..];
      take := Take(front.id, nextGen, Some(front.launch), more);
    }

    method Dispatch(id: nat, gen: nat) returns (ack: Ack)
      modifies this`queue
      ensures (View(), ack) == LeaseQueue.Dispatch(old(View()), id, gen)
    {
      var acked := WasAcked(id, gen);
      if |queue| > 0 && queue[0].id == id {
        var front := queue[0];
        if front.lease.None? || front.lease.value.gen != gen {
          return Stale;
        }
        if front.lease.value.dispatched {
          return Already;
        }
        queue := [front.(lease := Some(front.lease.value.(dispatched := true)))] + queue[1..];
        return Okay;
      }
      ack := if acked then Already else Stale;
    }

    method Acknowledge(id: nat, gen: nat) returns (ack: Ack)
      modifies this`queue, this`recent
      ensures (View(), ack) == LeaseQueue.Acknowledge(old(View()), id, gen)
    {
      if FrontMatches(View(), id, gen) {
        queue := queue[1..];
        RememberAck(id, gen);
        return Okay;
      }
      var acked := WasAcked(id, gen);
      ack := if acked then Already else Stale;
    }

    /** Goes over the whole queue, keeping, giving back or dropping each request. */
    method ReleaseSession(session: Session) returns (restored: nat)
      modifies this`queue
      ensures View() == old(View()).(entries := Released(old(queue), session))
      ensures restored == Restored(old(queue), session)
    {
      restored := 0;
      var kept: seq<Entry> := [];
      for i := 0 to |queue|
        invariant queue == old(queue)
        invariant Released(queue, session) == kept + Released(queue[i..], session)
        invariant Restored(queue, session) == restored + Restored(queue[i..], session)
      {
        var e := queue[i];
        ReleasedFrom(queue, i, session);
        if !HeldBy(e, session) {
          kept := kept + [e];
        } else if !e.lease.value.dispatched {
          kept := kept + [e.(lease := None)];
          restored := restored + 1;
        }
      }
      assert queue[|queue|..] == [];
      queue := kept;
    }

    method HasUnleased() returns (b: bool)
      ensures b <==> LeaseQueue.HasUnleased(View())
    {
      for i := 0 to |queue|
        invariant forall j :: 0 <= j < i ==> queue[j].lease.Some?
      {
        if queue[i].lease.None? {
          return true;
        }
      }
      b := false;
    }
  }
}
