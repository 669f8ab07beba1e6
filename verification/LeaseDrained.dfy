/**
 When leases are moreover served once, and only to a window that waits for them, a resting coordinator
 leaves the queue empty: every request was acknowledged or went down with its window.
 */
module LeaseDrained {
  import opened Wrappers
  import opened LeaseQueue
  import opened CompressPlan
  import opened Coordinator
  import opened LeaseProtocol
  import opened LeaseProgress

  ghost predicate FrontIsFor(st: State, s: Session) {
    |st.h.q.entries| > 0 && HeldBy(st.h.q.entries[0], s)
  }

  /** The coordinator holds the front request, or still has a reason to ask for it. */
  ghost predicate Accounts(st: State, c: Coord)
    requires |st.h.q.entries| > 0
  {
    (c.held.Some? && c.held.value.id == st.h.q.entries[0].id) || c.more || c.seenEpoch != c.signalEpoch
  }

  /** A window that was leased the front knows about it, or is about to be told. */
  ghost predicate Aware(st: State, s: Session, c: Coord) {
    FrontIsFor(st, s) ==>
      && (!Asking(c) ==> Accounts(st, c))
      && (c.await.AwaitLease? ==>
            forall p :: p in st.replies && p.to == Request(s, c.tag, LeaseOp) ==>
              p.body.Taken? && p.body.take.launch.Some? && p.body.take.id == st.h.q.entries[0].id)
  }

  ghost predicate AllAware(st: State) {
    forall s :: Alive(st, s) ==> Aware(st, s, CoordOf(st, s))
  }

  lemma MoveKeepsAware(st: State, st': State, s: Session, c1: Coord, h: Host, c': Coord, e: Effect)
    requires Inv(st) && Alive(st, s) && c1.tag == CoordOf(st, s).tag && AllAware(st) && OneWindow(st)
    requires Settles(c1, h, c', e) && Moved(st.(applied := st'.applied), st', s, c', e)
    requires FrontIsFor(st, s) ==> Accounts(st, c1)
    ensures AllAware(st')
  {
    forall p | p in st'.replies && c'.await.AwaitLease? ensures p.to != Request(s, c'.tag, LeaseOp) {
      assert ReplyOk(st, p) && RequestOk(st, p.to);
    }
    forall t | Alive(st', t) ensures Aware(st', t, CoordOf(st', t)) {
      assert Alive(st, t);
    }
  }

  /** Whatever a waiting coordinator waits for, it accounts for the front once it stops waiting without an answer. */
  lemma WaitingAccounts(st: State, s: Session, c1: Coord)
    requires Inv(st) && Alive(st, s) && AllAware(st) && FrontIsFor(st, s)
    requires var c := CoordOf(st, s);
      c1.more == c.more && c1.seenEpoch == c.seenEpoch && c1.signalEpoch == c.signalEpoch && c1.held == c.held
    ensures Accounts(st, c1)
  {
    assert CoordOk(st, s, CoordOf(st, s)) && Aware(st, s, CoordOf(st, s));
  }

  lemma WokenKeepsAware(st: State, st': State, s: Session, c1: Coord)
    requires Inv(st) && Alive(st, s) && AllAware(st) && OneWindow(st)
    requires Moved(st, st', s, Pump(c1, st.windows[s].host).0, Pump(c1, st.windows[s].host).1)
    requires var c := CoordOf(st, s);
      && c1.held == c.held && c1.tag == c.tag && c1.await == c.await && c1.seenEpoch == c.seenEpoch && c1.more == c.more
      && c.signalEpoch <= c1.signalEpoch
    ensures AllAware(st')
  {
    var c, h := CoordOf(st, s), st.windows[s].host;
    assert CoordOk(st, s, c) && Aware(st, s, c);
    if c.await.Idle? {
      PumpSettles(c1, h);
      MoveKeepsAware(st, st', s, c1, h, Pump(c1, h).0, Pump(c1, h).1);
    } else {
      forall t | Alive(st', t) ensures Aware(st', t, CoordOf(st', t)) {
        assert Alive(st, t);
      }
    }
  }

  lemma FinishedKeepsAware(st: State, st': State, s: Session, c1: Coord)
    requires Inv(st) && Alive(st, s) && AllAware(st) && OneWindow(st)
    requires Moved(st, st', s, Finish(c1, st.windows[s].host).0, Finish(c1, st.windows[s].host).1)
    requires c1.tag == CoordOf(st, s).tag && c1.seenEpoch <= c1.signalEpoch
    requires FrontIsFor(st, s) ==> Accounts(st, c1)
    ensures AllAware(st')
  {
    var h := st.windows[s].host;
    FinishSettles(c1, h);
    MoveKeepsAware(st, st', s, c1, h, Finish(c1, h).0, Finish(c1, h).1);
  }

  lemma GiveUpKeepsAware(st: State, s: Session)
    requires ProgressInv(st) && AllAware(st) && Possible(st, GiveUp(s))
    ensures AllAware(Do(st, GiveUp(s)))
  {
    assert CoordOk(st, s, CoordOf(st, s));
    if FrontIsFor(st, s) {
      WaitingAccounts(st, s, Fail(CoordOf(st, s)));
    }
    FinishedKeepsAware(st, Do(st, GiveUp(s)), s, Fail(CoordOf(st, s)));
  }

  lemma ApplySucceedsKeepsAware(st: State, s: Session, c1: Coord)
    requires ProgressInv(st) && AllAware(st) && Possible(st, ApplyReturns(s, Some(true))) && CoordOf(st, s).held.Some?
    requires c1 == CoordOf(st, s).(held := Some(CoordOf(st, s).held.value.(stage := Applied)))
    ensures AllAware(Do(st, ApplyReturns(s, Some(true))))
  {
    var c, h, st' := CoordOf(st, s), st.windows[s].host, Do(st, ApplyReturns(s, Some(true)));
    assert CoordOk(st, s, c);
    if FrontIsFor(st, s) {
      WaitingAccounts(st, s, c);
    }
    ApplySucceedsMoves(st, s, c, c1, st.(applied := st.applied + [(c.held.value.id, s)]));
    MoveKeepsAware(st, st', s, c1, h, AskAck(c1).0, AskAck(c1).1);
  }

  lemma ApplyFailsKeepsAware(st: State, s: Session, outcome: Option<bool>)
    requires ProgressInv(st) && AllAware(st) && Possible(st, ApplyReturns(s, outcome)) && outcome != Some(true)
    requires CoordOf(st, s).held.Some?
    ensures AllAware(Do(st, ApplyReturns(s, outcome)))
  {
    var c, st' := CoordOf(st, s), Do(st, ApplyReturns(s, outcome));
    assert CoordOk(st, s, c);
    if FrontIsFor(st, s) {
      WaitingAccounts(st, s, c);
    }
    ApplyFailsMoves(st, s, outcome);
    FinishedKeepsAware(st, st', s, Fail(c));
  }

  lemma ApplyReturnsKeepsAware(st: State, s: Session, outcome: Option<bool>)
    requires ProgressInv(st) && AllAware(st) && Possible(st, ApplyReturns(s, outcome))
    ensures AllAware(Do(st, ApplyReturns(s, outcome)))
  {
    var c := CoordOf(st, s);
    assert c.held.Some? by {
      assert CoordOk(st, s, c);
    }
    if outcome == Some(true) {
      ApplySucceedsKeepsAware(st, s, c.(held := Some(c.held.value.(stage := Applied))));
    } else {
      ApplyFailsKeepsAware(st, s, outcome);
    }
  }

  lemma LeaseAnswerKeepsAware(st: State, reply: Reply, s: Session)
    requires ProgressInv(st) && AllAware(st) && Possible(st, Respond(reply)) && s == reply.to.from
    requires CoordOf(st, s).await.AwaitLease?
    ensures AllAware(Do(st, Respond(reply)))
  {
    var c, h, take, st' := CoordOf(st, s), st.windows[s].host, reply.body.take, Do(st, Respond(reply));
    RespondMoves(st, reply);
    assert ReplyOk(st, reply) && CoordOk(st, s, c) && Aware(st, s, c);
    var seen := c.(seenEpoch := c.await.epoch, more := take.more);
    if take.launch.None? {
      FinishedKeepsAware(st, st', s, seen);
    } else {
      var c1 := seen.(held := Some(Held(take.id, take.gen, take.launch.value, Leased)));
      CarrySettles(c1, h);
      MoveKeepsAware(st, st', s, c1, h, Carry(c1, h).0, Carry(c1, h).1);
    }
  }

  lemma PeekAnsweredKeepsAware(st: State, st': State, s: Session, c: Coord, standalone: bool)
    requires Inv(st) && OneWindow(st) && AllAware(st) && Alive(st, s) && c == CoordOf(st, s) && c.await.AwaitPeek?
    requires
      if standalone then
        Moved(st, st', s, Finish(c.(blocked := true), st.windows[s].host).0, Finish(c.(blocked := true), st.windows[s].host).1)
      else Moved(st, st', s, AskLease(c, c.await.epoch).0, AskLease(c, c.await.epoch).1)
    ensures AllAware(st')
  {
    assert CoordOk(st, s, c);
    if standalone {
      FinishedKeepsAware(st, st', s, c.(blocked := true));
    } else {
      MoveKeepsAware(st, st', s, c, st.windows[s].host, AskLease(c, c.await.epoch).0, AskLease(c, c.await.epoch).1);
    }
  }

  lemma PeekAnswerKeepsAware(st: State, reply: Reply, s: Session)
    requires ProgressInv(st) && AllAware(st) && Possible(st, Respond(reply)) && s == reply.to.from
    requires CoordOf(st, s).await.AwaitPeek?
    ensures AllAware(Do(st, Respond(reply)))
  {
    assert ReplyOk(st, reply);
    PeekAnswerMoves(st, reply, s);
    PeekAnsweredKeepsAware(st, Do(st, Respond(reply)), s, CoordOf(st, s), reply.body.standalone);
  }

  /** A request that is no longer queued is not the front, so dropping it forgets nothing. */
  lemma DroppedKeepsAware(st: State, reply: Reply, s: Session, c1: Coord)
    requires ProgressInv(st) && AllAware(st) && Possible(st, Respond(reply)) && s == reply.to.from
    requires Moved(st, Do(st, Respond(reply)), s, Finish(c1, st.windows[s].host).0, Finish(c1, st.windows[s].host).1)
    requires CoordOf(st, s).await.AwaitDispatch? || CoordOf(st, s).await.AwaitAck?
    requires CoordOf(st, s).await.AwaitDispatch? ==> reply.body.Verdict? && reply.body.ack.Stale?
    requires c1 == Refused(CoordOf(st, s)) || c1 == CoordOf(st, s).(held := None)
    ensures AllAware(Do(st, Respond(reply)))
  {
    var c := CoordOf(st, s);
    assert ReplyOk(st, reply) && CoordOk(st, s, c) && Aware(st, s, c);
    assert !Queued(st.h, c.held.value.id);
    FinishedKeepsAware(st, Do(st, Respond(reply)), s, c1);
  }

  lemma VerdictKeepsAware(st: State, reply: Reply, s: Session)
    requires ProgressInv(st) && AllAware(st) && Possible(st, Respond(reply)) && s == reply.to.from
    requires CoordOf(st, s).await.AwaitDispatch? || CoordOf(st, s).await.AwaitAck?
    ensures AllAware(Do(st, Respond(reply)))
  {
    var c, h, st' := CoordOf(st, s), st.windows[s].host, Do(st, Respond(reply));
    assert ReplyOk(st, reply) && CoordOk(st, s, c);
    RespondMoves(st, reply);
    if reply.body.ack.Stale? {
      DroppedKeepsAware(st, reply, s, Refused(c));
    } else if c.await.AwaitAck? {
      DroppedKeepsAware(st, reply, s, c.(held := None));
    } else {
      var c1 := c.(held := Some(c.held.value.(stage := Dispatched(c.await.plan))));
      CarrySettles(c1, h);
      if FrontIsFor(st, s) {
        WaitingAccounts(st, s, c);
      }
      MoveKeepsAware(st, st', s, c1, h, Carry(c1, h).0, Carry(c1, h).1);
    }
  }

  /** Serving a call gives the front to nobody but the session that asks for it. */
  lemma ServeKeepsHolder(h: History, req: Request, s: Session)
    requires Consistent(h) && Consistent(Serve(h, req).0)
    ensures var es, es' := h.q.entries, Serve(h, req).0.q.entries;
      |es'| > 0 && HeldBy(es'[0], s) ==>
        && |es| > 0 && es'[0].id == es[0].id
        && (HeldBy(es[0], s) || (es[0].lease.None? && req.op.LeaseOp? && req.from == s))
  {
  }

  lemma DeliverKeepsAware(st: State, req: Request)
    requires ProgressInv(st) && AllAware(st) && Possible(st, Deliver(req))
    requires Orderly(st, Deliver(req)) && LeaseServedOnce(st, Deliver(req))
    ensures AllAware(Do(st, Deliver(req)))
  {
    var st' := Do(st, Deliver(req));
    ServeGrows(st, req);
    DeliverKeepsTheRest(st, req);
    forall s | Alive(st', s) ensures Aware(st', s, CoordOf(st', s)) {
      assert Alive(st, s) && Aware(st, s, CoordOf(st, s));
      ServeKeepsHolder(st.h, req, s);
    }
  }

  lemma PushKeepsAware(st: State, launch: Option<Launch>, to: Option<Session>)
    requires ProgressInv(st) && AllAware(st) && Possible(st, PushTo(launch, to))
    ensures AllAware(Do(st, PushTo(launch, to)))
  {
    var st' := Do(st, PushTo(launch, to));
    forall s | Alive(st', s) ensures Aware(st', s, CoordOf(st', s)) {
      assert Alive(st, s) && Aware(st, s, CoordOf(st, s));
    }
  }

  lemma ReleaseKeepsAware(st: State, s: Session)
    requires ProgressInv(st) && AllAware(st) && Possible(st, Release(s))
    ensures AllAware(Do(st, Release(s)))
  {
    var st' := Do(st, Release(s));
    DeathShape(st.h, s);
    forall t | Alive(st', t) ensures Aware(st', t, CoordOf(st', t)) {
      assert Alive(st, t) && Aware(st, t, CoordOf(st, t));
    }
  }

  lemma OpenKeepsAware(st: State, launch: Option<Launch>, s: Session, host: Host)
    requires ProgressInv(st) && AllAware(st) && Possible(st, Open(launch, s, host))
    ensures AllAware(Do(st, Open(launch, s, host)))
  {
    var st' := Do(st, Open(launch, s, host));
    assert FrontHeld(st);
    forall t | Alive(st', t) ensures Aware(st', t, CoordOf(st', t)) {
      if t != s {
        assert Alive(st, t) && Aware(st, t, CoordOf(st, t));
      }
    }
  }

  lemma RespondKeepsAware(st: State, reply: Reply)
    requires ProgressInv(st) && AllAware(st) && Possible(st, Respond(reply))
    ensures AllAware(Do(st, Respond(reply)))
  {
    var s := reply.to.from;
    match CoordOf(st, s).await
    case Idle =>
    case AwaitApply =>
    case AwaitPeek(_) => PeekAnswerKeepsAware(st, reply, s);
    case AwaitLease(_) => LeaseAnswerKeepsAware(st, reply, s);
    case AwaitDispatch(_) => VerdictKeepsAware(st, reply, s);
    case AwaitAck => VerdictKeepsAware(st, reply, s);
  }

  lemma EventKeepsAware(st: State, ev: Event)
    requires ProgressInv(st) && AllAware(st) && Possible(st, ev) && Orderly(st, ev) && LeaseServedOnce(st, ev)
    ensures AllAware(Do(st, ev))
  {
    match ev
    case PushTo(launch, to) => PushKeepsAware(st, launch, to);
    case Open(launch, s, host) => OpenKeepsAware(st, launch, s, host);
    case Signal(s) =>
      SignalMoves(st, s);
      WokenKeepsAware(st, Do(st, ev), s, Signalled(CoordOf(st, s)));
    case Poke(s) =>
      PokeMoves(st, s);
      WokenKeepsAware(st, Do(st, ev), s, Poked(CoordOf(st, s), st.windows[s].host));
    case Deliver(req) => DeliverKeepsAware(st, req);
    case Respond(reply) => RespondKeepsAware(st, reply);
    case GiveUp(s) => GiveUpKeepsAware(st, s);
    case ApplyReturns(s, outcome) => ApplyReturnsKeepsAware(st, s, outcome);
    case Release(s) => ReleaseKeepsAware(st, s);
    case ChangeHost(s, _) => RestIsAware(st, Do(st, ev));
    case Die(s) => RestIsAware(st, Do(st, ev));
  }

  lemma RestIsAware(st: State, st': State)
    requires AllAware(st) && st'.h == st.h && st'.replies == st.replies
    requires forall s :: Alive(st', s) ==> Alive(st, s) && CoordOf(st', s) == CoordOf(st, s)
    ensures AllAware(st')
  {
    forall s | Alive(st', s) ensures Aware(st', s, CoordOf(st', s)) {
      assert Aware(st, s, CoordOf(st, s));
    }
  }

  lemma {:induction false} RunKeepsAware(states: seq<State>, events: seq<Event>)
    requires LeaseOnceRun(states, events)
    ensures ProgressInv(states[|events|]) && AllAware(states[|events|])
  {
    RunKeepsProgress(states, events);
    if |events| > 0 {
      var n := |events| - 1;
      RunKeepsAware(states[..n + 1], events[..n]);
      assert states[..n + 1][n] == states[n];
      EventKeepsAware(states[n], events[n]);
    }
  }

  /** The queue is empty whenever the living window's coordinator rests and nothing is on its way. */
  lemma RestingMeansDrained(states: seq<State>, events: seq<Event>, s: Session)
    requires LeaseOnceRun(states, events) && Alive(states[|events|], s)
    requires var w := states[|events|].windows[s];
      w.coord.await.Idle? && !w.coord.blocked && !w.coord.failed && !w.host.busy && !w.poke
    requires Quiet(states[|events|], s)
    ensures CoordOf(states[|events|], s).held.None? && states[|events|].h.q.entries == []
  {
    RunKeepsAware(states, events);
    NoStrandedRequest(states, events, s);
    var st := states[|events|];
    assert WindowOk(st, s) && Aware(st, s, CoordOf(st, s)) && FrontHeld(st);
    if |st.h.q.entries| > 0 {
      var t := st.h.q.entries[0].lease.value.session;
      assert Alive(st, t);
    }
  }
}
