/**
 No request is stranded: what the protocol of `LeaseProtocol` guarantees beyond safety when the backend
 opens one compress window at a time.
 */
module LeaseProgress {
  import opened Wrappers
  import opened LeaseQueue
  import opened CompressPlan
  import opened Coordinator
  import opened LeaseProtocol

  /**
   The backend's discipline: it announces a push to the one living window, opens a window only when none
   lives, and serves a lease only for the session it takes the window to have. Messages may still be lost,
   delayed or repeated.
   */
  ghost predicate Orderly(st: State, ev: Event) {
    match ev
    case PushTo(_, to) => forall s :: Alive(st, s) ==> to == Some(s)
    case Open(_, _, _) => forall s :: !Alive(st, s)
    case Deliver(req) => req.op.LeaseOp? ==> st.current == Some(req.from)
    case _ => true
  }

  /** A lease is served once, and to a living window only while it waits for it. */
  ghost predicate LeaseServedOnce(st: State, ev: Event) {
    ev.Deliver? && ev.req.op.LeaseOp? ==>
      && (forall p :: p in st.replies ==> p.to != ev.req)
      && (Alive(st, ev.req.from) ==> Outstanding(ev.req.from, CoordOf(st, ev.req.from)) == Some(ev.req))
  }

  ghost predicate OrderlyRun(states: seq<State>, events: seq<Event>) {
    Run(states, events) && forall i :: 0 <= i < |events| ==> Orderly(states[i], events[i])
  }

  ghost predicate LeaseOnceRun(states: seq<State>, events: seq<Event>) {
    OrderlyRun(states, events) && forall i :: 0 <= i < |events| ==> LeaseServedOnce(states[i], events[i])
  }

  /** A window died and the backend has not cleaned up after it yet. */
  ghost predicate DeathPending(st: State) {
    exists s :: s in st.windows && !st.windows[s].alive && s !in st.h.dead
  }

  /** Nothing that could wake window `s` up is on its way. */
  ghost predicate Quiet(st: State, s: Session)
    requires s in st.windows
  {
    st.windows[s].signals == 0 && st.reopen == 0 && !DeathPending(st)
  }

  /** At most one request is queued, and somebody leased it. */
  ghost predicate AllLeased(st: State) {
    |st.h.q.entries| == 0 || (|st.h.q.entries| == 1 && st.h.q.entries[0].lease.Some?)
  }

  ghost predicate Asking(c: Coord) {
    c.await.AwaitPeek? || c.await.AwaitLease?
  }

  ghost predicate WindowOk(st: State, s: Session)
    requires s in st.windows
  {
    var w := st.windows[s];
    var c := w.coord;
    // before its first lease was served, the window still has a signal to act on
    && (!st.ready ==>
          && c.seenEpoch == 0 && (w.signals > 0 || c.signalEpoch > 0)
          && forall p :: p in st.replies && p.to.from == s ==> !p.to.op.LeaseOp?)
    // once its signals are seen and no more is promised, everything is leased
    && (!Asking(c) && Quiet(st, s) && c.seenEpoch == c.signalEpoch && !c.more ==> AllLeased(st))
    // the answer to the pending lease tells the truth about what is left
    && (c.await.AwaitLease? ==>
          forall p ::
            (p in st.replies && p.to == Request(s, c.tag, LeaseOp) && p.body.Taken? && !p.body.take.more
              && Quiet(st, s) && c.signalEpoch == c.await.epoch) ==> AllLeased(st))
    // a coordinator rests only when it may not go on, or is about to be poked
    && (c.await.Idle? && !w.poke ==> !MayPump(c, w.host))
  }

  ghost predicate OneWindow(st: State) {
    && (forall s, t :: Alive(st, s) && Alive(st, t) ==> s == t)
    && (forall s :: Alive(st, s) ==> st.current == Some(s))
    && (st.current.Some? ==> st.current.value in st.windows && st.current.value !in st.h.dead)
  }

  /** Only a session that is not cleaned up yet holds a lease. */
  ghost predicate FrontHeld(st: State) {
    |st.h.q.entries| > 0 && st.h.q.entries[0].lease.Some? ==>
      var s := st.h.q.entries[0].lease.value.session;
      s in st.windows && s !in st.h.dead
  }

  ghost predicate ProgressInv(st: State) {
    && Inv(st) && OneWindow(st) && FrontHeld(st)
    && (forall s :: Alive(st, s) ==> WindowOk(st, s))
  }

  /** What one stretch of the coordinator of `s` does to the facts above. */
  lemma MoveKeepsWindow(st: State, st': State, s: Session, c1: Coord, c': Coord, e: Effect)
    requires Inv(st) && Alive(st, s) && Inv(st') && c1.tag == CoordOf(st, s).tag
    requires Moved(st, st', s, c', e) && Settles(c1, st'.windows[s].host, c', e)
    requires st'.ready == st.ready && st'.reopen == st.reopen
    requires !st.ready ==>
      && c1.seenEpoch == 0 && (st'.windows[s].signals > 0 || c1.signalEpoch > 0)
      && forall p :: p in st.replies && p.to.from == s ==> !p.to.op.LeaseOp?
    requires Quiet(st', s) && c1.seenEpoch == c1.signalEpoch && !c1.more ==> AllLeased(st)
    ensures WindowOk(st', s)
  {
    forall p | p in st'.replies && c'.await.AwaitLease? ensures p.to != Request(s, c'.tag, LeaseOp) {
      assert ReplyOk(st, p) && RequestOk(st, p.to);
    }
  }

  lemma WakeKeepsWindow(st: State, st': State, s: Session, c1: Coord, h: Host)
    requires ProgressInv(st) && Alive(st, s) && Inv(st') && st'.windows.Keys == st.windows.Keys
    requires Moved(st, st', s, Pump(c1, h).0, Pump(c1, h).1) && st'.windows[s].host == h == st.windows[s].host
    requires st'.ready == st.ready && st'.reopen == st.reopen
    requires var c := CoordOf(st, s);
      && c1.held == c.held && c1.tag == c.tag && c1.await == c.await && c1.seenEpoch == c.seenEpoch && c1.more == c.more
      && (|| (c1.signalEpoch == c.signalEpoch && st'.windows[s].signals == st.windows[s].signals && !st'.windows[s].poke)
          || (c1.signalEpoch == c.signalEpoch + 1 && st'.windows[s].signals == st.windows[s].signals - 1
              && st'.windows[s].poke == st.windows[s].poke))
    ensures WindowOk(st', s)
  {
    var w := st.windows[s];
    var c := w.coord;
    assert WindowOk(st, s) && CoordOk(st, s, c);
    assert Quiet(st', s) && c1.signalEpoch == c.signalEpoch ==> Quiet(st, s);
    if c.await.Idle? {
      PumpSettles(c1, h);
      MoveKeepsWindow(st, st', s, c1, Pump(c1, h).0, Pump(c1, h).1);
    }
  }

  /** The backend's own bookkeeping stays, and so does the window's except for what `signals` and `poke` say. */
  ghost predicate Same(st: State, st': State, s: Session, signals: nat, poke: bool)
    requires s in st.windows && s in st'.windows
  {
    && st'.ready == st.ready && st'.reopen == st.reopen && st'.current == st.current
    && st'.windows[s].host == st.windows[s].host
    && st'.windows[s].signals == signals && st'.windows[s].poke == poke
  }

  lemma SignalKeepsTheRest(st: State, s: Session)
    requires Possible(st, Signal(s))
    ensures Same(st, Do(st, Signal(s)), s, st.windows[s].signals - 1, st.windows[s].poke)
  {
  }

  lemma PokeKeepsTheRest(st: State, s: Session)
    requires Possible(st, Poke(s))
    ensures Same(st, Do(st, Poke(s)), s, st.windows[s].signals, false)
  {
  }

  lemma SignalKeepsProgress(st: State, s: Session)
    requires ProgressInv(st) && Possible(st, Signal(s))
    ensures ProgressInv(Do(st, Signal(s)))
  {
    SignalKeepsInv(st, s);
    SignalMoves(st, s);
    SignalKeepsTheRest(st, s);
    WokenKeepsProgress(st, Do(st, Signal(s)), s, Signalled(CoordOf(st, s)));
  }

  lemma PokeKeepsProgress(st: State, s: Session)
    requires ProgressInv(st) && Possible(st, Poke(s))
    ensures ProgressInv(Do(st, Poke(s)))
  {
    PokeKeepsInv(st, s);
    PokeMoves(st, s);
    PokeKeepsTheRest(st, s);
    WokenKeepsProgress(st, Do(st, Poke(s)), s, Poked(CoordOf(st, s), st.windows[s].host));
  }

  lemma WokenKeepsProgress(st: State, st': State, s: Session, c1: Coord)
    requires ProgressInv(st) && Alive(st, s) && Inv(st')
    requires Moved(st, st', s, Pump(c1, st.windows[s].host).0, Pump(c1, st.windows[s].host).1)
    requires var c := CoordOf(st, s);
      && c1.held == c.held && c1.tag == c.tag && c1.await == c.await && c1.seenEpoch == c.seenEpoch && c1.more == c.more
      && (|| (c1.signalEpoch == c.signalEpoch && Same(st, st', s, st.windows[s].signals, false))
          || (c1.signalEpoch == c.signalEpoch + 1 && st.windows[s].signals > 0
              && Same(st, st', s, st.windows[s].signals - 1, st.windows[s].poke)))
    ensures ProgressInv(st')
  {
    WakeKeepsWindow(st, st', s, c1, st.windows[s].host);
    OnlyOneMoved(st, st', s);
  }

  /** A step of the one living window touches nothing else the invariant speaks about. */
  lemma OnlyOneMoved(st: State, st': State, s: Session)
    requires ProgressInv(st) && Alive(st, s) && Inv(st') && Alive(st', s) && WindowOk(st', s)
    requires st'.windows.Keys == st.windows.Keys && st'.current == st.current && st'.h == st.h
    requires forall t :: t in st.windows && t != s ==> st'.windows[t] == st.windows[t]
    ensures ProgressInv(st')
  {
    forall t | Alive(st', t) ensures t == s {
      assert Alive(st, t);
    }
  }

  /** A round that ends: nothing is being asked any more, or everything starts afresh. */
  lemma SettledKeepsProgress(st: State, st': State, s: Session, c1: Coord, c': Coord, e: Effect)
    requires ProgressInv(st) && Alive(st, s) && Inv(st') && c1.tag == CoordOf(st, s).tag
    requires Moved(st, st', s, c', e) && Settles(c1, st.windows[s].host, c', e)
    requires st'.windows[s].host == st.windows[s].host && st'.windows[s].signals == st.windows[s].signals
    requires st'.ready == st.ready && st'.reopen == st.reopen && st'.current == st.current
    requires c1.signalEpoch == CoordOf(st, s).signalEpoch
    requires c1.seenEpoch == CoordOf(st, s).seenEpoch || st.ready
    requires Quiet(st, s) && c1.seenEpoch == c1.signalEpoch && !c1.more ==> AllLeased(st)
    ensures ProgressInv(st')
  {
    assert WindowOk(st, s);
    MoveKeepsWindow(st, st', s, c1, c', e);
    OnlyOneMoved(st, st', s);
  }

  /** Giving up on a call, or getting any answer but the one to a lease, leaves the epochs and `more` alone. */
  lemma SameCountsKeepProgress(st: State, st': State, s: Session, c1: Coord, c': Coord, e: Effect)
    requires ProgressInv(st) && Alive(st, s) && Inv(st') && c1.tag == CoordOf(st, s).tag
    requires Moved(st, st', s, c', e) && Settles(c1, st.windows[s].host, c', e)
    requires st'.windows[s].host == st.windows[s].host && st'.windows[s].signals == st.windows[s].signals
    requires st'.ready == st.ready && st'.reopen == st.reopen && st'.current == st.current
    requires var c := CoordOf(st, s); c1.signalEpoch == c.signalEpoch && c1.seenEpoch == c.seenEpoch && c1.more == c.more
    ensures ProgressInv(st')
  {
    assert WindowOk(st, s) && CoordOk(st, s, CoordOf(st, s));
    SettledKeepsProgress(st, st', s, c1, c', e);
  }

  lemma GiveUpKeepsProgress(st: State, s: Session)
    requires ProgressInv(st) && Possible(st, GiveUp(s))
    ensures ProgressInv(Do(st, GiveUp(s)))
  {
    GiveUpKeepsInv(st, s);
    FinishedKeepsProgress(st, Do(st, GiveUp(s)), s, Fail(CoordOf(st, s)));
  }

  lemma FinishedKeepsProgress(st: State, st': State, s: Session, c1: Coord)
    requires ProgressInv(st) && Alive(st, s) && Inv(st') && c1.tag == CoordOf(st, s).tag
    requires Moved(st, st', s, Finish(c1, st.windows[s].host).0, Finish(c1, st.windows[s].host).1)
    requires Same(st, st', s, st.windows[s].signals, st.windows[s].poke)
    requires var c := CoordOf(st, s); c1.signalEpoch == c.signalEpoch && c1.seenEpoch == c.seenEpoch && c1.more == c.more
    ensures ProgressInv(st')
  {
    assert CoordOk(st, s, CoordOf(st, s));
    var h := st.windows[s].host;
    FinishSettles(c1, h);
    SameCountsKeepProgress(st, st', s, c1, Finish(c1, h).0, Finish(c1, h).1);
  }

  lemma ApplyKeepsTheRest(st: State, s: Session, outcome: Option<bool>)
    requires Possible(st, ApplyReturns(s, outcome)) && CoordOf(st, s).held.Some?
    ensures Same(st, Do(st, ApplyReturns(s, outcome)), s, st.windows[s].signals, st.windows[s].poke)
  {
  }

  lemma ApplySucceedsKeepsProgress(st: State, s: Session)
    requires ProgressInv(st) && Possible(st, ApplyReturns(s, Some(true)))
    ensures ProgressInv(Do(st, ApplyReturns(s, Some(true))))
  {
    var c := CoordOf(st, s);
    assert CoordOk(st, s, c);
    var c1 := c.(held := Some(c.held.value.(stage := Applied)));
    var done := st.(applied := st.applied + [(c.held.value.id, s)]);
    ApplySucceedsKeepsInv(st, s);
    ApplySucceedsMoves(st, s, c, c1, done);
    ApplyKeepsTheRest(st, s, Some(true));
    AskedAckKeepsProgress(st, Do(st, ApplyReturns(s, Some(true))), s, c1, done);
  }

  lemma AskedAckKeepsProgress(st: State, st': State, s: Session, c1: Coord, done: State)
    requires ProgressInv(st) && Alive(st, s) && Inv(st') && c1.held.Some?
    requires done == st.(applied := done.applied) && Moved(done, st', s, AskAck(c1).0, AskAck(c1).1)
    requires Same(st, st', s, st.windows[s].signals, st.windows[s].poke)
    requires c1 == CoordOf(st, s).(held := c1.held) && !Asking(c1)
    ensures ProgressInv(st')
  {
    assert WindowOk(st, s);
    OnlyOneMoved(st, st', s);
  }

  lemma ApplyReturnsKeepsProgress(st: State, s: Session, outcome: Option<bool>)
    requires ProgressInv(st) && Possible(st, ApplyReturns(s, outcome))
    ensures ProgressInv(Do(st, ApplyReturns(s, outcome)))
  {
    if outcome == Some(true) {
      ApplySucceedsKeepsProgress(st, s);
    } else {
      assert CoordOk(st, s, CoordOf(st, s));
      ApplyReturnsKeepsInv(st, s, outcome);
      ApplyFailsMoves(st, s, outcome);
      ApplyKeepsTheRest(st, s, outcome);
      FinishedKeepsProgress(st, Do(st, ApplyReturns(s, outcome)), s, Fail(CoordOf(st, s)));
    }
  }

  // ---- Answers ----

  lemma RespondKeepsTheRest(st: State, reply: Reply)
    requires Possible(st, Respond(reply))
    ensures var s := reply.to.from;
      Same(st, Do(st, Respond(reply)), s, st.windows[s].signals, st.windows[s].poke)
  {
  }

  lemma LeaseAnswerKeepsProgress(st: State, reply: Reply, s: Session)
    requires ProgressInv(st) && Possible(st, Respond(reply)) && s == reply.to.from && CoordOf(st, s).await.AwaitLease?
    ensures ProgressInv(Do(st, Respond(reply)))
  {
    var c, h, take, st' := CoordOf(st, s), st.windows[s].host, reply.body.take, Do(st, Respond(reply));
    RespondKeepsInv(st, reply);
    RespondMoves(st, reply);
    RespondKeepsTheRest(st, reply);
    assert ReplyOk(st, reply) && CoordOk(st, s, c) && WindowOk(st, s);
    var seen := c.(seenEpoch := c.await.epoch, more := take.more);
    if take.launch.None? {
      FinishSettles(seen, h);
      SettledKeepsProgress(st, st', s, seen, Finish(seen, h).0, Finish(seen, h).1);
    } else {
      var c1 := seen.(held := Some(Held(take.id, take.gen, take.launch.value, Leased)));
      CarrySettles(c1, h);
      SettledKeepsProgress(st, st', s, c1, Carry(c1, h).0, Carry(c1, h).1);
    }
  }

  lemma PeekAnswerMoves(st: State, reply: Reply, s: Session)
    requires Possible(st, Respond(reply)) && s == reply.to.from && CoordOf(st, s).await.AwaitPeek? && reply.body.Peeked?
    ensures var c, h, st' := CoordOf(st, s), st.windows[s].host, Do(st, Respond(reply));
      if reply.body.standalone then
        Moved(st, st', s, Finish(c.(blocked := true), h).0, Finish(c.(blocked := true), h).1)
      else Moved(st, st', s, AskLease(c, c.await.epoch).0, AskLease(c, c.await.epoch).1)
  {
    RespondMoves(st, reply);
  }

  lemma AckAnswerMoves(st: State, reply: Reply, s: Session, c1: Coord)
    requires Possible(st, Respond(reply)) && s == reply.to.from && CoordOf(st, s).await.AwaitAck? && reply.body.Verdict?
    requires CoordOf(st, s).held.Some?
    requires c1 == if reply.body.ack.Stale? then Refused(CoordOf(st, s)) else CoordOf(st, s).(held := None)
    ensures Moved(st, Do(st, Respond(reply)), s, Finish(c1, st.windows[s].host).0, Finish(c1, st.windows[s].host).1)
  {
    RespondMoves(st, reply);
  }

  lemma AskedAfterPeekKeepsProgress(st: State, st': State, s: Session, c: Coord)
    requires ProgressInv(st) && Alive(st, s) && Inv(st') && c == CoordOf(st, s) && c.await.AwaitPeek?
    requires Moved(st, st', s, AskLease(c, c.await.epoch).0, AskLease(c, c.await.epoch).1)
    requires Same(st, st', s, st.windows[s].signals, st.windows[s].poke)
    ensures ProgressInv(st')
  {
    assert CoordOk(st, s, c);
    SameCountsKeepProgress(st, st', s, c, AskLease(c, c.await.epoch).0, AskLease(c, c.await.epoch).1);
  }

  lemma PeekAnswerKeepsProgress(st: State, reply: Reply, s: Session)
    requires ProgressInv(st) && Possible(st, Respond(reply)) && s == reply.to.from && CoordOf(st, s).await.AwaitPeek?
    ensures ProgressInv(Do(st, Respond(reply)))
  {
    var c := CoordOf(st, s);
    RespondKeepsInv(st, reply);
    RespondKeepsTheRest(st, reply);
    assert ReplyOk(st, reply) && CoordOk(st, s, c);
    PeekAnswerMoves(st, reply, s);
    if reply.body.standalone {
      FinishedKeepsProgress(st, Do(st, Respond(reply)), s, c.(blocked := true));
    } else {
      AskedAfterPeekKeepsProgress(st, Do(st, Respond(reply)), s, c);
    }
  }

  lemma DispatchAnswerKeepsProgress(st: State, reply: Reply, s: Session)
    requires ProgressInv(st) && Possible(st, Respond(reply)) && s == reply.to.from && CoordOf(st, s).await.AwaitDispatch?
    ensures ProgressInv(Do(st, Respond(reply)))
  {
    var c, h, st' := CoordOf(st, s), st.windows[s].host, Do(st, Respond(reply));
    RespondKeepsInv(st, reply);
    RespondMoves(st, reply);
    RespondKeepsTheRest(st, reply);
    assert ReplyOk(st, reply) && CoordOk(st, s, c);
    if reply.body.ack.Stale? {
      FinishedKeepsProgress(st, st', s, Refused(c));
    } else {
      var c1 := c.(held := Some(c.held.value.(stage := Dispatched(c.await.plan))));
      CarrySettles(c1, h);
      SameCountsKeepProgress(st, st', s, c1, Carry(c1, h).0, Carry(c1, h).1);
    }
  }

  lemma AckAnswerKeepsProgress(st: State, reply: Reply, s: Session)
    requires ProgressInv(st) && Possible(st, Respond(reply)) && s == reply.to.from && CoordOf(st, s).await.AwaitAck?
    ensures ProgressInv(Do(st, Respond(reply)))
  {
    var c, st' := CoordOf(st, s), Do(st, Respond(reply));
    assert reply.body.Verdict? && c.held.Some? by {
      assert ReplyOk(st, reply) && CoordOk(st, s, c);
    }
    var c1 := if reply.body.ack.Stale? then Refused(c) else c.(held := None);
    RespondKeepsInv(st, reply);
    RespondKeepsTheRest(st, reply);
    AckAnswerMoves(st, reply, s, c1);
    FinishedKeepsProgress(st, st', s, c1);
  }

  lemma RespondKeepsProgress(st: State, reply: Reply)
    requires ProgressInv(st) && Possible(st, Respond(reply))
    ensures ProgressInv(Do(st, Respond(reply)))
  {
    var s := reply.to.from;
    match CoordOf(st, s).await
    case Idle =>
    case AwaitApply =>
    case AwaitPeek(_) => PeekAnswerKeepsProgress(st, reply, s);
    case AwaitLease(_) => LeaseAnswerKeepsProgress(st, reply, s);
    case AwaitDispatch(_) => DispatchAnswerKeepsProgress(st, reply, s);
    case AwaitAck => AckAnswerKeepsProgress(st, reply, s);
  }

  // ---- The backend acts ----

  /** Serving a request leases, shortens or keeps the queue, so what was all leased stays so. */
  lemma ServeKeepsLeased(h: History, req: Request)
    requires Consistent(h)
    ensures var es, es' := h.q.entries, Serve(h, req).0.q.entries;
      && (|es| == 0 ==> es' == es)
      && (|es| == 1 && es[0].lease.Some? ==> |es'| == 0 || (|es'| == 1 && es'[0].lease.Some?))
  {
  }

  /** Only the session whose lease is served can come to hold the front. */
  lemma ServedFront(h: History, req: Request)
    requires Consistent(h)
    ensures var es, es' := h.q.entries, Serve(h, req).0.q.entries;
      |es'| > 0 && es'[0].lease.Some? ==>
        && |es| > 0
        && ((es[0].lease.Some? && es[0].lease.value.session == es'[0].lease.value.session)
            || (req.op.LeaseOp? && es'[0].lease.value.session == req.from))
  {
  }

  lemma ServeKeepsFrontHeld(st: State, req: Request)
    requires ProgressInv(st) && Possible(st, Deliver(req)) && Orderly(st, Deliver(req))
    ensures FrontHeld(Do(st, Deliver(req)))
  {
    ServedFront(st.h, req);
    DeliverKeepsTheRest(st, req);
    assert FrontHeld(st) && OneWindow(st);
  }

  /** The answer to a lease from the living window: if no more is promised, everything is leased, or a death is pending. */
  lemma LeaseAnswerIsTrue(st: State, req: Request)
    requires ProgressInv(st) && Possible(st, Deliver(req)) && Orderly(st, Deliver(req)) && req.op.LeaseOp?
    requires Alive(st, req.from)
    ensures var (h', body) := Serve(st.h, req);
      body.Taken? && !body.take.more && !DeathPending(st) ==> AllLeased(Do(st, Deliver(req)))
  {
    if |st.h.q.entries| > 0 && st.h.q.entries[0].lease.Some? && !HeldBy(st.h.q.entries[0], req.from) {
      var s := st.h.q.entries[0].lease.value.session;
      assert Alive(st, s) ==> s == req.from;
      assert DeathPending(st);
    }
  }

  /** What serving `req` leaves alone. */
  lemma DeliverKeepsTheRest(st: State, req: Request)
    requires Possible(st, Deliver(req))
    ensures var st' := Do(st, Deliver(req));
      && st'.windows == st.windows && st'.reopen == st.reopen && st'.h.dead == st.h.dead && st'.current == st.current
      && st'.ready == (st.ready || req.op.LeaseOp?)
      && st'.replies == st.replies + {Reply(req, Serve(st.h, req).1)} && st'.h == Serve(st.h, req).0
  {
  }

  lemma DeliverKeepsWindow(st: State, st': State, req: Request, body: Body, s: Session)
    requires ProgressInv(st) && req in st.sent && Alive(st, s)
    requires st'.windows == st.windows && st'.reopen == st.reopen && st'.h.dead == st.h.dead
    requires st'.ready == (st.ready || req.op.LeaseOp?) && st'.replies == st.replies + {Reply(req, body)}
    requires AllLeased(st) ==> AllLeased(st')
    requires req.op.LeaseOp? && body.Taken? && !body.take.more && !DeathPending(st) ==> AllLeased(st')
    ensures WindowOk(st', s)
  {
    assert WindowOk(st, s) && CoordOk(st, s, CoordOf(st, s)) && RequestOk(st, req);
    assert DeathPending(st) <==> DeathPending(st');
  }

  lemma DeliverKeepsProgress(st: State, req: Request)
    requires ProgressInv(st) && Possible(st, Deliver(req)) && Orderly(st, Deliver(req))
    ensures ProgressInv(Do(st, Deliver(req)))
  {
    var st' := Do(st, Deliver(req));
    DeliverKeepsInv(st, req);
    ServeKeepsFrontHeld(st, req);
    DeliverKeepsTheRest(st, req);
    ServeKeepsLeased(st.h, req);
    forall s | Alive(st', s) ensures WindowOk(st', s) {
      assert Alive(st, s);
      if req.op.LeaseOp? {
        LeaseAnswerIsTrue(st, req);
      }
      DeliverKeepsWindow(st, st', req, Serve(st.h, req).1, s);
    }
    assert forall s :: Alive(st', s) ==> Alive(st, s);
  }

  /** What a push leaves alone, and how it wakes the living window. */
  lemma PushKeepsTheRest(st: State, launch: Option<Launch>, to: Option<Session>)
    requires Possible(st, PushTo(launch, to))
    ensures var st' := Do(st, PushTo(launch, to));
      && st'.h == PushIfAny(st.h, launch) && st'.current == st.current && st'.ready == st.ready
      && st'.replies == st.replies && st'.windows.Keys == st.windows.Keys
      && (launch.Some? ==> st'.reopen == st.reopen)
      && forall s :: s in st.windows ==>
           st'.windows[s]
           == if to == Some(s) && st.ready then st.windows[s].(signals := st.windows[s].signals + 1) else st.windows[s]
  {
  }

  lemma PushKeepsWindow(st: State, st': State, launch: Option<Launch>, s: Session)
    requires Alive(st, s) && WindowOk(st, s) && Alive(st', s) && WellStaged(CoordOf(st, s))
    requires st'.replies == st.replies && st'.ready == st.ready && st'.windows.Keys == st.windows.Keys
    requires (launch.Some? ==> st'.reopen == st.reopen) && st'.h == PushIfAny(st.h, launch)
    requires forall t :: t in st.windows ==> st'.windows[t].alive == st.windows[t].alive
    requires st'.windows[s] == if st.ready then st.windows[s].(signals := st.windows[s].signals + 1) else st.windows[s]
    ensures WindowOk(st', s)
  {
  }

  lemma PushKeepsFrontHeld(st: State, st': State, launch: Option<Launch>)
    requires FrontHeld(st) && OneWindow(st) && st'.h == PushIfAny(st.h, launch) && st'.windows.Keys == st.windows.Keys
    requires forall s :: s in st.windows ==> st'.windows[s].alive == st.windows[s].alive
    requires st'.current == st.current
    ensures FrontHeld(st') && OneWindow(st')
  {
    assert forall s :: Alive(st', s) <==> Alive(st, s);
  }

  lemma PushKeepsProgress(st: State, launch: Option<Launch>, to: Option<Session>)
    requires ProgressInv(st) && Possible(st, PushTo(launch, to)) && Orderly(st, PushTo(launch, to))
    ensures ProgressInv(Do(st, PushTo(launch, to)))
  {
    var st' := Do(st, PushTo(launch, to));
    PushKeepsInv(st, launch, to);
    PushKeepsTheRest(st, launch, to);
    PushKeepsFrontHeld(st, st', launch);
    forall s | Alive(st', s) ensures WindowOk(st', s) {
      assert Alive(st, s) && WindowOk(st, s);
      assert WellStaged(CoordOf(st, s)) by {
        assert CoordOk(st, s, CoordOf(st, s));
      }
      PushKeepsWindow(st, st', launch, s);
    }
  }

  lemma OpenKeepsProgress(st: State, launch: Option<Launch>, s: Session, host: Host)
    requires ProgressInv(st) && Possible(st, Open(launch, s, host)) && Orderly(st, Open(launch, s, host))
    ensures ProgressInv(Do(st, Open(launch, s, host)))
  {
    var st' := Do(st, Open(launch, s, host));
    OpenKeepsInv(st, launch, s, host);
    assert forall t :: Alive(st', t) ==> t == s || Alive(st, t);
    assert FrontHeld(st);
    forall p | p in st'.replies ensures p.to.from != s {
      assert ReplyOk(st, p) && RequestOk(st, p.to);
    }
  }

  lemma ChangeHostKeepsProgress(st: State, s: Session, host: Host)
    requires ProgressInv(st) && Possible(st, ChangeHost(s, host))
    ensures ProgressInv(Do(st, ChangeHost(s, host)))
  {
    var st' := Do(st, ChangeHost(s, host));
    ChangeHostKeepsInv(st, s, host);
    assert WindowOk(st, s);
    assert Quiet(st', s) <==> Quiet(st, s) by {
      assert forall t :: t in st.windows ==> st'.windows[t].alive == st.windows[t].alive;
    }
    OnlyOneMoved(st, st', s);
  }

  lemma DieKeepsProgress(st: State, s: Session)
    requires ProgressInv(st) && Possible(st, Die(s))
    ensures ProgressInv(Do(st, Die(s)))
  {
    var st' := Do(st, Die(s));
    DieKeepsInv(st, s);
    assert forall t :: Alive(st', t) ==> Alive(st, t) && t != s;
    assert FrontHeld(st);
  }

  /** After a death is cleaned up, either somebody will open or wake a window, or every request left is leased. */
  lemma ReleaseLeavesLeased(st: State, s: Session)
    requires ProgressInv(st) && Possible(st, Release(s))
    ensures var st' := Do(st, Release(s)); st'.reopen > 0 || AllLeased(st')
  {
    StepKeepsConsistent(st.h, DoRelease(s));
    var es := Do(st, Release(s)).h.q.entries;
    if |es| > 1 {
      assert es[1].lease.None?;
    } else if |es| == 1 && es[0].lease.None? {
      assert es[0].lease.None?;
    }
  }

  /** What cleaning up after `s` leaves alone. */
  lemma ReleaseKeepsTheRest(st: State, s: Session)
    requires Possible(st, Release(s))
    ensures var st' := Do(st, Release(s));
      && st'.windows == st.windows && st'.replies == st.replies && st'.ready == st.ready
      && st'.h == Step(st.h, DoRelease(s)).0 && st'.reopen >= st.reopen
      && st'.current == if st.current == Some(s) then None else st.current
  {
  }

  lemma ReleaseKeepsFrontHeld(st: State, h': History, s: Session)
    requires ProgressInv(st) && h' == Step(st.h, DoRelease(s)).0
    ensures |h'.q.entries| > 0 && h'.q.entries[0].lease.Some? ==>
              var t := h'.q.entries[0].lease.value.session; t in st.windows && t !in h'.dead
  {
    DeathShape(st.h, s);
    assert FrontHeld(st);
  }

  lemma ReleaseKeepsWindow(st: State, st': State, s: Session, t: Session)
    requires Alive(st, t) && WindowOk(st, t) && s in st.windows && !st.windows[s].alive && s !in st.h.dead
    requires st'.windows == st.windows && st'.replies == st.replies && st'.ready == st.ready
    requires st'.reopen > 0 || AllLeased(st')
    ensures WindowOk(st', t)
  {
  }

  lemma ReleaseKeepsProgress(st: State, s: Session)
    requires ProgressInv(st) && Possible(st, Release(s))
    ensures ProgressInv(Do(st, Release(s)))
  {
    var st' := Do(st, Release(s));
    ReleaseKeepsInv(st, s);
    ReleaseLeavesLeased(st, s);
    ReleaseKeepsTheRest(st, s);
    ReleaseKeepsFrontHeld(st, st'.h, s);
    forall t | Alive(st', t) ensures WindowOk(st', t) {
      assert Alive(st, t);
      ReleaseKeepsWindow(st, st', s, t);
    }
    assert forall t :: Alive(st', t) ==> Alive(st, t);
  }

  lemma EventKeepsProgress(st: State, ev: Event)
    requires ProgressInv(st) && Possible(st, ev) && Orderly(st, ev)
    ensures ProgressInv(Do(st, ev))
  {
    match ev
    case PushTo(launch, to) => PushKeepsProgress(st, launch, to);
    case Open(launch, s, host) => OpenKeepsProgress(st, launch, s, host);
    case Signal(s) => SignalKeepsProgress(st, s);
    case ChangeHost(s, host) => ChangeHostKeepsProgress(st, s, host);
    case Poke(s) => PokeKeepsProgress(st, s);
    case Deliver(req) => DeliverKeepsProgress(st, req);
    case Respond(reply) => RespondKeepsProgress(st, reply);
    case GiveUp(s) => GiveUpKeepsProgress(st, s);
    case ApplyReturns(s, outcome) => ApplyReturnsKeepsProgress(st, s, outcome);
    case Die(s) => DieKeepsProgress(st, s);
    case Release(s) => ReleaseKeepsProgress(st, s);
  }

  lemma {:induction false} RunKeepsProgress(states: seq<State>, events: seq<Event>)
    requires OrderlyRun(states, events)
    ensures ProgressInv(states[|events|])
  {
    if |events| > 0 {
      var n := |events| - 1;
      RunKeepsProgress(states[..n + 1], events[..n]);
      assert states[..n + 1][n] == states[n];
      EventKeepsProgress(states[n], events[n]);
    }
  }

  /**
   No stranded request: when the coordinator of the living window rests, neither blocked nor failed nor
   busy, with no signal, poke, reopening thread or unfinished death on its way, it holds nothing and every
   queued request is leased.
   */
  lemma NoStrandedRequest(states: seq<State>, events: seq<Event>, s: Session)
    requires OrderlyRun(states, events) && Alive(states[|events|], s)
    requires var w := states[|events|].windows[s];
      w.coord.await.Idle? && !w.coord.blocked && !w.coord.failed && !w.host.busy && !w.poke
    requires Quiet(states[|events|], s)
    ensures CoordOf(states[|events|], s).held.None?
    ensures !LeaseQueue.HasUnleased(states[|events|].h.q)
  {
    RunKeepsProgress(states, events);
    assert WindowOk(states[|events|], s);
  }
}
