/**
 The whole compress-request protocol: one backend queue, any number of windows each running a
 coordinator, and a network between them that may lose, delay, reorder and repeat every message.

 A request once sent stays in `sent` and may reach the backend at any later time, any number of times,
 also after its window died; an answer once given stays in `replies`; a window may give up on an answer
 at any time. Windows die at any step. The module ends with the safety theorems over all runs.
 */
module LeaseProtocol {
  import opened Wrappers
  import opened LeaseQueue
  import opened CompressPlan
  import opened Coordinator

  datatype Op = PeekOp | LeaseOp | DispatchOp(id: nat, gen: nat) | AckOp(id: nat, gen: nat)

  datatype Request = Request(from: Session, tag: nat, op: Op)

  datatype Body = Peeked(standalone: bool) | Taken(take: Take) | Verdict(ack: Ack)

  datatype Reply = Reply(to: Request, body: Body)

  /** `signals` counts announcements on their way to the window; `poke` tells that its state changed since its last poke. */
  datatype Window = Window(coord: Coord, host: Host, alive: bool, signals: nat, poke: bool)

  /**
   `current` is the session the backend takes the compress window to have, `reopen` counts the threads that
   will open the window again, `calls` and `applied` record which session called `apply` for a request,
   and which calls came back true.
   */
  datatype State = State(
    h: History,
    ready: bool,
    current: Option<Session>,
    windows: map<Session, Window>,
    sent: set<Request>,
    replies: set<Reply>,
    calls: set<(nat, Session)>,
    applied: seq<(nat, Session)>,
    reopen: nat)

  const INIT := State(LeaseQueue.START, false, None, map[], {}, {}, {}, [], 0)

  /** A launch of `None` is a reopening thread, which brings no request of its own. */
  datatype Event =
    | PushTo(launch: Option<Launch>, to: Option<Session>)
    | Open(launch: Option<Launch>, session: Session, host: Host)
    | Signal(session: Session)
    | ChangeHost(session: Session, host: Host)
    | Poke(session: Session)
    | Deliver(req: Request)
    | Respond(reply: Reply)
    | GiveUp(session: Session)
    | ApplyReturns(session: Session, outcome: Option<bool>)
    | Die(session: Session)
    | Release(session: Session)

  predicate Alive(st: State, s: Session) {
    s in st.windows && st.windows[s].alive
  }

  function CoordOf(st: State, s: Session): Coord
    requires s in st.windows
  {
    st.windows[s].coord
  }

  /** The call window `s` is waiting for, if it waits for the backend. */
  function Outstanding(s: Session, c: Coord): Option<Request> {
    match c.await
    case Idle => None
    case AwaitApply => None
    case AwaitPeek(_) => Some(Request(s, c.tag, PeekOp))
    case AwaitLease(_) => Some(Request(s, c.tag, LeaseOp))
    case AwaitDispatch(_) =>
      if c.held.None? then None else Some(Request(s, c.tag, DispatchOp(c.held.value.id, c.held.value.gen)))
    case AwaitAck =>
      if c.held.None? then None else Some(Request(s, c.tag, AckOp(c.held.value.id, c.held.value.gen)))
  }

  /** The request `e` sends on behalf of window `s`. */
  function Sends(s: Session, e: Effect): set<Request> {
    match e
    case NoEffect => {}
    case CallApply(_) => {}
    case CallPeek(tag) => {Request(s, tag, PeekOp)}
    case CallLease(tag) => {Request(s, tag, LeaseOp)}
    case CallDispatch(tag, id, gen) => {Request(s, tag, DispatchOp(id, gen))}
    case CallAck(tag, id, gen) => {Request(s, tag, AckOp(id, gen))}
  }

  function SetCoord(st: State, s: Session, c: Coord): State
    requires s in st.windows
  {
    st.(windows := st.windows[s := st.windows[s].(coord := c)])
  }

  /** Window `s` moves to coordinator `c` and does what `e` says. */
  function Absorb(st: State, s: Session, c: Coord, e: Effect): State
    requires s in st.windows
  {
    SetCoord(st, s, c).(
      sent := st.sent + Sends(s, e),
      calls := st.calls + (if e.CallApply? && c.held.Some? then {(c.held.value.id, s)} else {}))
  }

  function AbsorbPair(st: State, s: Session, r: (Coord, Effect)): State
    requires s in st.windows
  {
    Absorb(st, s, r.0, r.1)
  }

  /** The backend serves `req`. */
  function Serve(h: History, req: Request): (History, Body) {
    match req.op
    case PeekOp => (h, Peeked(|h.q.entries| > 0 && IsStandalone(h.q.entries[0].launch)))
    case LeaseOp => (Step(h, DoLease(req.from)).0, Taken(Step(h, DoLease(req.from)).1.take))
    case DispatchOp(id, gen) => (Step(h, DoDispatch(id, gen)).0, Verdict(Step(h, DoDispatch(id, gen)).1.ack))
    case AckOp(id, gen) => (Step(h, DoAck(id, gen)).0, Verdict(Step(h, DoAck(id, gen)).1.ack))
  }

  function PushIfAny(h: History, launch: Option<Launch>): History {
    if launch.None? then h else Step(h, DoPush(launch.value)).0
  }

  predicate Possible(st: State, ev: Event) {
    match ev
    case PushTo(launch, to) =>
      (launch.None? ==> st.reopen > 0) && (to.Some? ==> to.value in st.windows)
    case Open(launch, s, _) => (launch.None? ==> st.reopen > 0) && s !in st.windows
    case Signal(s) => Alive(st, s) && st.windows[s].signals > 0
    case ChangeHost(s, _) => Alive(st, s)
    case Poke(s) => Alive(st, s)
    case Deliver(req) => req in st.sent
    case Respond(reply) =>
      && reply in st.replies && Alive(st, reply.to.from)
      && Outstanding(reply.to.from, st.windows[reply.to.from].coord) == Some(reply.to)
    case GiveUp(s) => Alive(st, s) && Outstanding(s, st.windows[s].coord).Some?
    case ApplyReturns(s, _) => Alive(st, s) && st.windows[s].coord.await.AwaitApply?
    case Die(s) => Alive(st, s)
    case Release(s) => s in st.windows && !st.windows[s].alive && s !in st.h.dead
  }

  /** Window `s` resumes with `reply`. */
  function Resume(st: State, s: Session, reply: Reply): (Coord, Effect)
    requires s in st.windows
  {
    var c, host := st.windows[s].coord, st.windows[s].host;
    if c.await.AwaitPeek? && reply.body.Peeked? then OnPeek(c, host, Some(reply.body.standalone))
    else if c.await.AwaitLease? && reply.body.Taken? then OnLease(c, host, Some(reply.body.take))
    else if c.await.AwaitDispatch? && c.held.Some? && reply.body.Verdict? then OnDispatch(c, host, Some(reply.body.ack))
    else if c.await.AwaitAck? && c.held.Some? && reply.body.Verdict? then OnAck(c, host, Some(reply.body.ack))
    else (c, NoEffect)
  }

  /** Window `s` stops waiting for the backend. */
  function Abandon(st: State, s: Session): (Coord, Effect)
    requires s in st.windows
  {
    Finish(Fail(st.windows[s].coord), st.windows[s].host)
  }

  /** The state after `ev`. */
  function Do(st: State, ev: Event): State
    requires Possible(st, ev)
  {
    match ev
    case PushTo(launch, to) =>
      var pushed := st.(h := PushIfAny(st.h, launch), reopen := if launch.None? then st.reopen - 1 else st.reopen);
      if to.Some? && st.ready then
        var w := st.windows[to.value];
        pushed.(windows := st.windows[to.value := w.(signals := w.signals + 1)])
      else pushed
    case Open(launch, s, host) =>
      // the window mounts with one signal, and is poked once it is set up
      st.(h := PushIfAny(st.h, launch), reopen := if launch.None? then st.reopen - 1 else st.reopen,
          ready := false, current := Some(s),
          windows := st.windows[s := Window(FRESH, host, true, 1, true)])
    case Signal(s) =>
      var w := st.windows[s];
      AbsorbPair(st.(windows := st.windows[s := w.(signals := w.signals - 1)]), s, OnSignal(w.coord, w.host))
    case ChangeHost(s, host) =>
      st.(windows := st.windows[s := st.windows[s].(host := host, poke := true)])
    case Poke(s) =>
      var w := st.windows[s];
      AbsorbPair(st.(windows := st.windows[s := w.(poke := false)]), s, OnPoke(w.coord, w.host))
    case Deliver(req) =>
      var (h, body) := Serve(st.h, req);
      st.(h := h, ready := st.ready || req.op.LeaseOp?, replies := st.replies + {Reply(req, body)})
    case Respond(reply) => AbsorbPair(st, reply.to.from, Resume(st, reply.to.from, reply))
    case GiveUp(s) => AbsorbPair(st, s, Abandon(st, s))
    case ApplyReturns(s, outcome) =>
      var w := st.windows[s];
      if w.coord.held.None? then st
      else
        var done := if outcome == Some(true) then st.(applied := st.applied + [(w.coord.held.value.id, s)]) else st;
        AbsorbPair(done, s, OnApply(w.coord, w.host, outcome))
    case Die(s) => st.(windows := st.windows[s := st.windows[s].(alive := false)])
    case Release(s) =>
      var h := Step(st.h, DoRelease(s)).0;
      st.(h := h,
          current := if st.current == Some(s) then None else st.current,
          reopen := if LeaseQueue.HasUnleased(h.q) then st.reopen + 1 else st.reopen)
  }

  ghost predicate Run(states: seq<State>, events: seq<Event>) {
    && |states| == |events| + 1 && states[0] == INIT
    && forall i :: 0 <= i < |events| ==> Possible(states[i], events[i]) && states[i + 1] == Do(states[i], events[i])
  }

  // ---- The invariant ----

  /** Generation `gen` was granted to `s` for request `id`, which was pushed. */
  ghost predicate Owns(h: History, id: nat, gen: nat, s: Session) {
    Granted(h, id, gen, s) && 1 <= id <= |h.pushes|
  }

  ghost predicate RequestOk(st: State, r: Request) {
    && r.from in st.windows && r.tag <= st.windows[r.from].coord.tag
    && (r.op.DispatchOp? ==> Owns(st.h, r.op.id, r.op.gen, r.from) && !IsEmpty(st.h.pushes[r.op.id - 1]))
    && (r.op.AckOp? ==>
          && Owns(st.h, r.op.id, r.op.gen, r.from)
          && (IsEmpty(st.h.pushes[r.op.id - 1]) || (r.op.id, r.from) in st.applied))
  }

  /** What an answer says stays true, as far as anyone relies on it. */
  ghost predicate ReplyOk(st: State, p: Reply) {
    && p.to in st.sent
    && match p.to.op
       case PeekOp => p.body.Peeked?
       case LeaseOp =>
         && p.body.Taken?
         && var t := p.body.take;
            t.launch.Some? ==> Owns(st.h, t.id, t.gen, p.to.from) && t.launch.value == st.h.pushes[t.id - 1]
       case DispatchOp(id, gen) =>
         && p.body.Verdict?
         && (p.body.ack.Stale? && p.to.from !in st.h.dead ==> !Queued(st.h, id))
         && (!p.body.ack.Stale? ==> !Queued(st.h, id) || (id in st.h.dispatches && st.h.dispatches[id] == gen))
       case AckOp(id, gen) =>
         && p.body.Verdict?
         && (!p.body.ack.Stale? || p.to.from !in st.h.dead ==> !Queued(st.h, id))
  }

  /** A window is through with request `id`: it left the queue, or only its acknowledgement is missing. */
  ghost predicate Through(st: State, c: Coord, id: nat) {
    !Queued(st.h, id) || (c.held.Some? && c.held.value.id == id && c.held.value.stage.Applied?)
  }

  ghost predicate HeldOk(st: State, s: Session, held: Held) {
    && Owns(st.h, held.id, held.gen, s) && held.launch == st.h.pushes[held.id - 1]
    && (!held.stage.Applied? ==> Queued(st.h, held.id))
    && (held.stage.Dispatched? ==>
          held.id in st.h.dispatches && st.h.dispatches[held.id] == held.gen && !IsEmpty(held.launch))
    && (held.stage.Applied? ==> IsEmpty(held.launch) || (held.id, s) in st.applied)
  }

  /** The answers to the lease that `c` waits for name requests that are still queued. */
  ghost predicate LeaseAnswersOk(st: State, s: Session, c: Coord) {
    c.await.AwaitLease? ==>
      forall p :: p in st.replies && p.to == Request(s, c.tag, LeaseOp) && p.body.Taken? && p.body.take.launch.Some? ==>
        Queued(st.h, p.body.take.id)
  }

  ghost predicate CoordOk(st: State, s: Session, c: Coord) {
    && WellStaged(c)
    && s !in st.h.dead
    && (c.held.Some? ==> HeldOk(st, s, c.held.value))
    && (forall id :: (id, s) in st.applied ==> Through(st, c, id))
    && (forall r :: r in st.sent && r.from == s && r.op.AckOp? ==> Through(st, c, r.op.id))
    && (c.await.AwaitApply? ==> (c.held.value.id, s) in st.calls)
    && LeaseAnswersOk(st, s, c)
  }

  ghost predicate CallsOk(st: State) {
    && st.h.dead <= st.windows.Keys
    && (forall x :: x in st.calls ==>
          x.1 in st.windows && x.0 in st.h.dispatches && Granted(st.h, x.0, st.h.dispatches[x.0], x.1))
    && (forall i :: 0 <= i < |st.applied| ==> st.applied[i] in st.calls)
    && (forall i, j :: 0 <= i < j < |st.applied| ==> st.applied[i].0 != st.applied[j].0)
  }

  /** Acknowledged requests were applied by the session they were leased to, or empty. */
  ghost predicate AcksEarned(st: State) {
    forall i :: 0 <= i < |st.h.acks| ==> AckEarned(st, st.h.acks[i].0, st.h.acks[i].1)
  }

  ghost predicate AckEarned(st: State, id: nat, gen: nat) {
    && 1 <= id <= |st.h.pushes| && 1 <= gen <= |st.h.leases|
    && (IsEmpty(st.h.pushes[id - 1]) || (id, st.h.leases[gen - 1].1) in st.applied)
  }

  /** The invariant, leaving out what it says about the coordinator of `but`. */
  ghost predicate InvBut(st: State, but: Session) {
    && Consistent(st.h)
    && (forall r :: r in st.sent ==> RequestOk(st, r))
    && (forall p :: p in st.replies ==> ReplyOk(st, p))
    && (forall s :: s in st.windows && st.windows[s].alive && s != but ==> CoordOk(st, s, st.windows[s].coord))
    && CallsOk(st)
    && AcksEarned(st)
  }

  ghost predicate Inv(st: State) {
    && Consistent(st.h)
    && (forall r :: r in st.sent ==> RequestOk(st, r))
    && (forall p :: p in st.replies ==> ReplyOk(st, p))
    && (forall s :: s in st.windows && st.windows[s].alive ==> CoordOk(st, s, st.windows[s].coord))
    && CallsOk(st)
    && AcksEarned(st)
  }

  // ---- Steps of one window ----

  /** `st'` is `st` after window `s` moved to `c` and did `e`; its other fields may differ, the rest may not. */
  ghost predicate Moved(st: State, st': State, s: Session, c: Coord, e: Effect) {
    && s in st.windows && st'.windows.Keys == st.windows.Keys
    && (forall t :: t in st.windows && t != s ==> st'.windows[t] == st.windows[t])
    && st'.windows[s].coord == c && st'.windows[s].alive == st.windows[s].alive
    && st'.h == st.h && st'.replies == st.replies && st'.applied == st.applied
    && st'.sent == st.sent + Sends(s, e)
    && st'.calls == st.calls + (if e.CallApply? && c.held.Some? then {(c.held.value.id, s)} else {})
  }

  lemma MoveKeepsHeld(st: State, st': State, s: Session, c: Coord, h: Host, c': Coord, e: Effect)
    requires InvBut(st, s) && CoordOk(st, s, c.(await := Idle)) && s in st.windows && c.tag == CoordOf(st, s).tag
    requires Settles(c, h, c', e) && Moved(st, st', s, c', e)
    ensures c'.held.Some? ==> HeldOk(st', s, c'.held.value)
    ensures forall r :: r in Sends(s, e) ==> RequestOk(st', r)
    ensures forall id :: Through(st, c, id) ==> Through(st', c', id)
  {
  }

  lemma MoveKeepsCoord(st: State, st': State, s: Session, c: Coord, h: Host, c': Coord, e: Effect)
    requires InvBut(st, s) && CoordOk(st, s, c.(await := Idle)) && s in st.windows && c.tag == CoordOf(st, s).tag
    requires Settles(c, h, c', e) && Moved(st, st', s, c', e)
    ensures CoordOk(st', s, c')
  {
    MoveKeepsHeld(st, st', s, c, h, c', e);
    assert forall id :: Through(st, c.(await := Idle), id) ==> Through(st, c, id);
    forall r | r in st'.sent && r.from == s && r.op.AckOp? ensures Through(st', c', r.op.id) {
      if r in st.sent {
        assert Through(st, c.(await := Idle), r.op.id);
      }
    }
    forall p | p in st'.replies && c'.await.AwaitLease? ensures p.to != Request(s, c'.tag, LeaseOp) {
      assert ReplyOk(st, p) && RequestOk(st, p.to);
    }
  }

  lemma MoveKeepsOthers(st: State, st': State, s: Session, c': Coord, e: Effect, t: Session)
    requires InvBut(st, s) && Moved(st, st', s, c', e)
    requires t in st.windows && st.windows[t].alive && t != s
    ensures CoordOk(st', t, st'.windows[t].coord)
  {
    var c := st.windows[t].coord;
    assert CoordOk(st, t, c);
    forall r | r in st'.sent && r.from == t && r.op.AckOp? ensures Through(st', c, r.op.id) {
      assert r in st.sent;
    }
  }

  /** A window that goes one round keeps the invariant. */
  lemma MoveKeepsInv(st: State, st': State, s: Session, c: Coord, h: Host, c': Coord, e: Effect)
    requires InvBut(st, s) && CoordOk(st, s, c.(await := Idle)) && s in st.windows && c.tag == CoordOf(st, s).tag
    requires Settles(c, h, c', e) && Moved(st, st', s, c', e)
    ensures Inv(st')
  {
    MoveKeepsHeld(st, st', s, c, h, c', e);
    MoveKeepsCoord(st, st', s, c, h, c', e);
    forall t | t in st'.windows && st'.windows[t].alive ensures CoordOk(st', t, st'.windows[t].coord) {
      if t != s {
        MoveKeepsOthers(st, st', s, c', e, t);
      }
    }
    forall r | r in st'.sent ensures RequestOk(st', r) {
      if r in st.sent {
        assert RequestOk(st, r);
      }
    }
    forall p | p in st'.replies ensures ReplyOk(st', p) {
      assert ReplyOk(st, p);
    }
    assert CallsOk(st') by {
      assert CallsOk(st);
    }
    forall i | 0 <= i < |st'.h.acks| ensures AckEarned(st', st'.h.acks[i].0, st'.h.acks[i].1) {
      assert AckEarned(st, st.h.acks[i].0, st.h.acks[i].1);
    }
  }

  /** A window that starts or resumes a round it has nothing to do with yet: only flags and epochs moved. */
  lemma IdleCoordOk(st: State, s: Session, c: Coord, c1: Coord)
    requires CoordOk(st, s, c)
    requires c1.held == c.held && c1.tag == c.tag && c1.seenEpoch <= c1.signalEpoch
    ensures CoordOk(st, s, c1.(await := Idle))
  {
    assert forall id :: Through(st, c, id) ==> Through(st, c1.(await := Idle), id);
  }

  /** A signal or a poke that arrives while the coordinator waits only moves flags and the epoch. */
  lemma WaitingCoordOk(st: State, s: Session, c: Coord, c1: Coord)
    requires CoordOk(st, s, c)
    requires c1.held == c.held && c1.tag == c.tag && c1.await == c.await && c1.seenEpoch == c.seenEpoch
    requires c1.signalEpoch >= c.signalEpoch && (HasWork(c) ==> HasWork(c1))
    ensures CoordOk(st, s, c1)
  {
    assert forall id :: Through(st, c, id) ==> Through(st, c1, id);
  }

  /** Replacing the window `s` by one whose coordinator is fine, and nothing else. */
  lemma ReplaceKeepsInv(st: State, st': State, s: Session, c: Coord)
    requires Inv(st) && Alive(st, s) && Moved(st, st', s, c, NoEffect) && c.tag == CoordOf(st, s).tag
    requires CoordOk(st, s, c)
    ensures Inv(st')
  {
    assert st'.sent == st.sent && st'.calls == st.calls;
    forall t | t in st'.windows && st'.windows[t].alive ensures CoordOk(st', t, st'.windows[t].coord) {
      if t != s {
        MoveKeepsOthers(st, st', s, c, NoEffect, t);
      } else {
        assert forall id :: Through(st, c, id) ==> Through(st', c, id);
      }
    }
    forall r | r in st'.sent ensures RequestOk(st', r) {
      assert RequestOk(st, r);
    }
    forall p | p in st'.replies ensures ReplyOk(st', p) {
      assert ReplyOk(st, p);
    }
    forall i | 0 <= i < |st'.h.acks| ensures AckEarned(st', st'.h.acks[i].0, st'.h.acks[i].1) {
      assert AckEarned(st, st.h.acks[i].0, st.h.acks[i].1);
    }
  }

  lemma RespondMoves(st: State, reply: Reply)
    requires Possible(st, Respond(reply))
    ensures var s := reply.to.from;
      Moved(st, Do(st, Respond(reply)), s, Resume(st, s, reply).0, Resume(st, s, reply).1)
  {
  }

  function Signalled(c: Coord): Coord {
    c.(signalEpoch := c.signalEpoch + 1, blocked := false, failed := false)
  }

  function Poked(c: Coord, h: Host): Coord {
    c.(blocked := c.blocked && IsFormDirty(h), failed := false)
  }

  lemma SignalMoves(st: State, s: Session)
    requires Possible(st, Signal(s))
    ensures var w := st.windows[s]; var (c', e) := Pump(Signalled(w.coord), w.host);
      Moved(st, Do(st, Signal(s)), s, c', e)
  {
  }

  lemma PokeMoves(st: State, s: Session)
    requires Possible(st, Poke(s))
    ensures var w := st.windows[s]; var (c', e) := Pump(Poked(w.coord, w.host), w.host);
      Moved(st, Do(st, Poke(s)), s, c', e)
  {
  }

  /** A signal or a poke: `c1` is the coordinator with its flags reset, which then pumps. */
  lemma WakeKeepsInv(st: State, st': State, s: Session, c1: Coord)
    requires Inv(st) && Alive(st, s)
    requires Moved(st, st', s, Pump(c1, st.windows[s].host).0, Pump(c1, st.windows[s].host).1)
    requires var c := CoordOf(st, s);
      && c1.held == c.held && c1.tag == c.tag && c1.await == c.await && c1.seenEpoch == c.seenEpoch
      && c1.signalEpoch >= c.signalEpoch && (c1.signalEpoch == c.signalEpoch || c1.signalEpoch == c.signalEpoch + 1)
      && c1.more == c.more
    ensures Inv(st')
  {
    var w := st.windows[s];
    assert CoordOk(st, s, w.coord);
    if w.coord.await.Idle? {
      PumpSettles(c1, w.host);
      IdleCoordOk(st, s, w.coord, c1);
      MoveKeepsInv(st, st', s, c1, w.host, Pump(c1, w.host).0, Pump(c1, w.host).1);
    } else {
      WaitingCoordOk(st, s, w.coord, c1);
      ReplaceKeepsInv(st, st', s, c1);
    }
  }

  lemma SignalKeepsInv(st: State, s: Session)
    requires Inv(st) && Possible(st, Signal(s))
    ensures Inv(Do(st, Signal(s)))
  {
    SignalMoves(st, s);
    WakeKeepsInv(st, Do(st, Signal(s)), s, Signalled(CoordOf(st, s)));
  }

  lemma PokeKeepsInv(st: State, s: Session)
    requires Inv(st) && Possible(st, Poke(s))
    ensures Inv(Do(st, Poke(s)))
  {
    PokeMoves(st, s);
    WakeKeepsInv(st, Do(st, Poke(s)), s, Poked(CoordOf(st, s), st.windows[s].host));
  }

  /** A round that ends without having changed what is held. */
  lemma FinishKeepsInv(st: State, st': State, s: Session, c1: Coord)
    requires Inv(st) && Alive(st, s)
    requires Moved(st, st', s, Finish(c1, st.windows[s].host).0, Finish(c1, st.windows[s].host).1)
    requires c1.held == CoordOf(st, s).held && c1.tag == CoordOf(st, s).tag && c1.seenEpoch <= c1.signalEpoch
    ensures Inv(st')
  {
    var w := st.windows[s];
    FinishSettles(c1, w.host);
    IdleCoordOk(st, s, w.coord, c1);
    MoveKeepsInv(st, st', s, c1, w.host, Finish(c1, w.host).0, Finish(c1, w.host).1);
  }

  lemma GiveUpKeepsInv(st: State, s: Session)
    requires Inv(st) && Possible(st, GiveUp(s))
    ensures Inv(Do(st, GiveUp(s)))
  {
    assert CoordOk(st, s, CoordOf(st, s));
    FinishKeepsInv(st, Do(st, GiveUp(s)), s, Fail(CoordOf(st, s)));
  }

  lemma PeekAnswerKeepsInv(st: State, reply: Reply, s: Session)
    requires Inv(st) && Possible(st, Respond(reply)) && s == reply.to.from && CoordOf(st, s).await.AwaitPeek?
    ensures Inv(Do(st, Respond(reply)))
  {
    var c, h := CoordOf(st, s), st.windows[s].host;
    RespondMoves(st, reply);
    assert ReplyOk(st, reply) && CoordOk(st, s, c);
    if reply.body.standalone {
      FinishKeepsInv(st, Do(st, Respond(reply)), s, c.(blocked := true));
    } else {
      var (c', e) := AskLease(c, c.await.epoch);
      assert Settles(c, h, c', e);
      IdleCoordOk(st, s, c, c);
      MoveKeepsInv(st, Do(st, Respond(reply)), s, c, h, c', e);
    }
  }

  /** The request in an answer to the pending lease can be held from now on. */
  lemma LeasedCoordOk(st: State, reply: Reply, s: Session, c: Coord, seen: Coord)
    requires Inv(st) && reply in st.replies && CoordOk(st, s, c) && c.await.AwaitLease?
    requires reply.to == Request(s, c.tag, LeaseOp) && reply.body.take.launch.Some?
    requires seen.held == c.held && seen.tag == c.tag && seen.seenEpoch <= seen.signalEpoch
    ensures var take := reply.body.take;
      CoordOk(st, s, seen.(await := Idle, held := Some(Held(take.id, take.gen, take.launch.value, Leased))))
  {
    var take := reply.body.take;
    assert ReplyOk(st, reply);
    var c1 := seen.(await := Idle, held := Some(Held(take.id, take.gen, take.launch.value, Leased)));
    assert forall id :: Through(st, c, id) ==> Through(st, c1, id);
  }

  lemma LeaseAnswerKeepsInv(st: State, reply: Reply, s: Session)
    requires Inv(st) && Possible(st, Respond(reply)) && s == reply.to.from && CoordOf(st, s).await.AwaitLease?
    ensures Inv(Do(st, Respond(reply)))
  {
    var c, h := CoordOf(st, s), st.windows[s].host;
    RespondMoves(st, reply);
    assert ReplyOk(st, reply) && CoordOk(st, s, c);
    var take := reply.body.take;
    var seen := c.(seenEpoch := c.await.epoch, more := take.more);
    if take.launch.None? {
      FinishKeepsInv(st, Do(st, Respond(reply)), s, seen);
    } else {
      var c1 := seen.(held := Some(Held(take.id, take.gen, take.launch.value, Leased)));
      CarrySettles(c1, h);
      LeasedCoordOk(st, reply, s, c, seen);
      MoveKeepsInv(st, Do(st, Respond(reply)), s, c1, h, Carry(c1, h).0, Carry(c1, h).1);
    }
  }

  /** An Ok or Already answer to the pending dispatch means that the held request is dispatched under its own lease. */
  lemma DispatchedCoordOk(st: State, reply: Reply, s: Session, c: Coord)
    requires Inv(st) && reply in st.replies && CoordOk(st, s, c) && c.await.AwaitDispatch?
    requires Outstanding(s, c) == Some(reply.to) && !reply.body.ack.Stale?
    ensures CoordOk(st, s, c.(await := Idle, held := Some(c.held.value.(stage := Dispatched(c.await.plan)))))
  {
    assert ReplyOk(st, reply);
    var c1 := c.(await := Idle, held := Some(c.held.value.(stage := Dispatched(c.await.plan))));
    assert forall id :: Through(st, c, id) ==> Through(st, c1, id);
  }

  /** A request that was refused, or whose acknowledgement was answered, is nobody's business any more. */
  lemma DroppedCoordOk(st: State, reply: Reply, s: Session, c: Coord, c1: Coord)
    requires Inv(st) && reply in st.replies && CoordOk(st, s, c) && (c.await.AwaitDispatch? || c.await.AwaitAck?)
    requires Outstanding(s, c) == Some(reply.to) && (c.await.AwaitDispatch? ==> reply.body.ack.Stale?)
    requires c1.held.None? && c1.tag == c.tag && c1.seenEpoch == c.seenEpoch && c1.signalEpoch == c.signalEpoch
    ensures CoordOk(st, s, c1.(await := Idle))
  {
    assert ReplyOk(st, reply);
    assert !Queued(st.h, c.held.value.id);
    assert forall id :: Through(st, c, id) ==> Through(st, c1.(await := Idle), id);
  }

  lemma DropKeepsInv(st: State, reply: Reply, s: Session, c1: Coord)
    requires Inv(st) && Possible(st, Respond(reply)) && s == reply.to.from
    requires CoordOf(st, s).await.AwaitDispatch? || CoordOf(st, s).await.AwaitAck?
    requires CoordOf(st, s).await.AwaitDispatch? ==> reply.body.Verdict? && reply.body.ack.Stale?
    requires c1 == CoordOf(st, s).(held := None) || c1 == Refused(CoordOf(st, s))
    requires Resume(st, s, reply) == Finish(c1, st.windows[s].host)
    ensures Inv(Do(st, Respond(reply)))
  {
    var h := st.windows[s].host;
    RespondMoves(st, reply);
    assert CoordOk(st, s, CoordOf(st, s));
    FinishSettles(c1, h);
    DroppedCoordOk(st, reply, s, CoordOf(st, s), c1);
    MoveKeepsInv(st, Do(st, Respond(reply)), s, c1, h, Finish(c1, h).0, Finish(c1, h).1);
  }

  lemma DispatchAnswerKeepsInv(st: State, reply: Reply, s: Session)
    requires Inv(st) && Possible(st, Respond(reply)) && s == reply.to.from && CoordOf(st, s).await.AwaitDispatch?
    ensures Inv(Do(st, Respond(reply)))
  {
    var c, h := CoordOf(st, s), st.windows[s].host;
    assert ReplyOk(st, reply) && CoordOk(st, s, c);
    if reply.body.ack.Stale? {
      DropKeepsInv(st, reply, s, Refused(c));
    } else {
      RespondMoves(st, reply);
      var c1 := c.(held := Some(c.held.value.(stage := Dispatched(c.await.plan))));
      CarrySettles(c1, h);
      DispatchedCoordOk(st, reply, s, c);
      MoveKeepsInv(st, Do(st, Respond(reply)), s, c1, h, Carry(c1, h).0, Carry(c1, h).1);
    }
  }

  lemma AckAnswerKeepsInv(st: State, reply: Reply, s: Session)
    requires Inv(st) && Possible(st, Respond(reply)) && s == reply.to.from && CoordOf(st, s).await.AwaitAck?
    ensures Inv(Do(st, Respond(reply)))
  {
    var c := CoordOf(st, s);
    assert ReplyOk(st, reply) && CoordOk(st, s, c);
    DropKeepsInv(st, reply, s, if reply.body.ack.Stale? then Refused(c) else c.(held := None));
  }

  lemma RespondKeepsInv(st: State, reply: Reply)
    requires Inv(st) && Possible(st, Respond(reply))
    ensures Inv(Do(st, Respond(reply)))
  {
    var s := reply.to.from;
    match CoordOf(st, s).await
    case Idle =>
    case AwaitApply =>
    case AwaitPeek(_) => PeekAnswerKeepsInv(st, reply, s);
    case AwaitLease(_) => LeaseAnswerKeepsInv(st, reply, s);
    case AwaitDispatch(_) => DispatchAnswerKeepsInv(st, reply, s);
    case AwaitAck => AckAnswerKeepsInv(st, reply, s);
  }

  // ---- The window applies ----

  /** Nobody else ever applied the request this window has dispatched. */
  lemma NotAppliedBefore(st: State, s: Session, i: nat)
    requires Inv(st) && Alive(st, s) && CoordOf(st, s).await.AwaitApply? && i < |st.applied|
    ensures st.applied[i].0 != CoordOf(st, s).held.value.id
  {
    var c := CoordOf(st, s);
    assert CoordOk(st, s, c);
    assert st.applied[i] in st.calls;
    assert st.applied[i].1 == s ==> Through(st, c, st.applied[i].0);
  }

  lemma ApplySucceedsKeepsOthers(st: State, s: Session, c: Coord, done: State)
    requires Inv(st) && Alive(st, s) && c == CoordOf(st, s) && c.await.AwaitApply? && c.held.Some?
    requires done == st.(applied := st.applied + [(c.held.value.id, s)])
    ensures InvBut(done, s)
  {
    var id := c.held.value.id;
    assert CoordOk(st, s, c);
    forall i | 0 <= i < |st.applied| ensures st.applied[i].0 != id {
      NotAppliedBefore(st, s, i);
    }
    forall r | r in done.sent ensures RequestOk(done, r) {
      assert RequestOk(st, r);
    }
    forall p | p in done.replies ensures ReplyOk(done, p) {
      assert ReplyOk(st, p);
    }
    forall t | t in done.windows && done.windows[t].alive && t != s ensures CoordOk(done, t, done.windows[t].coord) {
      var d := st.windows[t].coord;
      assert CoordOk(st, t, d);
      assert forall x :: Through(st, d, x) ==> Through(done, d, x);
    }
    forall i | 0 <= i < |done.h.acks| ensures AckEarned(done, done.h.acks[i].0, done.h.acks[i].1) {
      assert AckEarned(st, st.h.acks[i].0, st.h.acks[i].1);
    }
  }

  lemma AppliedCoordOk(st: State, s: Session, c: Coord, done: State)
    requires Inv(st) && Alive(st, s) && c == CoordOf(st, s) && c.await.AwaitApply? && c.held.Some?
    requires done == st.(applied := st.applied + [(c.held.value.id, s)])
    ensures CoordOk(done, s, c.(await := Idle, held := Some(c.held.value.(stage := Applied))))
  {
    assert CoordOk(st, s, c);
    var c1 := c.(await := Idle, held := Some(c.held.value.(stage := Applied)));
    assert forall id :: Through(st, c, id) ==> Through(done, c1, id);
  }

  lemma ApplySucceedsMoves(st: State, s: Session, c: Coord, c1: Coord, done: State)
    requires Possible(st, ApplyReturns(s, Some(true))) && c == CoordOf(st, s) && c.held.Some?
    requires c1 == c.(held := Some(c.held.value.(stage := Applied)))
    requires done == st.(applied := st.applied + [(c.held.value.id, s)])
    ensures Moved(done, Do(st, ApplyReturns(s, Some(true))), s, AskAck(c1).0, AskAck(c1).1)
    ensures Settles(c1, st.windows[s].host, AskAck(c1).0, AskAck(c1).1) || c.seenEpoch > c.signalEpoch
  {
  }

  lemma ApplyFailsMoves(st: State, s: Session, outcome: Option<bool>)
    requires Possible(st, ApplyReturns(s, outcome)) && outcome != Some(true) && CoordOf(st, s).held.Some?
    ensures var (c', e) := Finish(Fail(CoordOf(st, s)), st.windows[s].host);
      Moved(st, Do(st, ApplyReturns(s, outcome)), s, c', e)
  {
  }

  lemma ApplySucceedsKeepsInv(st: State, s: Session)
    requires Inv(st) && Possible(st, ApplyReturns(s, Some(true)))
    ensures Inv(Do(st, ApplyReturns(s, Some(true))))
  {
    var c, h := CoordOf(st, s), st.windows[s].host;
    assert CoordOk(st, s, c);
    var done := st.(applied := st.applied + [(c.held.value.id, s)]);
    var c1 := c.(held := Some(c.held.value.(stage := Applied)));
    ApplySucceedsKeepsOthers(st, s, c, done);
    AppliedCoordOk(st, s, c, done);
    ApplySucceedsMoves(st, s, c, c1, done);
    MoveKeepsInv(done, Do(st, ApplyReturns(s, Some(true))), s, c1, h, AskAck(c1).0, AskAck(c1).1);
  }

  lemma ApplyReturnsKeepsInv(st: State, s: Session, outcome: Option<bool>)
    requires Inv(st) && Possible(st, ApplyReturns(s, outcome))
    ensures Inv(Do(st, ApplyReturns(s, outcome)))
  {
    if outcome == Some(true) {
      ApplySucceedsKeepsInv(st, s);
    } else {
      assert CoordOk(st, s, CoordOf(st, s));
      ApplyFailsMoves(st, s, outcome);
      FinishKeepsInv(st, Do(st, ApplyReturns(s, outcome)), s, Fail(CoordOf(st, s)));
    }
  }

  // ---- The backend acts ----

  /** The backend's history grew, one answer may be new, nothing else changed. */
  ghost predicate Grew(st: State, st': State) {
    && Consistent(st'.h) && Extends(st.h, st'.h)
    && st'.windows.Keys == st.windows.Keys && st'.h.dead <= st.windows.Keys
    && (forall s :: s in st.windows ==>
          st'.windows[s].coord == st.windows[s].coord && (st'.windows[s].alive ==> st.windows[s].alive))
    && st'.sent == st.sent && st.replies <= st'.replies && st'.calls == st.calls && st'.applied == st.applied
  }

  lemma OwnedStaysOwned(h: History, h': History, id: nat, gen: nat, s: Session)
    requires Consistent(h) && Extends(h, h') && Owns(h, id, gen, s)
    ensures Owns(h', id, gen, s) && h'.pushes[id - 1] == h.pushes[id - 1]
    ensures !Queued(h, id) ==> !Queued(h', id)
  {
  }

  lemma GrowthKeepsMessages(st: State, st': State)
    requires Inv(st) && Grew(st, st')
    ensures forall r :: r in st.sent ==> RequestOk(st', r)
    ensures forall p :: p in st.replies ==> ReplyOk(st', p)
  {
    forall r | r in st.sent ensures RequestOk(st', r) {
      assert RequestOk(st, r);
      if r.op.DispatchOp? || r.op.AckOp? {
        OwnedStaysOwned(st.h, st'.h, r.op.id, r.op.gen, r.from);
      }
    }
    forall p | p in st.replies ensures ReplyOk(st', p) {
      assert ReplyOk(st, p) && RequestOk(st, p.to);
      match p.to.op
      case PeekOp =>
      case LeaseOp =>
        if p.body.take.launch.Some? {
          OwnedStaysOwned(st.h, st'.h, p.body.take.id, p.body.take.gen, p.to.from);
        }
      case DispatchOp(id, gen) => OwnedStaysOwned(st.h, st'.h, id, gen, p.to.from);
      case AckOp(id, gen) => OwnedStaysOwned(st.h, st'.h, id, gen, p.to.from);
    }
  }

  lemma GrowthKeepsCalls(st: State, st': State)
    requires CallsOk(st) && Grew(st, st')
    ensures CallsOk(st')
  {
    assert forall x :: x in st'.calls ==> x.0 in st.h.dispatches && Granted(st.h, x.0, st.h.dispatches[x.0], x.1);
  }

  /** A living window's business survives: what it has not applied stays queued. */
  ghost predicate Spares(st: State, st': State, s: Session, c: Coord) {
    && s !in st'.h.dead
    && (c.held.Some? && !c.held.value.stage.Applied? ==> Queued(st'.h, c.held.value.id))
    && LeaseAnswersOk(st', s, c)
  }

  lemma GrowthKeepsCoord(st: State, st': State, s: Session)
    requires Inv(st) && Grew(st, st') && Alive(st, s) && Spares(st, st', s, CoordOf(st, s))
    ensures CoordOk(st', s, CoordOf(st, s))
  {
    var c := CoordOf(st, s);
    assert CoordOk(st, s, c);
    forall id | (id, s) in st'.applied ensures Through(st', c, id) {
      assert (id, s) in st.calls && Through(st, c, id);
      OwnedStaysOwned(st.h, st'.h, id, st.h.dispatches[id], s);
    }
    forall r | r in st'.sent && r.from == s && r.op.AckOp? ensures Through(st', c, r.op.id) {
      assert RequestOk(st, r) && Through(st, c, r.op.id);
      OwnedStaysOwned(st.h, st'.h, r.op.id, r.op.gen, s);
    }
    if c.held.Some? {
      OwnedStaysOwned(st.h, st'.h, c.held.value.id, c.held.value.gen, s);
    }
  }

  lemma GrowthKeepsInv(st: State, st': State)
    requires Inv(st) && Grew(st, st') && AcksEarned(st')
    requires forall p :: p in st'.replies && p !in st.replies ==> ReplyOk(st', p)
    requires forall s :: Alive(st', s) ==> Spares(st, st', s, CoordOf(st, s))
    ensures Inv(st')
  {
    GrowthKeepsMessages(st, st');
    GrowthKeepsCalls(st, st');
    forall s | s in st'.windows && st'.windows[s].alive ensures CoordOk(st', s, st'.windows[s].coord) {
      assert Alive(st', s);
      GrowthKeepsCoord(st, st', s);
    }
  }

  lemma OldAcksStayEarned(st: State, st': State)
    requires Inv(st) && Grew(st, st') && st'.h.acks == st.h.acks
    ensures AcksEarned(st')
  {
    forall i | 0 <= i < |st'.h.acks| ensures AckEarned(st', st'.h.acks[i].0, st'.h.acks[i].1) {
      assert AckEarned(st, st.h.acks[i].0, st.h.acks[i].1);
    }
  }

  /** When nothing leaves the queue, every living window is spared, except for a new answer to its lease. */
  lemma KeepingSpares(st: State, st': State, s: Session)
    requires Inv(st) && Grew(st, st') && Alive(st, s)
    requires st'.h.exits == st.h.exits && st'.h.dead == st.h.dead && st'.h.q.nextId >= st.h.q.nextId
    requires forall p :: p in st'.replies && p !in st.replies && p.body.Taken? && p.body.take.launch.Some? ==>
               Queued(st'.h, p.body.take.id)
    ensures Spares(st, st', s, CoordOf(st, s))
  {
    assert CoordOk(st, s, CoordOf(st, s));
  }

  /** The only request an acknowledgement takes away is one its sender is through with. */
  lemma AckSpares(st: State, st': State, req: Request, s: Session)
    requires Inv(st) && req in st.sent && req.op.AckOp? && Alive(st, s)
    requires st'.h == Step(st.h, DoAck(req.op.id, req.op.gen)).0
    requires forall p :: p in st'.replies && p !in st.replies ==> p.to == req
    ensures Spares(st, st', s, CoordOf(st, s))
  {
    var c, id := CoordOf(st, s), req.op.id;
    assert CoordOk(st, s, c) && RequestOk(st, req);
    if FrontMatches(st.h.q, id, req.op.gen) {
      if req.from == s {
        assert Through(st, c, id);
      }
      forall p | p in st.replies && c.await.AwaitLease? && p.to == Request(s, c.tag, LeaseOp)
                 && p.body.Taken? && p.body.take.launch.Some?
        ensures p.body.take.id != id
      {
        assert ReplyOk(st, p) && Queued(st.h, p.body.take.id);
      }
    }
  }

  lemma ServedLeaseOk(h: History, s: Session)
    requires Consistent(h)
    ensures var (h', a) := Step(h, DoLease(s));
      a.take.launch.Some? ==> Owns(h', a.take.id, a.take.gen, s) && a.take.launch.value == h'.pushes[a.take.id - 1]
  {
    TakenIsGranted(h, s);
  }

  /** A dispatch that is not stale was noted, or the request is already out; a stale one of a living session is out. */
  lemma ServedDispatchOk(h: History, id: nat, gen: nat, s: Session)
    requires Consistent(h) && Owns(h, id, gen, s)
    ensures var (h', a) := Step(h, DoDispatch(id, gen));
      && (a.ack.Stale? && s !in h'.dead ==> !Queued(h', id))
      && (!a.ack.Stale? ==> !Queued(h', id) || (id in h'.dispatches && h'.dispatches[id] == gen))
  {
    if (id, gen) in h.q.recent {
      assert (id, gen) in h.acks;
    }
  }

  lemma ServedAckOk(h: History, id: nat, gen: nat, s: Session)
    requires Consistent(h) && Owns(h, id, gen, s)
    ensures var (h', a) := Step(h, DoAck(id, gen)); !a.ack.Stale? || s !in h'.dead ==> !Queued(h', id)
  {
    if (id, gen) in h.q.recent {
      assert (id, gen) in h.acks;
    }
  }

  lemma ServedReplyOk(st: State, req: Request, st': State)
    requires Inv(st) && req in st.sent && st'.sent == st.sent && st'.h == Serve(st.h, req).0
    ensures ReplyOk(st', Reply(req, Serve(st.h, req).1))
  {
    assert RequestOk(st, req);
    match req.op
    case PeekOp =>
    case LeaseOp => ServedLeaseOk(st.h, req.from);
    case DispatchOp(id, gen) => ServedDispatchOk(st.h, id, gen, req.from);
    case AckOp(id, gen) => ServedAckOk(st.h, id, gen, req.from);
  }

  lemma ServeGrows(st: State, req: Request)
    requires Inv(st) && Possible(st, Deliver(req))
    ensures Grew(st, Do(st, Deliver(req)))
    ensures !req.op.AckOp? ==> var h := Do(st, Deliver(req)).h;
      h.exits == st.h.exits && h.dead == st.h.dead && h.q.nextId == st.h.q.nextId && h.acks == st.h.acks
  {
    var c :=
      match req.op
      case PeekOp => DoLease(req.from)
      case LeaseOp => DoLease(req.from)
      case DispatchOp(id, gen) => DoDispatch(id, gen)
      case AckOp(id, gen) => DoAck(id, gen);
    StepKeepsConsistent(st.h, c);
    StepExtends(st.h, c);
  }

  lemma AckIsEarned(st: State, req: Request)
    requires Inv(st) && Possible(st, Deliver(req)) && req.op.AckOp?
    ensures AcksEarned(Do(st, Deliver(req)))
  {
    var st' := Do(st, Deliver(req));
    assert RequestOk(st, req);
    forall i | 0 <= i < |st'.h.acks| ensures AckEarned(st', st'.h.acks[i].0, st'.h.acks[i].1) {
      if i < |st.h.acks| {
        assert AckEarned(st, st.h.acks[i].0, st.h.acks[i].1);
      }
    }
  }

  lemma DeliverKeepsInv(st: State, req: Request)
    requires Inv(st) && Possible(st, Deliver(req))
    ensures Inv(Do(st, Deliver(req)))
  {
    var st' := Do(st, Deliver(req));
    ServeGrows(st, req);
    ServedReplyOk(st, req, st');
    if req.op.AckOp? {
      AckIsEarned(st, req);
    } else {
      OldAcksStayEarned(st, st');
    }
    forall s | Alive(st', s) ensures Spares(st, st', s, CoordOf(st, s)) {
      if req.op.AckOp? {
        AckSpares(st, st', req, s);
      } else {
        if req.op.LeaseOp? {
          TakenIsGranted(st.h, req.from);
        }
        KeepingSpares(st, st', s);
      }
    }
    GrowthKeepsInv(st, st');
  }

  lemma PushGrows(h: History, launch: Option<Launch>)
    requires Consistent(h)
    ensures var h' := PushIfAny(h, launch);
      && Consistent(h') && Extends(h, h') && h'.exits == h.exits && h'.dead == h.dead && h'.acks == h.acks
      && h'.q.nextId >= h.q.nextId
  {
    if launch.Some? {
      StepKeepsConsistent(h, DoPush(launch.value));
      StepExtends(h, DoPush(launch.value));
    }
  }

  lemma PushKeepsInv(st: State, launch: Option<Launch>, to: Option<Session>)
    requires Inv(st) && Possible(st, PushTo(launch, to))
    ensures Inv(Do(st, PushTo(launch, to)))
  {
    var st' := Do(st, PushTo(launch, to));
    PushGrows(st.h, launch);
    OldAcksStayEarned(st, st');
    forall s | Alive(st', s) ensures Spares(st, st', s, CoordOf(st, s)) {
      KeepingSpares(st, st', s);
    }
    GrowthKeepsInv(st, st');
  }

  /** A window that did not exist has sent nothing, applied nothing and was never released. */
  lemma FreshCoordOk(st: State, s: Session, st': State)
    requires Inv(st) && s !in st.windows && st'.h.dead == st.h.dead
    requires st'.sent == st.sent && st'.applied == st.applied && st'.replies == st.replies
    ensures CoordOk(st', s, FRESH)
  {
    forall r | r in st.sent ensures r.from != s {
      assert RequestOk(st, r);
    }
  }

  /** Adding a fresh window to a state that is fine. */
  lemma AddWindowKeepsInv(st: State, st': State, s: Session)
    requires Inv(st) && s !in st.windows
    requires st'.windows.Keys == st.windows.Keys + {s} && st'.windows[s].coord == FRESH
    requires forall t :: t in st.windows ==> st'.windows[t] == st.windows[t]
    requires st'.h == st.h && st'.sent == st.sent && st'.replies == st.replies
    requires st'.calls == st.calls && st'.applied == st.applied
    ensures Inv(st')
  {
    forall r | r in st'.sent ensures RequestOk(st', r) {
      assert RequestOk(st, r);
    }
    forall p | p in st'.replies ensures ReplyOk(st', p) {
      assert ReplyOk(st, p);
    }
    forall t | t in st'.windows && st'.windows[t].alive ensures CoordOk(st', t, st'.windows[t].coord) {
      if t == s {
        FreshCoordOk(st, s, st');
      } else {
        assert CoordOk(st, t, st.windows[t].coord);
        assert forall id :: Through(st, st.windows[t].coord, id) ==> Through(st', st.windows[t].coord, id);
      }
    }
    forall i | 0 <= i < |st'.h.acks| ensures AckEarned(st', st'.h.acks[i].0, st'.h.acks[i].1) {
      assert AckEarned(st, st.h.acks[i].0, st.h.acks[i].1);
    }
  }

  lemma OpenKeepsInv(st: State, launch: Option<Launch>, s: Session, host: Host)
    requires Inv(st) && Possible(st, Open(launch, s, host))
    ensures Inv(Do(st, Open(launch, s, host)))
  {
    PushKeepsInv(st, launch, None);
    AddWindowKeepsInv(Do(st, PushTo(launch, None)), Do(st, Open(launch, s, host)), s);
  }

  lemma ChangeHostKeepsInv(st: State, s: Session, host: Host)
    requires Inv(st) && Possible(st, ChangeHost(s, host))
    ensures Inv(Do(st, ChangeHost(s, host)))
  {
    assert CoordOk(st, s, CoordOf(st, s));
    ReplaceKeepsInv(st, Do(st, ChangeHost(s, host)), s, CoordOf(st, s));
  }

  lemma DieKeepsInv(st: State, s: Session)
    requires Inv(st) && Possible(st, Die(s))
    ensures Inv(Do(st, Die(s)))
  {
    var st' := Do(st, Die(s));
    StepExtends(st.h, DoLease(s));
    OldAcksStayEarned(st, st');
    forall t | Alive(st', t) ensures Spares(st, st', t, CoordOf(st, t)) {
      KeepingSpares(st, st', t);
    }
    GrowthKeepsInv(st, st');
  }

  /** The death of one window takes nothing from a living one. */
  lemma ReleaseSpares(st: State, s: Session, t: Session)
    requires Inv(st) && Possible(st, Release(s)) && Alive(st, t)
    ensures Spares(st, Do(st, Release(s)), t, CoordOf(st, t))
  {
    var c := CoordOf(st, t);
    assert CoordOk(st, t, c);
    DeathShape(st.h, s);
    if c.held.Some? {
      assert HeldOk(st, t, c.held.value);
    }
    forall p | p in st.replies && c.await.AwaitLease? && p.to == Request(t, c.tag, LeaseOp)
               && p.body.Taken? && p.body.take.launch.Some?
      ensures Queued(Do(st, Release(s)).h, p.body.take.id)
    {
      assert ReplyOk(st, p) && Queued(st.h, p.body.take.id);
    }
  }

  lemma ReleaseKeepsInv(st: State, s: Session)
    requires Inv(st) && Possible(st, Release(s))
    ensures Inv(Do(st, Release(s)))
  {
    var st' := Do(st, Release(s));
    StepKeepsConsistent(st.h, DoRelease(s));
    StepExtends(st.h, DoRelease(s));
    OldAcksStayEarned(st, st');
    forall t | Alive(st', t) ensures Spares(st, st', t, CoordOf(st, t)) {
      ReleaseSpares(st, s, t);
    }
    GrowthKeepsInv(st, st');
  }

  lemma EventKeepsInv(st: State, ev: Event)
    requires Inv(st) && Possible(st, ev)
    ensures Inv(Do(st, ev))
  {
    match ev
    case PushTo(launch, to) => PushKeepsInv(st, launch, to);
    case Open(launch, s, host) => OpenKeepsInv(st, launch, s, host);
    case Signal(s) => SignalKeepsInv(st, s);
    case ChangeHost(s, host) => ChangeHostKeepsInv(st, s, host);
    case Poke(s) => PokeKeepsInv(st, s);
    case Deliver(req) => DeliverKeepsInv(st, req);
    case Respond(reply) => RespondKeepsInv(st, reply);
    case GiveUp(s) => GiveUpKeepsInv(st, s);
    case ApplyReturns(s, outcome) => ApplyReturnsKeepsInv(st, s, outcome);
    case Die(s) => DieKeepsInv(st, s);
    case Release(s) => ReleaseKeepsInv(st, s);
  }

  lemma {:induction false} RunKeepsInv(states: seq<State>, events: seq<Event>)
    requires Run(states, events)
    ensures Inv(states[|events|])
  {
    if |events| > 0 {
      var n := |events| - 1;
      RunKeepsInv(states[..n + 1], events[..n]);
      assert states[..n + 1][n] == states[n];
      EventKeepsInv(states[n], events[n]);
    }
  }

  // ---- What holds in every run ----

  /**
   At most once: however messages are lost, delayed or repeated and whenever windows die, `apply` never
   succeeds twice for a request, and never two sessions call it for the same request.
   */
  lemma AtMostOnce(states: seq<State>, events: seq<Event>)
    requires Run(states, events)
    ensures var st := states[|events|];
      && (forall i, j :: 0 <= i < j < |st.applied| ==> st.applied[i].0 != st.applied[j].0)
      && (forall x, y :: x in st.calls && y in st.calls && x.0 == y.0 ==> x.1 == y.1)
      && (forall x :: x in st.applied ==> x in st.calls)
  {
    RunKeepsInv(states, events);
  }

  /** A call from one session, however late, leaves the queue alone while another session holds the front. */
  lemma LateCallsHurtNobody(states: seq<State>, events: seq<Event>, req: Request)
    requires Run(states, events) && req in states[|events|].sent
    requires var es := states[|events|].h.q.entries; |es| > 0 && es[0].lease.Some? && es[0].lease.value.session != req.from
    ensures Do(states[|events|], Deliver(req)).h.q == states[|events|].h.q
  {
    RunKeepsInv(states, events);
    assert RequestOk(states[|events|], req);
  }

  /**
   What a living window holds and has not applied is the front of the queue, leased to it; so no two windows hold
   anything.
   */
  lemma HoldersAreExclusive(states: seq<State>, events: seq<Event>, s: Session, t: Session)
    requires Run(states, events) && Alive(states[|events|], s) && Alive(states[|events|], t) && s != t
    requires CoordOf(states[|events|], s).held.Some? && !CoordOf(states[|events|], s).held.value.stage.Applied?
    ensures var held := CoordOf(states[|events|], s).held.value;
      FrontMatches(states[|events|].h.q, held.id, held.gen) && HeldBy(states[|events|].h.q.entries[0], s)
    ensures var other := CoordOf(states[|events|], t).held; other.Some? ==> other.value.stage.Applied?
  {
    RunKeepsInv(states, events);
    var st := states[|events|];
    assert CoordOk(st, s, CoordOf(st, s)) && CoordOk(st, t, CoordOf(st, t));
  }

  lemma LivingAreNotDead(st: State, s: Session)
    requires Inv(st)
    ensures Alive(st, s) ==> s !in st.h.dead
  {
    if Alive(st, s) {
      assert CoordOk(st, s, CoordOf(st, s));
    }
  }

  /**
   Conservation: a request that left the queue was acknowledged, after the session it was leased to had
   applied it (or it was empty), or it was discarded, dispatched under a lease of a window that is dead.
   */
  lemma NothingVanishes(states: seq<State>, events: seq<Event>, id: nat)
    requires Run(states, events) && 1 <= id <= |states[|events|].h.pushes| && !Queued(states[|events|].h, id)
    ensures var st := states[|events|];
      exists gen: nat, s :: Granted(st.h, id, gen, s) &&
        if (id, gen) in st.h.acks then IsEmpty(st.h.pushes[id - 1]) || (id, s) in st.applied
        else id in st.h.dispatches && st.h.dispatches[id] == gen && s in st.h.dead && !Alive(st, s)
  {
    RunKeepsInv(states, events);
    var st := states[|events|];
    assert ExitOk(st.h, id - 1);
    var gen := st.h.exits[id - 1].gen;
    var s := st.h.leases[gen - 1].1;
    assert Granted(st.h, id, gen, s);
    if (id, gen) in st.h.acks {
      var i :| 0 <= i < |st.h.acks| && st.h.acks[i] == (id, gen);
      assert AckEarned(st, st.h.acks[i].0, st.h.acks[i].1);
    } else {
      LivingAreNotDead(st, s);
    }
  }
}
