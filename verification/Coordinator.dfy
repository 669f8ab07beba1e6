/**
 The coordinator of one compress window, as a value: `lease -> dispatch -> apply -> ack`.

 The coordinator is an asynchronous program. Between two awaits it runs without interruption, so each
 function below is one such stretch: it takes the coordinator, what the window tells about itself and,
 when it resumes from an await, the response; it gives the coordinator at the next await and the call
 made there. A response `None` is a call that failed or whose answer was lost.
 */
module Coordinator {
  import opened Wrappers
  import opened LeaseQueue
  import opened CompressPlan

  /** Leased: nobody was told. Dispatched: the backend knows `plan` is about to be applied. Applied: it was. */
  datatype Stage = Leased | Dispatched(plan: Plan) | Applied

  datatype Held = Held(id: nat, gen: nat, launch: Launch, stage: Stage)

  /** What the program is waiting for; `Idle` is waiting for nothing. */
  datatype Await =
    | Idle
    | AwaitPeek(epoch: nat)
    | AwaitLease(epoch: nat)
    | AwaitDispatch(plan: Plan)
    | AwaitApply
    | AwaitAck

  datatype Coord = Coord(
    await: Await,
    signalEpoch: nat,
    seenEpoch: nat,
    more: bool,
    held: Option<Held>,
    blocked: bool,
    failed: bool,
    tag: nat)

  /** Each backend call carries a number of its own; applying a plan is the window's business. */
  datatype Effect =
    | NoEffect
    | CallPeek(tag: nat)
    | CallLease(tag: nat)
    | CallDispatch(tag: nat, id: nat, gen: nat)
    | CallAck(tag: nat, id: nat, gen: nat)
    | CallApply(plan: Plan)

  const FRESH := Coord(Idle, 0, 0, false, None, false, false, 0)

  predicate HasWork(c: Coord) {
    c.held.Some? || c.more || c.seenEpoch != c.signalEpoch
  }

  predicate MayPump(c: Coord, h: Host) {
    HasWork(c) && !c.blocked && !c.failed && !h.busy
  }

  /** Start working if there is something to do and nothing in the way. */
  function Pump(c: Coord, h: Host): (Coord, Effect)
    decreases if MayPump(c, h) then 1 else 0, 2
  {
    if c.await.Idle? && MayPump(c, h) then
      if c.held.None? then BeginLease(c, h) else Carry(c, h)
    else (c, NoEffect)
  }

  /** Before a lease, a window with input of its own asks whether the front request would need its form. */
  function BeginLease(c: Coord, h: Host): (Coord, Effect) {
    if IsFormDirty(h) then (c.(await := AwaitPeek(c.signalEpoch), tag := c.tag + 1), CallPeek(c.tag + 1))
    else AskLease(c, c.signalEpoch)
  }

  function AskLease(c: Coord, epoch: nat): (Coord, Effect) {
    (c.(await := AwaitLease(epoch), tag := c.tag + 1), CallLease(c.tag + 1))
  }

  /** Take the held request as far as the next await. */
  function Carry(c: Coord, h: Host): (Coord, Effect)
    requires c.held.Some?
    decreases if MayPump(c, h) then 1 else 0, 1
  {
    var held := c.held.value;
    match held.stage
    case Leased =>
      if h.busy then Finish(c, h)
      else
        var plan := PlanLaunch(h, held.launch);
        if plan.Hold? then Finish(c.(blocked := true), h)
        else if plan.Ignore? then AskAck(c.(held := Some(held.(stage := Applied))))
        else (c.(await := AwaitDispatch(plan), tag := c.tag + 1), CallDispatch(c.tag + 1, held.id, held.gen))
    case Dispatched(plan) =>
      if h.busy then Finish(c, h) else (c.(await := AwaitApply), CallApply(plan))
    case Applied => AskAck(c)
  }

  function AskAck(c: Coord): (Coord, Effect)
    requires c.held.Some?
  {
    (c.(await := AwaitAck, tag := c.tag + 1), CallAck(c.tag + 1, c.held.value.id, c.held.value.gen))
  }

  /** The end of one round: go idle, and start over if work is left. */
  function Finish(c: Coord, h: Host): (Coord, Effect)
    decreases if MayPump(c, h) then 1 else 0, if MayPump(c, h) then 3 else 0
  {
    var idle := c.(await := Idle);
    if MayPump(idle, h) then Pump(idle, h) else (idle, NoEffect)
  }

  function Fail(c: Coord): Coord {
    c.(failed := true)
  }

  // ---- What wakes the coordinator up ----

  /** The backend announced a new request. */
  function OnSignal(c: Coord, h: Host): (Coord, Effect) {
    Pump(c.(signalEpoch := c.signalEpoch + 1, blocked := false, failed := false), h)
  }

  /** The window's own state changed. */
  function OnPoke(c: Coord, h: Host): (Coord, Effect) {
    Pump(c.(blocked := c.blocked && IsFormDirty(h), failed := false), h)
  }

  function OnPeek(c: Coord, h: Host, answer: Option<bool>): (Coord, Effect)
    requires c.await.AwaitPeek?
  {
    match answer
    case None => Finish(Fail(c), h)
    case Some(standalone) =>
      if standalone then Finish(c.(blocked := true), h) else AskLease(c, c.await.epoch)
  }

  function OnLease(c: Coord, h: Host, answer: Option<Take>): (Coord, Effect)
    requires c.await.AwaitLease?
  {
    match answer
    case None => Finish(Fail(c), h)
    case Some(take) =>
      var seen := c.(seenEpoch := c.await.epoch, more := take.more);
      if take.launch.None? then Finish(seen, h)
      else Carry(seen.(held := Some(Held(take.id, take.gen, take.launch.value, Leased))), h)
  }

  /** The held request turned out not to be ours. */
  function Refused(c: Coord): Coord {
    Fail(c.(held := None))
  }

  function OnDispatch(c: Coord, h: Host, answer: Option<Ack>): (Coord, Effect)
    requires c.await.AwaitDispatch? && c.held.Some?
  {
    match answer
    case None => Finish(Fail(c), h)
    case Some(ack) =>
      if ack.Stale? then Finish(Refused(c), h)
      else Carry(c.(held := Some(c.held.value.(stage := Dispatched(c.await.plan)))), h)
  }

  /** Only a plain `true` counts as applied. */
  function OnApply(c: Coord, h: Host, answer: Option<bool>): (Coord, Effect)
    requires c.await.AwaitApply? && c.held.Some?
  {
    if answer == Some(true) then AskAck(c.(held := Some(c.held.value.(stage := Applied)))) else Finish(Fail(c), h)
  }

  function OnAck(c: Coord, h: Host, answer: Option<Ack>): (Coord, Effect)
    requires c.await.AwaitAck? && c.held.Some?
  {
    match answer
    case None => Finish(Fail(c), h)
    case Some(ack) => if ack.Stale? then Finish(Refused(c), h) else Finish(c.(held := None), h)
  }

  // ---- What every stretch keeps ----

  /** What is awaited fits the held request; a lease is asked for only when there is work and nothing is held. */
  predicate WellStaged(c: Coord) {
    && c.seenEpoch <= c.signalEpoch
    && match c.await
       case Idle => true
       case AwaitPeek(epoch) => c.held.None? && epoch <= c.signalEpoch && HasWork(c)
       case AwaitLease(epoch) => c.held.None? && epoch <= c.signalEpoch && HasWork(c)
       case AwaitDispatch(plan) => c.held.Some? && c.held.value.stage.Leased? && !IsEmpty(c.held.value.launch)
       case AwaitApply => c.held.Some? && c.held.value.stage.Dispatched?
       case AwaitAck => c.held.Some? && c.held.value.stage.Applied?
  }

  predicate IsCall(e: Effect) {
    !e.NoEffect? && !e.CallApply?
  }

  /** The effect is the call the coordinator now waits for. */
  predicate Announces(c: Coord, e: Effect) {
    match e
    case NoEffect => true
    case CallPeek(tag) => c.await.AwaitPeek? && tag == c.tag
    case CallLease(tag) => c.await.AwaitLease? && tag == c.tag
    case CallDispatch(tag, id, gen) =>
      c.await.AwaitDispatch? && tag == c.tag && c.held.Some? && c.held.value.id == id && c.held.value.gen == gen
    case CallAck(tag, id, gen) =>
      c.await.AwaitAck? && tag == c.tag && c.held.Some? && c.held.value.id == id && c.held.value.gen == gen
    case CallApply(plan) =>
      c.await.AwaitApply? && c.held.Some? && c.held.value.stage == Dispatched(plan)
  }

  /** `c'` holds what `c` holds, except that an empty request counts as applied without anyone being told. */
  predicate SameHeld(c: Coord, c': Coord) {
    match c.held
    case None => c'.held.None?
    case Some(held) =>
      && c'.held.Some?
      && (c'.held == c.held
          || (held.stage.Leased? && IsEmpty(held.launch) && c'.held.value == held.(stage := Applied)))
  }

  /**
   One round from `c` to the next await: the epochs, `more`, `failed` and the held request stay, and the
   round stops only at a call or when nothing may be done.
   */
  predicate Settles(c: Coord, h: Host, c': Coord, e: Effect) {
    && c'.signalEpoch == c.signalEpoch && c'.seenEpoch == c.seenEpoch && c'.more == c.more && c'.failed == c.failed
    && SameHeld(c, c')
    && WellStaged(c') && Announces(c', e)
    && c'.tag == c.tag + (if IsCall(e) then 1 else 0)
    && (e.NoEffect? <==> c'.await.Idle?)
    && (c'.await.Idle? ==> !MayPump(c', h))
  }

  lemma {:induction false} CarrySettles(c: Coord, h: Host)
    requires c.held.Some? && c.seenEpoch <= c.signalEpoch
    ensures Settles(c, h, Carry(c, h).0, Carry(c, h).1)
  {
  }

  lemma {:induction false} PumpSettles(c: Coord, h: Host)
    requires c.await.Idle? && c.seenEpoch <= c.signalEpoch
    ensures Settles(c, h, Pump(c, h).0, Pump(c, h).1)
  {
    if MayPump(c, h) && c.held.Some? {
      CarrySettles(c, h);
    }
  }

  lemma {:induction false} FinishSettles(c: Coord, h: Host)
    requires c.seenEpoch <= c.signalEpoch
    ensures Settles(c, h, Finish(c, h).0, Finish(c, h).1)
  {
    PumpSettles(c.(await := Idle), h);
  }
}
