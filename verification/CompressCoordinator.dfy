/**
 The coordinator as the program it is: variables updated in place between awaits. Every stretch is proved
 to be the one of the same name on the value in `Coordinator`.
 */
module CompressCoordinator {
  import opened Wrappers
  import opened LeaseQueue
  import opened CompressPlan
  import C = Coordinator

  class Coordinator {
    var await: C.Await
    var signalEpoch: nat
    var seenEpoch: nat
    var more: bool
    var held: Option<C.Held>
    var blocked: bool
    var failed: bool
    var tag: nat

    function View(): C.Coord
      reads this
    {
      C.Coord(await, signalEpoch, seenEpoch, more, held, blocked, failed, tag)
    }

    constructor ()
      ensures View() == C.FRESH
    {
      await, signalEpoch, seenEpoch, more := C.Idle, 0, 0, false;
      held, blocked, failed, tag := None, false, false, 0;
    }

    predicate HasWork()
      reads this
    {
      held.Some? || more || seenEpoch != signalEpoch
    }

    method Poke(h: Host) returns (e: C.Effect)
      modifies this
      ensures (View(), e) == C.OnPoke(old(View()), h)
    {
      if blocked && !IsFormDirty(h) {
        blocked := false;
      }
      failed := false;
      e := Pump(h);
    }

    method Signal(h: Host) returns (e: C.Effect)
      modifies this
      ensures (View(), e) == C.OnSignal(old(View()), h)
    {
      signalEpoch := signalEpoch + 1;
      blocked := false;
      failed := false;
      e := Pump(h);
    }

    method Pump(h: Host) returns (e: C.Effect)
      modifies this
      ensures (View(), e) == C.Pump(old(View()), h)
      decreases if C.MayPump(View(), h) then 1 else 0, 2
    {
      if !await.Idle? {
        return C.NoEffect;
      }
      if !HasWork() || blocked || failed || h.busy {
        return C.NoEffect;
      }
      if held.None? {
        e := BeginLease(h);
      } else {
        e := Carry(h);
      }
    }

    method BeginLease(h: Host) returns (e: C.Effect)
      modifies this
      ensures (View(), e) == C.BeginLease(old(View()), h)
    {
      if IsFormDirty(h) {
        tag := tag + 1;
        await := C.AwaitPeek(signalEpoch);
        return C.CallPeek(tag);
      }
      e := AskLease(signalEpoch);
    }

    method AskLease(epoch: nat) returns (e: C.Effect)
      modifies this
      ensures (View(), e) == C.AskLease(old(View()), epoch)
    {
      tag := tag + 1;
      await := C.AwaitLease(epoch);
      e := C.CallLease(tag);
    }

    method Carry(h: Host) returns (e: C.Effect)
      requires held.Some?
      modifies this
      ensures (View(), e) == C.Carry(old(View()), h)
      decreases if C.MayPump(View(), h) then 1 else 0, 1
    {
      match held.value.stage {
        case Leased =>
          if h.busy {
            e := Finish(h);
            return;
          }
          var plan := PlanLaunch(h, held.value.launch);
          match plan {
            case Hold =>
              blocked := true;
              e := Finish(h);
            case Ignore =>
              held := Some(held.value.(stage := C.Applied));
              e := AskAck();
            case Apply(_, _, _, _, _, _) =>
              tag := tag + 1;
              await := C.AwaitDispatch(plan);
              e := C.CallDispatch(tag, held.value.id, held.value.gen);
          }
        case Dispatched(plan) =>
          if h.busy {
            e := Finish(h);
          } else {
            await := C.AwaitApply;
            e := C.CallApply(plan);
          }
        case Applied => e := AskAck();
      }
    }

    method AskAck() returns (e: C.Effect)
      requires held.Some?
      modifies this
      ensures (View(), e) == C.AskAck(old(View()))
    {
      tag := tag + 1;
      await := C.AwaitAck;
      e := C.CallAck(tag, held.value.id, held.value.gen);
    }

    method Finish(h: Host) returns (e: C.Effect)
      modifies this
      ensures (View(), e) == C.Finish(old(View()), h)
      decreases if C.MayPump(View(), h) then 1 else 0, if C.MayPump(View(), h) then 3 else 0
    {
      await := C.Idle;
      if HasWork() && !blocked && !failed && !h.busy {
        e := Pump(h);
      } else {
        e := C.NoEffect;
      }
    }

    method OnPeek(h: Host, answer: Option<bool>) returns (e: C.Effect)
      requires await.AwaitPeek?
      modifies this
      ensures (View(), e) == C.OnPeek(old(View()), h, answer)
    {
      if answer.None? {
        failed := true;
        e := Finish(h);
      } else if answer.value {
        blocked := true;
        e := Finish(h);
      } else {
        e := AskLease(await.epoch);
      }
    }

    method OnLease(h: Host, answer: Option<Take>) returns (e: C.Effect)
      requires await.AwaitLease?
      modifies this
      ensures (View(), e) == C.OnLease(old(View()), h, answer)
    {
      if answer.None? {
        failed := true;
        e := Finish(h);
        return;
      }
      var take := answer.value;
      seenEpoch := await.epoch;
      more := take.more;
      if take.launch.None? {
        e := Finish(h);
        return;
      }
      held := Some(C.Held(take.id, take.gen, take.launch.value, C.Leased));
      e := Carry(h);
    }

    /** Whether the backend took the call; a stale one makes the coordinator let go of what it held. */
    method Accept(ack: Ack) returns (taken: bool)
      modifies this
      ensures taken <==> !ack.Stale?
      ensures View() == if taken then old(View()) else C.Refused(old(View()))
    {
      if ack == Okay || ack == Already {
        return true;
      }
      held := None;
      failed := true;
      taken := false;
    }

    method OnDispatch(h: Host, answer: Option<Ack>) returns (e: C.Effect)
      requires await.AwaitDispatch? && held.Some?
      modifies this
      ensures (View(), e) == C.OnDispatch(old(View()), h, answer)
    {
      if answer.None? {
        failed := true;
        e := Finish(h);
        return;
      }
      var taken := Accept(answer.value);
      if !taken {
        e := Finish(h);
        return;
      }
      held := Some(held.value.(stage := C.Dispatched(await.plan)));
      e := Carry(h);
    }

    method OnApply(h: Host, answer: Option<bool>) returns (e: C.Effect)
      requires await.AwaitApply? && held.Some?
      modifies this
      ensures (View(), e) == C.OnApply(old(View()), h, answer)
    {
      if answer != Some(true) {
        failed := true;
        e := Finish(h);
        return;
      }
      held := Some(held.value.(stage := C.Applied));
      e := AskAck();
    }

    method OnAck(h: Host, answer: Option<Ack>) returns (e: C.Effect)
      requires await.AwaitAck? && held.Some?
      modifies this
      ensures (View(), e) == C.OnAck(old(View()), h, answer)
    {
      if answer.None? {
        failed := true;
        e := Finish(h);
        return;
      }
      var taken := Accept(answer.value);
      if taken {
        held := None;
      }
      e := Finish(h);
    }
  }
}
