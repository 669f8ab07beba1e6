/**
 The writer through which the EGG engine looks at the cancel flag in the middle of an item, under a `write_all` as the
 Rust standard library documents it: it goes on until all is written, and a write that was interrupted is tried again.
 */
module CancelWriters {
  /** What one write answers. */
  datatype Wrote = Took(n: nat) | Interrupted | Refused

  /** A `write_all` on its way, with so many bytes left, or its end. */
  datatype WriteAll = Going(left: nat) | Written | Failed

  /** The writer asks the flag before it hands the bytes on. */
  function WriteOnce(canceled: bool, inner: Wrote): Wrote {
    if canceled then Interrupted else inner
  }

  function Round(s: WriteAll, w: Wrote): WriteAll {
    if !s.Going? then s
    else if s.left == 0 then Written
    else
      match w
      case Interrupted => s
      case Refused => Failed
      case Took(n) => if n == 0 then Failed else if n < s.left then Going(s.left - n) else Written
  }

  /** Where it is after `t` rounds. */
  function After(left: nat, canceled: nat -> bool, inner: nat -> Wrote, t: nat): WriteAll {
    if t == 0 then if left == 0 then Written else Going(left)
    else Round(After(left, canceled, inner, t - 1), WriteOnce(canceled(t - 1), inner(t - 1)))
  }

  /** The flag is never taken back. */
  ghost predicate Stays(canceled: nat -> bool) {
    forall t: nat, u: nat :: t <= u && canceled(t) ==> canceled(u)
  }

  lemma {:induction false} EndsStay(left: nat, canceled: nat -> bool, inner: nat -> Wrote, t: nat, u: nat)
    requires t <= u && !After(left, canceled, inner, t).Going?
    ensures After(left, canceled, inner, u) == After(left, canceled, inner, t)
  {
    if t < u {
      EndsStay(left, canceled, inner, t, u - 1);
    }
  }

  /** From the first round that sees the flag, nothing moves any more. */
  lemma {:induction false} NothingMovesOnceCanceled(left: nat, canceled: nat -> bool, inner: nat -> Wrote, t: nat, u: nat)
    requires Stays(canceled) && canceled(t) && t <= u
    ensures After(left, canceled, inner, u) == After(left, canceled, inner, t)
  {
    if t < u {
      NothingMovesOnceCanceled(left, canceled, inner, t, u - 1);
    }
  }

  /** Unless a round sees the flag or is interrupted from below, every round brings the end nearer. */
  lemma {:induction false} EndsWithinTheBytes(left: nat, canceled: nat -> bool, inner: nat -> Wrote, t: nat)
    requires forall u: nat :: u < t ==> !canceled(u) && !inner(u).Interrupted?
    ensures var s := After(left, canceled, inner, t); s.Going? ==> s.left + t <= left && s.left > 0
  {
    if t > 0 {
      EndsWithinTheBytes(left, canceled, inner, t - 1);
    }
  }

  /**
   A write comes to an end exactly when it has come to its end before the flag is seen: a user who cancels in the
   middle of one gets no answer, because the interruption is tried again for ever.
   */
  lemma {:induction false} ReturnsExactlyWhenDoneBeforeTheCancel(
      left: nat, canceled: nat -> bool, inner: nat -> Wrote, first: nat)
    requires Stays(canceled) && canceled(first)
    ensures (exists t: nat :: !After(left, canceled, inner, t).Going?) <==> !After(left, canceled, inner, first).Going?
  {
    forall t: nat | !After(left, canceled, inner, t).Going?
      ensures !After(left, canceled, inner, first).Going?
    {
      if t <= first {
        EndsStay(left, canceled, inner, t, first);
      } else {
        NothingMovesOnceCanceled(left, canceled, inner, first, t);
      }
    }
  }

  /** And a write that nobody cancels does come to an end. */
  lemma {:induction false} ReturnsWhenNobodyCancels(left: nat, canceled: nat -> bool, inner: nat -> Wrote)
    requires forall u: nat :: !canceled(u) && !inner(u).Interrupted?
    ensures !After(left, canceled, inner, left).Going?
  {
    EndsWithinTheBytes(left, canceled, inner, left);
  }
}
