/** Items that follow each other, each of which says where the next one starts. */
module Chains {

  datatype Step<+T> = Over | Broken | One(item: T, next: nat)

  datatype Run<+T> = NoRun | Run(items: seq<T>, end: nat)

  /** The items from `p` on, if there are at most `room` and none is broken. */
  function From<T>(step: nat -> Step<T>, p: nat, room: nat): Run<T>
    decreases room
  {
    match step(p)
    case Over => Run([], p)
    case Broken => NoRun
    case One(x, q) =>
      if room == 0 then NoRun
      else
        match From(step, q, room - 1)
        case NoRun => NoRun
        case Run(others, end) => Run([x] + others, end)
  }

  /** The items found so far, and those from `p` on. */
  function SoFar<T>(step: nat -> Step<T>, p: nat, left: nat, found: seq<T>): Run<T> {
    match From(step, p, left)
    case NoRun => NoRun
    case Run(others, end) => Run(found + others, end)
  }

  lemma NoneSoFar<T>(step: nat -> Step<T>, p: nat, left: nat)
    ensures SoFar(step, p, left, []) == From(step, p, left)
  {
    var all := From(step, p, left);
    assert all.Run? ==> [] + all.items == all.items;
  }

  lemma OneMore<T>(step: nat -> Step<T>, p: nat, left: nat, found: seq<T>, x: T, q: nat)
    requires left > 0 && step(p) == One(x, q)
    ensures SoFar(step, p, left, found) == SoFar(step, q, left - 1, found + [x])
  {
    var rest := From(step, q, left - 1);
    assert rest.Run? ==> found + ([x] + rest.items) == found + [x] + rest.items;
  }

  lemma NoMore<T>(step: nat -> Step<T>, p: nat, left: nat, found: seq<T>)
    ensures step(p).Over? ==> SoFar(step, p, left, found) == Run(found, p)
    ensures step(p).Broken? || (step(p).One? && left == 0) ==> SoFar(step, p, left, found) == NoRun
  {
    assert found + [] == found;
  }

  /** No more items than there is room for. */
  lemma {:induction false} FitsTheRoom<T>(step: nat -> Step<T>, p: nat, room: nat)
    requires From(step, p, room).Run?
    ensures |From(step, p, room).items| <= room
    decreases room
  {
    match step(p)
    case Over =>
    case One(x, q) => FitsTheRoom(step, q, room - 1);
  }

  /** `p` is reached from `start` behind `n` items. */
  predicate Reaches<T>(step: nat -> Step<T>, start: nat, p: nat, n: nat)
    decreases n
  {
    if n == 0 then start == p else step(start).One? && Reaches(step, step(start).next, p, n - 1)
  }

  /** One broken item anywhere, and there is no run. */
  lemma {:induction false} BrokenBehind<T>(step: nat -> Step<T>, start: nat, p: nat, n: nat, room: nat)
    requires Reaches(step, start, p, n) && step(p).Broken?
    ensures From(step, start, room).NoRun?
    decreases n
  {
    if n > 0 && room > 0 {
      BrokenBehind(step, step(start).next, p, n - 1, room - 1);
    }
  }
}
