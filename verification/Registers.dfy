/**
 Shift registers over any group of words. Nothing is used of the words but that `plus` passes through one shift;
 what follows for many shifts is proved here once.
 */
module Registers {

  /** `c` after `n` applications of `f`. */
  function Iter<T>(f: T -> T, c: T, n: nat): T
    decreases n
  {
    if n == 0 then c else Iter(f, f(c), n - 1)
  }

  /** The register `c` after `n` bits were taken from the low end of `r`. */
  function Takes<T>(take: (T, T) -> T, down: T -> T, c: T, r: T, n: nat): T
    decreases n
  {
    if n == 0 then c else Takes(take, down, take(c, r), down(r), n - 1)
  }

  /** Shifting a sum is taking the lowest bit of `r` into `c`, with the rest of `r` still waiting. */
  ghost predicate PassesThrough<T(!new)>(plus: (T, T) -> T, shift: T -> T, take: (T, T) -> T, down: T -> T) {
    forall c, r :: shift(plus(c, r)) == plus(take(c, r), down(r))
  }

  /** Bits put into the register as a whole come out as if they had been taken one by one. */
  lemma {:induction false} AllAtOnce<T(!new)>(
      plus: (T, T) -> T, shift: T -> T, take: (T, T) -> T, down: T -> T, c: T, r: T, n: nat)
    requires PassesThrough(plus, shift, take, down)
    ensures Iter(shift, plus(c, r), n) == plus(Takes(take, down, c, r, n), Iter(down, r, n))
    decreases n
  {
    if n > 0 {
      assert shift(plus(c, r)) == plus(take(c, r), down(r));
      AllAtOnce(plus, shift, take, down, take(c, r), down(r), n - 1);
    }
  }

  lemma {:induction false} IterIsInjective<T(!new)>(f: T -> T, a: T, b: T, n: nat)
    requires (forall x, y :: f(x) == f(y) ==> x == y) && Iter(f, a, n) == Iter(f, b, n)
    ensures a == b
    decreases n
  {
    if n > 0 {
      IterIsInjective(f, f(a), f(b), n - 1);
    }
  }

  lemma {:induction false} IterInTwo<T>(f: T -> T, c: T, m: nat, n: nat)
    ensures Iter(f, Iter(f, c, m), n) == Iter(f, c, m + n)
    decreases m
  {
    if m > 0 {
      IterInTwo(f, f(c), m - 1, n);
    }
  }

  lemma {:induction false} TakesInTwo<T>(take: (T, T) -> T, down: T -> T, c: T, r: T, m: nat, n: nat)
    ensures Takes(take, down, Takes(take, down, c, r, m), Iter(down, r, m), n) == Takes(take, down, c, r, m + n)
    decreases m
  {
    if m > 0 {
      TakesInTwo(take, down, take(c, r), down(r), m - 1, n);
    }
  }
}
