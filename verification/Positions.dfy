/** Positions in a file: unsigned 64-bit numbers, moved by signed ones. */
module Positions {
  import opened Wrappers

  const TWO63: int := 0x8000_0000_0000_0000
  const TWO64: int := 0x1_0000_0000_0000_0000

  type u64 = n: int | 0 <= n < 0x1_0000_0000_0000_0000
  type i64 = n: int | -0x8000_0000_0000_0000 <= n < 0x8000_0000_0000_0000

  datatype SeekFrom = Start(to: u64) | Current(delta: i64) | End(delta: i64)

  /** The cast of an unsigned number to a signed one keeps its bits. */
  function AsI64(n: u64): i64 {
    if n < TWO63 then n else n - TWO64
  }

  /** Addition that reports overflow. */
  function CheckedAdd(a: i64, b: i64): Option<i64> {
    if -TWO63 <= a + b < TWO63 then Some(a + b) else None
  }

  /** Where a seek goes; `None` is an error. */
  function Target(from: SeekFrom, pos: u64, len: u64): Option<u64> {
    match from
    case Start(to) => Some(to)
    case Current(delta) => NonNegative(CheckedAdd(AsI64(pos), delta))
    case End(delta) => NonNegative(CheckedAdd(AsI64(len), delta))
  }

  function NonNegative(n: Option<i64>): Option<u64> {
    if n.Some? && n.value >= 0 then Some(n.value) else None
  }

  /** Where a seek should go. */
  function Wanted(from: SeekFrom, pos: u64, len: u64): int {
    match from
    case Start(to) => to
    case Current(delta) => pos + delta
    case End(delta) => len + delta
  }

  /** What the seek starts from. */
  function Base(from: SeekFrom, pos: u64, len: u64): u64 {
    match from
    case Start(_) => 0
    case Current(_) => pos
    case End(_) => len
  }

  /** From a base below 2^63 a seek goes where it should, or fails because that is no place. */
  lemma SeekIsRightBelow2To63(from: SeekFrom, pos: u64, len: u64)
    ensures Base(from, pos, len) < TWO63 ==>
              match Target(from, pos, len)
              case Some(p) => p == Wanted(from, pos, len)
              case None => Wanted(from, pos, len) < 0 || Wanted(from, pos, len) >= TWO63
  {
  }

  /** The seek goes somewhere else than it should. */
  predicate Astray(from: SeekFrom, pos: u64, len: u64) {
    Target(from, pos, len).Some? && Target(from, pos, len).value != Wanted(from, pos, len)
  }

  /** Some move goes to a wrong place from exactly the bases above 2^63, be it the position or the length. */
  lemma SeekGoesAstrayAbove(pos: u64, len: u64)
    ensures pos > TWO63 <==> exists delta: i64 :: Astray(Current(delta), pos, len)
    ensures len > TWO63 <==> exists delta: i64 :: Astray(End(delta), pos, len)
  {
    var delta: i64 := TWO63 - 1;
    assert pos > TWO63 ==> Astray(Current(delta), pos, len);
    assert len > TWO63 ==> Astray(End(delta), pos, len);
  }
}
