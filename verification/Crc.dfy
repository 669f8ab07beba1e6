/**
 CRC-32: the bit-serial register of section 3.2.9 of IEEE 802.3 (with the bits of each byte lowest first), the table,
 and the table-driven update.
 */
module Crc {
  import opened FlatFile
  import opened Registers

  const POLY: bv32 := 0xEDB8_8320

  const ONES: bv32 := 0xFFFF_FFFF

  function Xor(a: bv32, b: bv32): bv32 {
    a ^ b
  }

  function Halve(r: bv32): bv32 {
    r >> 1
  }

  /** The lowest byte of a word. */
  function Low(x: bv32): bv32 {
    x & 0xFF
  }

  /** The other bytes of a word, in their place. */
  function High(x: bv32): bv32 {
    x & 0xFFFF_FF00
  }

  /** The other bytes of a word, moved down. */
  function Upper(x: bv32): bv32 {
    x >> 8
  }

  /** The feedback of the register. */
  function Feed(on: bool, c: bv32): bv32 {
    if on then POLY ^ c else c
  }

  /** Take one bit, the lowest of `r`, into the register. */
  function TakeBit(c: bv32, r: bv32): bv32 {
    Feed((c ^ r) & 1 != 0, c >> 1)
  }

  /** Take a byte into the register, bit by bit. */
  function TakeByte(c: bv32, b: bv32): bv32 {
    Takes(TakeBit, Halve, c, b, 8)
  }

  /** The register after all of `data`, bit by bit. */
  function BitByBit(c: bv32, data: seq<byte>): bv32
    decreases |data|
  {
    if data == [] then c else BitByBit(TakeByte(c, data[0] as bv32), data[1..])
  }

  /** The CRC of `data`, bit by bit. */
  function Checksum(data: seq<byte>): bv32 {
    BitByBit(ONES, data) ^ ONES
  }

  /** One shift of the register with no bit coming in. */
  function Shift(c: bv32): bv32 {
    Feed(c & 1 != 0, c >> 1)
  }

  /** What the table holds for a byte. */
  function Entry(b: bv32): bv32 {
    Iter(Shift, b, 8)
  }

  lemma XorMovesDown(a: bv32, b: bv32)
    ensures (a ^ b) >> 1 == (a >> 1) ^ (b >> 1)
  {
  }

  lemma XorRegroups(a: bv32, b: bv32, c: bv32)
    ensures a ^ (b ^ c) == (a ^ b) ^ c
  {
  }

  lemma FeedBesides(on: bool, c: bv32, r: bv32)
    ensures Feed(on, c ^ r) == Feed(on, c) ^ r
  {
    if on {
      XorRegroups(POLY, c, r);
      assert Feed(on, c) == POLY ^ c;
    } else {
      assert Feed(on, c) == c;
    }
  }

  lemma ShiftUnfolds(c: bv32, r: bv32)
    ensures Shift(c ^ r) == Feed((c ^ r) & 1 != 0, (c ^ r) >> 1)
    ensures TakeBit(c, r) == Feed((c ^ r) & 1 != 0, c >> 1)
  {
  }

  /** The bits of `r` may wait in the register until their turn comes. */
  lemma OneBit(c: bv32, r: bv32)
    ensures Shift(Xor(c, r)) == Xor(TakeBit(c, r), Halve(r))
  {
    ShiftUnfolds(c, r);
    XorMovesDown(c, r);
    FeedBesides((c ^ r) & 1 != 0, c >> 1, r >> 1);
  }

  lemma XorPassesThrough()
    ensures PassesThrough(Xor, Shift, TakeBit, Halve)
  {
    forall c: bv32, r: bv32
      ensures Shift(Xor(c, r)) == Xor(TakeBit(c, r), Halve(r))
    {
      OneBit(c, r);
    }
  }

  lemma ShiftIsInjective(a: bv32, b: bv32)
    requires Shift(a) == Shift(b)
    ensures a == b
  {
  }

  lemma HalveEight(r: bv32)
    ensures Iter(Halve, r, 8) == Upper(r)
  {
    EightTimes(Halve, r);
  }

  lemma EightTimes<T>(f: T -> T, x: T)
    ensures Iter(f, x, 8) == f(f(f(f(f(f(f(f(x))))))))
  {
    assert Iter(f, x, 8) == Iter(f, f(f(x)), 6) == Iter(f, f(f(f(f(x)))), 4) == Iter(f, f(f(f(f(f(f(x)))))), 2);
  }

  /** Taking a byte bit by bit, in terms of the register with the whole word in it. */
  lemma ByteAtOnce(c: bv32, w: bv32)
    ensures Iter(Shift, Xor(c, w), 8) == Xor(TakeByte(c, w), Upper(w))
  {
    XorPassesThrough();
    AllAtOnce(Xor, Shift, TakeBit, Halve, c, w, 8);
    HalveEight(w);
  }

  /** The lowest `n` bits of `h` are zeros. */
  predicate Clear(h: bv32, n: nat)
    decreases n
  {
    n == 0 || (h & 1 == 0 && Clear(h >> 1, n - 1))
  }

  lemma HighIsClear(x: bv32)
    ensures Clear(High(x), 8)
  {
    var h := High(x);
    assert Clear(h >> 6, 2);
    assert Clear(h >> 4, 4) by { assert h >> 4 >> 1 >> 1 == h >> 6; }
    assert Clear(h >> 2, 6) by { assert h >> 2 >> 1 >> 1 == h >> 4; }
    assert h >> 1 >> 1 == h >> 2;
  }

  lemma NothingTaken(c: bv32, h: bv32)
    requires h & 1 == 0
    ensures TakeBit(c, h) == Shift(c)
  {
    assert (c ^ h) & 1 == c & 1;
  }

  lemma {:induction false} ZerosTaken(c: bv32, h: bv32, n: nat)
    requires Clear(h, n)
    ensures Takes(TakeBit, Halve, c, h, n) == Iter(Shift, c, n)
    decreases n
  {
    if n > 0 {
      NothingTaken(c, h);
      ZerosTaken(Shift(c), h >> 1, n - 1);
    }
  }

  lemma LowAndHigh(x: bv32)
    ensures Xor(Low(x), High(x)) == x && Upper(High(x)) == Upper(x)
  {
  }

  lemma EightShiftsOf(x: bv32, l: bv32, h: bv32, d: bv32)
    requires Xor(l, h) == x && Clear(h, 8) && Upper(h) == d
    ensures Iter(Shift, x, 8) == Xor(Entry(l), d)
  {
    ByteAtOnce(l, h);
    ZerosTaken(l, h, 8);
  }

  /** Only the lowest byte goes through the feedback within eight shifts. */
  lemma EightShifts(x: bv32)
    ensures Iter(Shift, x, 8) == Xor(Entry(Low(x)), Upper(x))
  {
    LowAndHigh(x);
    HighIsClear(x);
    EightShiftsOf(x, Low(x), High(x), Upper(x));
  }

  lemma ByteIsLow(c: bv32, b: bv32)
    requires b <= 0xFF
    ensures Upper(b) == 0 && Upper(Xor(c, b)) == Upper(c)
  {
  }

  lemma XorZero(a: bv32)
    ensures Xor(a, 0) == a
  {
  }

  lemma TableStepOf(c: bv32, b: bv32, x: bv32)
    requires Xor(c, b) == x && Upper(b) == 0
    ensures TakeByte(c, b) == Xor(Entry(Low(x)), Upper(x))
  {
    ByteAtOnce(c, b);
    XorZero(TakeByte(c, b));
    EightShifts(x);
  }

  /** The table-driven step is the bit-by-bit one. */
  lemma TableStep(c: bv32, b: bv32)
    requires b <= 0xFF
    ensures TakeByte(c, b) == Xor(Entry(Low(Xor(c, b))), Upper(c))
  {
    ByteIsLow(c, b);
    TableStepOf(c, b, Xor(c, b));
  }

  /** How a sequence of updates may be split makes no difference. */
  lemma {:induction false} SplitsAnywhere(c: bv32, a: seq<byte>, b: seq<byte>)
    ensures BitByBit(c, a + b) == BitByBit(BitByBit(c, a), b)
    decreases |a|
  {
    if a == [] {
      assert a + b == b;
    } else {
      assert (a + b)[1..] == a[1..] + b;
      SplitsAnywhere(TakeByte(c, a[0] as bv32), a[1..], b);
    }
  }

  /** The lowest `n` bits of the two words agree. */
  predicate SameLow(r: bv32, s: bv32, n: nat)
    decreases n
  {
    n == 0 || (r & 1 == s & 1 && SameLow(r >> 1, s >> 1, n - 1))
  }

  lemma SameBit(c: bv32, r: bv32, s: bv32)
    requires r & 1 == s & 1
    ensures TakeBit(c, r) == TakeBit(c, s)
  {
    assert (c ^ r) & 1 == (c ^ s) & 1;
  }

  lemma {:induction false} SameBitsTaken(c: bv32, r: bv32, s: bv32, n: nat)
    requires SameLow(r, s, n)
    ensures Takes(TakeBit, Halve, c, r, n) == Takes(TakeBit, Halve, c, s, n)
    decreases n
  {
    if n > 0 {
      SameBit(c, r, s);
      SameBitsTaken(TakeBit(c, r), r >> 1, s >> 1, n - 1);
    }
  }

  lemma LowIsSame(x: bv32)
    ensures SameLow(x, Low(x), 8)
  {
    var l := Low(x);
    assert SameLow(x >> 6, l >> 6, 2);
    assert SameLow(x >> 4, l >> 4, 4) by { assert x >> 4 >> 1 >> 1 == x >> 6 && l >> 4 >> 1 >> 1 == l >> 6; }
    assert SameLow(x >> 2, l >> 2, 6) by { assert x >> 2 >> 1 >> 1 == x >> 4 && l >> 2 >> 1 >> 1 == l >> 4; }
    assert x >> 1 >> 1 == x >> 2 && l >> 1 >> 1 == l >> 2;
  }

  /** The word made of up to four bytes, the first one lowest. */
  function WordOf(u: seq<byte>): bv32 {
    if u == [] then 0 else Join(u[0] as bv32, WordOf(u[1..]))
  }

  function Join(b: bv32, upper: bv32): bv32 {
    b | (upper << 8)
  }

  lemma JoinSplits(b: bv32, upper: bv32)
    requires b <= 0xFF && upper <= 0xFF_FFFF
    ensures Low(Join(b, upper)) == b && Upper(Join(b, upper)) == upper
  {
  }

  lemma JoinGrows(b: bv32, upper: bv32)
    requires b <= 0xFF
    ensures upper == 0 ==> Join(b, upper) <= 0xFF
    ensures upper <= 0xFF ==> Join(b, upper) <= 0xFFFF
    ensures upper <= 0xFFFF ==> Join(b, upper) <= 0xFF_FFFF
  {
  }

  lemma ByteIsSmall(b: byte)
    ensures (b as bv32) <= 0xFF
  {
  }

  lemma WordIsSmall(u: seq<byte>)
    requires |u| <= 3
    ensures WordOf(u) <= 0xFF_FFFF
    ensures |u| <= 2 ==> WordOf(u) <= 0xFFFF
    ensures |u| <= 1 ==> WordOf(u) <= 0xFF
    ensures |u| == 0 ==> WordOf(u) == 0
  {
    if u != [] {
      ByteIsSmall(u[0]);
      WordIsSmall(u[1..]);
      JoinGrows(u[0] as bv32, WordOf(u[1..]));
    }
  }

  lemma WordSplits(u: seq<byte>)
    requires 0 < |u| <= 4
    ensures Low(WordOf(u)) == u[0] as bv32 && Upper(WordOf(u)) == WordOf(u[1..])
  {
    ByteIsSmall(u[0]);
    WordIsSmall(u[1..]);
    JoinSplits(u[0] as bv32, WordOf(u[1..]));
  }

  lemma ByteIsItsWord(a: byte, b: byte)
    requires a as bv32 == b as bv32
    ensures a == b
  {
  }

  lemma SameParts(u: seq<byte>, v: seq<byte>)
    requires 0 < |u| == |v| <= 4 && WordOf(u) == WordOf(v)
    ensures u[0] == v[0] && WordOf(u[1..]) == WordOf(v[1..])
  {
    WordSplits(u);
    WordSplits(v);
    ByteIsItsWord(u[0], v[0]);
  }

  lemma {:induction false} WordsDiffer(u: seq<byte>, v: seq<byte>)
    requires |u| == |v| <= 4 && WordOf(u) == WordOf(v)
    ensures u == v
  {
    if u != [] {
      SameParts(u, v);
      WordsDiffer(u[1..], v[1..]);
      assert u == [u[0]] + u[1..] && v == [v[0]] + v[1..];
    }
  }

  /** Up to four bytes are taken like one word. */
  lemma {:induction false} BytesAreAWord(c: bv32, u: seq<byte>)
    requires |u| <= 4
    ensures BitByBit(c, u) == Takes(TakeBit, Halve, c, WordOf(u), 8 * |u|)
    ensures Iter(Halve, WordOf(u), 8 * |u|) == 0
    decreases |u|
  {
    if u != [] {
      var w := WordOf(u);
      WordSplits(u);
      LowIsSame(w);
      SameBitsTaken(c, w, Low(w), 8);
      BytesAreAWord(TakeByte(c, w), u[1..]);
      HalveEight(w);
      TakesInTwo(TakeBit, Halve, c, w, 8, 8 * |u[1..]|);
      IterInTwo(Halve, w, 8, 8 * |u[1..]|);
    }
  }

  lemma BytesAtOnce(c: bv32, u: seq<byte>)
    requires |u| <= 4
    ensures BitByBit(c, u) == Iter(Shift, Xor(c, WordOf(u)), 8 * |u|)
  {
    XorPassesThrough();
    AllAtOnce(Xor, Shift, TakeBit, Halve, c, WordOf(u), 8 * |u|);
    BytesAreAWord(c, u);
    XorZero(BitByBit(c, u));
  }

  lemma ShiftsAreInjective(a: bv32, b: bv32, n: nat)
    requires Iter(Shift, a, n) == Iter(Shift, b, n)
    ensures a == b
  {
    forall x: bv32, y: bv32 | Shift(x) == Shift(y)
      ensures x == y
    {
      ShiftIsInjective(x, y);
    }
    IterIsInjective(Shift, a, b, n);
  }

  lemma XorIsInjective(a: bv32, b: bv32, c: bv32)
    ensures Xor(a, c) == Xor(b, c) ==> a == b
    ensures Xor(c, a) == Xor(c, b) ==> a == b
  {
  }

  lemma ByteKeepsApart(c: bv32, d: bv32, b: byte)
    requires TakeByte(c, b as bv32) == TakeByte(d, b as bv32)
    ensures c == d
  {
    ByteAtOnce(c, b as bv32);
    ByteAtOnce(d, b as bv32);
    ShiftsAreInjective(Xor(c, b as bv32), Xor(d, b as bv32), 8);
    XorIsInjective(c, d, b as bv32);
  }

  /** Different registers stay different, whatever comes in. */
  lemma {:induction false} RegistersStayApart(c: bv32, d: bv32, data: seq<byte>)
    requires BitByBit(c, data) == BitByBit(d, data)
    ensures c == d
    decreases |data|
  {
    if data != [] {
      RegistersStayApart(TakeByte(c, data[0] as bv32), TakeByte(d, data[0] as bv32), data[1..]);
      ByteKeepsApart(c, d, data[0]);
    }
  }

  /** From one register, different words of up to four bytes lead to different registers. */
  lemma WordsAreKeptApart(c: bv32, u: seq<byte>, v: seq<byte>)
    requires |u| == |v| <= 4 && BitByBit(c, u) == BitByBit(c, v)
    ensures u == v
  {
    BytesAtOnce(c, u);
    BytesAtOnce(c, v);
    ShiftsAreInjective(Xor(c, WordOf(u)), Xor(c, WordOf(v)), 8 * |u|);
    XorIsInjective(WordOf(u), WordOf(v), c);
    WordsDiffer(u, v);
  }

  lemma InThree(pre: seq<byte>, u: seq<byte>, post: seq<byte>)
    ensures BitByBit(ONES, pre + u + post) == BitByBit(BitByBit(BitByBit(ONES, pre), u), post)
  {
    SplitsAnywhere(ONES, pre + u, post);
    SplitsAnywhere(ONES, pre, u);
  }

  lemma MiddlesAreCaught(pre: seq<byte>, u: seq<byte>, v: seq<byte>, post: seq<byte>)
    requires |u| == |v| <= 4 && Checksum(pre + u + post) == Checksum(pre + v + post)
    ensures u == v
  {
    XorIsInjective(BitByBit(ONES, pre + u + post), BitByBit(ONES, pre + v + post), ONES);
    InThree(pre, u, post);
    InThree(pre, v, post);
    var c := BitByBit(ONES, pre);
    RegistersStayApart(BitByBit(c, u), BitByBit(c, v), post);
    WordsAreKeptApart(c, u, v);
  }

  /** Differences within four bytes in a row are always caught. */
  lemma BurstsAreCaught(a: seq<byte>, b: seq<byte>, i: nat, n: nat)
    requires |a| == |b| && i + n <= |a| && n <= 4
    requires a[..i] == b[..i] && a[i + n..] == b[i + n..]
    ensures Checksum(a) == Checksum(b) <==> a == b
  {
    var u, v, post := a[i..i + n], b[i..i + n], a[i + n..];
    assert a == a[..i] + u + post && b == a[..i] + v + post;
    if Checksum(a) == Checksum(b) {
      MiddlesAreCaught(a[..i], u, v, post);
    }
  }

  /** In particular, two inputs that differ in exactly one byte. */
  lemma OneByteIsCaught(a: seq<byte>, i: nat, x: byte)
    requires i < |a| && x != a[i]
    ensures Checksum(a[i := x]) != Checksum(a)
  {
    BurstsAreCaught(a[i := x], a, i, 1);
    assert a[i := x][i] != a[i];
  }
}
