/** The table-driven CRC-32 and the two builders of its table. */
module CrcTables {
  import opened Crc
  import opened FlatFile
  import opened Registers

  /** The byte with a given value, as a word. */
  function Word(i: nat): bv32
    requires i < 256
  {
    (i as bv8) as bv32
  }

  /** Where the table is looked up. */
  function Index(x: bv32): (i: nat)
    ensures i < 256
  {
    (Low(x) as bv8) as int
  }

  lemma IndexOfWord(x: bv32)
    ensures Word(Index(x)) == Low(x)
  {
    RoundTrip(Low(x) as bv8);
    LowFits(x);
  }

  lemma RoundTrip(b: bv8)
    ensures (b as int) as bv8 == b
  {
  }

  lemma LowFits(x: bv32)
    ensures (Low(x) as bv8) as bv32 == Low(x)
  {
  }

  ghost predicate FirstEntries(t: seq<bv32>) {
    |t| <= 256 && forall i :: 0 <= i < |t| ==> t[i] == Entry(Word(i))
  }

  ghost predicate IsTable(t: seq<bv32>) {
    |t| == 256 && forall i :: 0 <= i < 256 ==> t[i] == Entry(Word(i))
  }

  lemma LookedUp(t: seq<bv32>, x: bv32)
    requires IsTable(t)
    ensures t[Index(x)] == Entry(Low(x))
  {
    IndexOfWord(x);
  }

  method MakeTable() returns (table: array<bv32>)
    ensures fresh(table) && IsTable(table[..])
  {
    table := new bv32[256](_ => 0);
    var i := 0;
    while i < 256
      invariant 0 <= i <= 256
      invariant forall j :: 0 <= j < i ==> table[j] == Entry(Word(j))
    {
      var c := Word(i);
      var k := 0;
      while k < 8
        invariant 0 <= k <= 8 && Iter(Shift, c, 8 - k) == Entry(Word(i))
        invariant forall j :: 0 <= j < i ==> table[j] == Entry(Word(j))
      {
        ShiftIs(c);
        c := if c & 1 != 0 then 0xEDB8_8320 ^ (c >> 1) else c >> 1;
        k := k + 1;
      }
      table[i] := c;
      i := i + 1;
    }
  }

  /** Eight shifts. */
  method ShiftByte(b: bv32) returns (c: bv32)
    ensures c == Entry(b)
  {
    c := b;
    for k := 0 to 8
      invariant Iter(Shift, c, 8 - k) == Entry(b)
    {
      ShiftIs(c);
      c := if c & 1 != 0 then 0xEDB8_8320 ^ (c >> 1) else c >> 1;
    }
  }

  /** The other builder, which the cipher of old archives brings along. */
  method MakeCipherTable() returns (table: array<bv32>)
    ensures fresh(table) && IsTable(table[..])
  {
    table := new bv32[256](_ => 0);
    ghost var made := [];
    for i := 0 to 256
      invariant |made| == i && table[..i] == made && FirstEntries(made)
    {
      var c := ShiftByte(Word(i));
      table[i] := c;
      assert table[..i + 1] == made + [c];
      made := made + [c];
    }
    assert table[..] == made;
  }

  /** There is one table. */
  lemma TableIsUnique(a: seq<bv32>, b: seq<bv32>)
    requires IsTable(a) && IsTable(b)
    ensures a == b
  {
    assert forall i :: 0 <= i < 256 ==> a[i] == b[i];
  }

  /** So both builders make the same. */
  method BothTables() returns (a: array<bv32>, b: array<bv32>)
    ensures a[..] == b[..] && IsTable(a[..])
  {
    a := MakeTable();
    b := MakeCipherTable();
    TableIsUnique(a[..], b[..]);
  }

  lemma ShiftIs(c: bv32)
    ensures Shift(c) == if c & 1 != 0 then 0xEDB8_8320 ^ (c >> 1) else c >> 1
  {
  }

  class Crc32 {
    const table: seq<bv32>
    var state: bv32

    ghost predicate Valid()
      reads this
    {
      IsTable(table)
    }

    constructor (table: seq<bv32>)
      requires IsTable(table)
      ensures Valid() && state == ONES
    {
      this.table, this.state := table, 0xFFFF_FFFF;
    }

    method Update(buf: seq<byte>)
      requires Valid()
      modifies this`state
      ensures Valid() && state == BitByBit(old(state), buf)
    {
      var c := state;
      for i := 0 to |buf|
        invariant c == BitByBit(old(state), buf[..i])
      {
        var b := buf[i] as bv32;
        OneMore(old(state), buf, i);
        ByteIsSmall(buf[i]);
        TableStep(c, b);
        LookedUp(table, Xor(c, b));
        c := Xor(table[Index(Xor(c, b))], Upper(c));
      }
      assert buf[..|buf|] == buf;
      state := c;
    }

    method Finalize() returns (crc: bv32)
      ensures crc == state ^ ONES
    {
      crc := state ^ 0xFFFF_FFFF;
    }
  }

  lemma OneMore(c: bv32, buf: seq<byte>, i: nat)
    requires i < |buf|
    ensures BitByBit(c, buf[..i + 1]) == TakeByte(BitByBit(c, buf[..i]), buf[i] as bv32)
  {
    assert buf[..i + 1] == buf[..i] + [buf[i]];
    SplitsAnywhere(c, buf[..i], [buf[i]]);
    BitByBitOfOne(BitByBit(c, buf[..i]), buf[i]);
  }

  lemma BitByBitOfOne(c: bv32, b: byte)
    ensures BitByBit(c, [b]) == TakeByte(c, b as bv32)
  {
  }

  /** The checksum of a text given in any two pieces is the bit-by-bit checksum of the whole. */
  method ChecksumOf(a: seq<byte>, b: seq<byte>) returns (crc: bv32)
    ensures crc == Checksum(a + b)
  {
    var table := MakeTable();
    var c := new Crc32(table[..]);
    c.Update(a);
    c.Update(b);
    SplitsAnywhere(ONES, a, b);
    crc := c.Finalize();
  }
}
