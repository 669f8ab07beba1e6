/** A cursor over bytes. Reading past the end is an error and moves nothing. */
module ByteReaders {
  import opened Wrappers
  import opened Positions

  /** A byte, as the number that it is. */
  type octet = n: nat | n < 256

  /** A number of 32 bits, as its bytes, the lowest first. */
  datatype Word = Word(b0: octet, b1: octet, b2: octet, b3: octet) {
    function Value(): nat {
      (b0 as int) + 0x100 * (b1 as int) + 0x1_0000 * (b2 as int) + 0x100_0000 * (b3 as int)
    }
  }

  function U16At(data: seq<octet>, p: nat): nat
    requires p + 2 <= |data|
  {
    (data[p] as int) + 0x100 * (data[p + 1] as int)
  }

  function WordAt(data: seq<octet>, p: nat): Word
    requires p + 4 <= |data|
  {
    Word(data[p], data[p + 1], data[p + 2], data[p + 3])
  }

  function U32At(data: seq<octet>, p: nat): nat
    requires p + 4 <= |data|
  {
    WordAt(data, p).Value()
  }

  function U64At(data: seq<octet>, p: nat): nat
    requires p + 8 <= |data|
  {
    U32At(data, p) + 0x1_0000_0000 * U32At(data, p + 4)
  }

  /** A number of a width that is only known when it is read. */
  function VarAt(data: seq<octet>, p: nat, width: nat): nat
    requires width in {1, 2, 4, 8} && p + width <= |data|
  {
    if width == 1 then data[p]
    else if width == 2 then U16At(data, p)
    else if width == 4 then U32At(data, p)
    else U64At(data, p)
  }

  /** The four bytes at `p`, if they are there. */
  function Peeked(data: seq<octet>, p: nat): Option<Word> {
    if p + 4 <= |data| then Some(WordAt(data, p)) else None
  }

  class Reader {
    const data: seq<octet>
    var pos: nat

    predicate Valid()
      reads this
    {
      pos <= |data| < TWO64
    }

    constructor (data: seq<octet>)
      requires |data| < TWO64
      ensures Valid() && this.data == data && pos == 0
    {
      this.data, this.pos := data, 0;
    }

    method Bytes(n: nat) returns (r: Option<seq<octet>>)
      requires Valid()
      modifies this
      ensures Valid()
      ensures r.Some? <==> old(pos) + n <= |data|
      ensures r.Some? ==> pos == old(pos) + n && r.value == data[old(pos)..pos]
      ensures r.None? ==> pos == old(pos)
    {
      if |data| - pos < n {
        return None;
      }
      r := Some(data[pos..pos + n]);
      pos := pos + n;
    }

    method Skip(n: nat) returns (ok: bool)
      requires Valid()
      modifies this
      ensures Valid() && (ok <==> old(pos) + n <= |data|)
      ensures pos == if ok then old(pos) + n else old(pos)
    {
      ok := |data| - pos >= n;
      if ok {
        pos := pos + n;
      }
    }

    /** To a position, or to the end if it is behind that. */
    method SeekTo(p: nat)
      requires Valid()
      modifies this
      ensures Valid() && pos == if p <= |data| then p else |data|
    {
      pos := if p <= |data| then p else |data|;
    }

    method U16() returns (r: Option<nat>)
      requires Valid()
      modifies this
      ensures Valid()
      ensures r.Some? <==> old(pos) + 2 <= |data|
      ensures r.Some? ==> pos == old(pos) + 2 && r.value == U16At(data, old(pos))
      ensures r.None? ==> pos == old(pos)
    {
      if |data| - pos < 2 {
        return None;
      }
      r := Some(U16At(data, pos));
      pos := pos + 2;
    }

    method U32() returns (r: Option<Word>)
      requires Valid()
      modifies this
      ensures Valid()
      ensures r.Some? <==> old(pos) + 4 <= |data|
      ensures r.Some? ==> pos == old(pos) + 4 && r.value == WordAt(data, old(pos))
      ensures r.None? ==> pos == old(pos)
    {
      if |data| - pos < 4 {
        return None;
      }
      r := Some(WordAt(data, pos));
      pos := pos + 4;
    }

    method U64() returns (r: Option<nat>)
      requires Valid()
      modifies this
      ensures Valid()
      ensures r.Some? <==> old(pos) + 8 <= |data|
      ensures r.Some? ==> pos == old(pos) + 8 && r.value == U64At(data, old(pos))
      ensures r.None? ==> pos == old(pos)
    {
      if |data| - pos < 8 {
        return None;
      }
      r := Some(U64At(data, pos));
      pos := pos + 8;
    }

    method U8() returns (r: Option<octet>)
      requires Valid()
      modifies this
      ensures Valid()
      ensures r.Some? <==> old(pos) < |data|
      ensures r.Some? ==> pos == old(pos) + 1 && r.value == data[old(pos)]
      ensures r.None? ==> pos == old(pos)
    {
      var b := Bytes(1);
      r := if b.Some? then Some(b.value[0]) else None;
    }

    method PeekU32() returns (r: Option<Word>)
      requires Valid()
      ensures r == Peeked(data, pos)
    {
      if |data| - pos < 4 {
        return None;
      }
      r := Some(WordAt(data, pos));
    }

    /** The number `off` bytes further on; nothing if that is not inside. */
    method PeekU32At(off: nat) returns (r: Option<Word>)
      requires Valid()
      ensures r == Peeked(data, pos + off)
    {
      if pos + off >= TWO64 {
        return None;
      }
      var p := pos + off;
      if p > |data| || |data| - p < 4 {
        return None;
      }
      r := Some(WordAt(data, p));
    }

    /** A number of 1, 2, 4 or 8 bytes; any other width is an error. */
    method VarUInt(width: nat) returns (r: Option<nat>)
      requires Valid()
      modifies this
      ensures Valid()
      ensures r.Some? <==> width in {1, 2, 4, 8} && old(pos) + width <= |data|
      ensures r.Some? ==> pos == old(pos) + width && r.value == VarAt(data, old(pos), width)
      ensures r.None? ==> pos == old(pos)
    {
      if width == 1 {
        r := U8();
      } else if width == 2 {
        r := U16();
      } else if width == 4 {
        var w := U32();
        r := if w.Some? then Some(w.value.Value()) else None;
      } else if width == 8 {
        r := U64();
      } else {
        r := None;
      }
    }
  }
}
