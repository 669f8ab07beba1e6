/** The traditional PKWARE stream cipher, section 6.1 of PKWARE APPNOTE.TXT. */
module ZipCryptos {
  import opened Crc
  import opened CrcTables
  import opened FlatFile
  import opened StreamCiphers

  datatype Keys = Keys(k0: bv32, k1: bv32, k2: bv32)

  const START := Keys(0x1234_5678, 0x2345_6789, 0x3456_7890)

  function Scrambled(k1: bv32, low: bv32): bv32 {
    (k1 + low) * 134_775_813 + 1
  }

  /** The keys after a plain byte. */
  function Next(k: Keys, p: byte): Keys {
    var k0 := TakeByte(k.k0, p as bv32);
    var k1 := Scrambled(k.k1, Low(k0));
    Keys(k0, k1, TakeByte(k.k2, Top(k1)))
  }

  function Top(x: bv32): bv32 {
    x >> 24
  }

  /** The byte that hides the next plain byte. */
  function Pad(k: Keys): byte {
    PadOf(k.k2)
  }

  function PadOf(k2: bv32): byte {
    var t := (k2 | 2) & 0xFFFF;
    (((t * (t ^ 1)) >> 8) & 0xFF) as bv8
  }

  function Mix(a: byte, b: byte): byte {
    a ^ b
  }

  const ZIP := Cipher(Next, Pad, Mix)

  lemma MixTwice()
    ensures TwiceIsNothing(ZIP)
  {
    forall a, b
      ensures ZIP.mix(ZIP.mix(a, b), b) == a
    {
      MixOnBytes(a, b);
    }
  }

  lemma MixOnBytes(a: byte, b: byte)
    ensures Mix(Mix(a, b), b) == a
  {
  }

  lemma OneMoreOf(password: seq<byte>, i: nat)
    requires i < |password|
    ensures After(ZIP, START, password[..i + 1]) == ZIP.next(After(ZIP, START, password[..i]), password[i])
  {
    assert password[..i + 1] == password[..i] + [password[i]];
    OneMorePlain(ZIP, START, password[..i], password[i]);
  }

  class ZipCrypto {
    const table: seq<bv32>
    var k0: bv32
    var k1: bv32
    var k2: bv32

    ghost predicate Valid() {
      IsTable(table)
    }

    ghost function State(): Keys
      reads this
    {
      Keys(k0, k1, k2)
    }

    constructor (table: seq<bv32>, password: seq<byte>)
      requires IsTable(table)
      ensures Valid() && State() == After(ZIP, START, password)
    {
      this.table := table;
      this.k0, this.k1, this.k2 := 0x1234_5678, 0x2345_6789, 0x3456_7890;
      new;
      for i := 0 to |password|
        invariant State() == After(ZIP, START, password[..i])
      {
        OneMoreOf(password, i);
        UpdateKeys(password[i]);
      }
      assert password[..|password|] == password;
    }

    method UpdateKeys(b: byte)
      requires Valid()
      modifies this
      ensures State() == Next(old(State()), b)
    {
      ByteIsSmall(b);
      k0 := Step(table, k0, b as bv32);
      k1 := Scrambled(k1, Low(k0));
      TopIsSmall(k1);
      k2 := Step(table, k2, Top(k1));
    }

    /** Decrypt one byte. */
    method DecryptByte(c: byte) returns (p: byte)
      requires Valid()
      modifies this
      ensures p == Mix(c, Pad(old(State()))) && State() == Next(old(State()), p)
    {
      p := c ^ PadOf(k2);
      UpdateKeys(p);
    }

    /** Decrypt in place, going on where the last call ended. */
    method Decrypt(data: array<byte>)
      requires Valid()
      modifies this, data
      ensures data[..] == Decrypted(ZIP, old(State()), old(data[..]))
      ensures State() == After(ZIP, old(State()), data[..])
    {
      ghost var cipher, plain := data[..], [];
      for i := 0 to data.Length
        invariant |plain| == i && plain == Decrypted(ZIP, old(State()), cipher[..i])
        invariant State() == After(ZIP, old(State()), plain)
        invariant data[..] == plain + cipher[i..]
      {
        Replaced(plain, cipher, i);
        var p := DecryptByte(data[i]);
        OneMoreByte(ZIP, old(State()), cipher, i, plain, p);
        data[i] := p;
        plain := plain + [p];
      }
      assert cipher[data.Length..] == [] && cipher[..data.Length] == cipher;
    }

    /** Whether the twelve bytes in front of the data end in the expected byte; the keys go on behind them. */
    method CheckHeader(header: seq<byte>, verify: byte) returns (ok: bool)
      requires Valid()
      modifies this
      ensures |header| < 12 ==> !ok && State() == old(State())
      ensures |header| >= 12 ==>
                var plain := Decrypted(ZIP, old(State()), header[..12]);
                (ok <==> plain[11] == verify) && State() == After(ZIP, old(State()), plain)
    {
      if |header| < 12 {
        return false;
      }
      var buf := new byte[12](i requires 0 <= i < 12 => header[i]);
      assert buf[..] == header[..12];
      Decrypt(buf);
      ok := buf[11] == verify;
    }
  }

  /** Replacing the first byte that is left. */
  lemma Replaced(plain: seq<byte>, cipher: seq<byte>, i: nat)
    requires |plain| == i < |cipher|
    ensures (plain + cipher[i..])[i] == cipher[i]
    ensures forall p :: (plain + cipher[i..])[i := p] == plain + [p] + cipher[i + 1..]
  {
  }

  lemma TopIsSmall(x: bv32)
    ensures Top(x) <= 0xFF
  {
  }

  /** The table-driven step of one key. */
  function Step(t: seq<bv32>, k: bv32, b: bv32): (r: bv32)
    requires IsTable(t) && b <= 0xFF
    ensures r == TakeByte(k, b)
  {
    TableStep(k, b);
    LookedUp(t, Xor(k, b));
    Xor(t[Index(Xor(k, b))], Upper(k))
  }
}
