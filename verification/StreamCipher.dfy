/**
 Stream ciphers whose keys depend on the plain text so far. Nothing is used of `mix` but that mixing the same pad in
 twice gives the plain text back.
 */
module StreamCiphers {

  datatype Cipher<!K, !B> = Cipher(next: (K, B) -> K, pad: K -> B, mix: (B, B) -> B)

  /** The keys after some plain text. */
  function After<K, B>(z: Cipher<K, B>, k: K, plain: seq<B>): K
    decreases |plain|
  {
    if plain == [] then k else After(z, z.next(k, plain[0]), plain[1..])
  }

  function Decrypted<K, B>(z: Cipher<K, B>, k: K, cipher: seq<B>): (plain: seq<B>)
    ensures |plain| == |cipher|
    decreases |cipher|
  {
    if cipher == [] then []
    else var p := z.mix(cipher[0], z.pad(k)); [p] + Decrypted(z, z.next(k, p), cipher[1..])
  }

  function Encrypted<K, B>(z: Cipher<K, B>, k: K, plain: seq<B>): (cipher: seq<B>)
    ensures |cipher| == |plain|
    decreases |plain|
  {
    if plain == [] then [] else [z.mix(plain[0], z.pad(k))] + Encrypted(z, z.next(k, plain[0]), plain[1..])
  }

  ghost predicate TwiceIsNothing<K, B(!new)>(z: Cipher<K, B>) {
    forall a, b :: z.mix(z.mix(a, b), b) == a
  }

  /** Decryption undoes encryption with the same keys. */
  lemma {:induction false} DecryptionUndoesEncryption<K, B(!new)>(z: Cipher<K, B>, k: K, plain: seq<B>)
    requires TwiceIsNothing(z)
    ensures Decrypted(z, k, Encrypted(z, k, plain)) == plain
    decreases |plain|
  {
    if plain != [] {
      DecryptionUndoesEncryption(z, z.next(k, plain[0]), plain[1..]);
      assert Encrypted(z, k, plain)[1..] == Encrypted(z, z.next(k, plain[0]), plain[1..]);
    }
  }

  /** And the other way round, so every cipher text has exactly one plain text. */
  lemma {:induction false} EncryptionUndoesDecryption<K, B(!new)>(z: Cipher<K, B>, k: K, cipher: seq<B>)
    requires TwiceIsNothing(z)
    ensures Encrypted(z, k, Decrypted(z, k, cipher)) == cipher
    decreases |cipher|
  {
    if cipher != [] {
      var p := z.mix(cipher[0], z.pad(k));
      EncryptionUndoesDecryption(z, z.next(k, p), cipher[1..]);
      assert Decrypted(z, k, cipher)[1..] == Decrypted(z, z.next(k, p), cipher[1..]);
    }
  }

  lemma FirstByte<K, B>(z: Cipher<K, B>, k: K, cipher: seq<B>)
    requires cipher != []
    ensures var p := z.mix(cipher[0], z.pad(k)); var rest := Decrypted(z, z.next(k, p), cipher[1..]);
      && Decrypted(z, k, cipher) == [p] + rest
      && After(z, k, Decrypted(z, k, cipher)) == After(z, z.next(k, p), rest)
  {
    var p := z.mix(cipher[0], z.pad(k));
    assert Decrypted(z, k, cipher)[1..] == Decrypted(z, z.next(k, p), cipher[1..]);
  }

  lemma {:induction false} AfterInTwo<K, B>(z: Cipher<K, B>, k: K, a: seq<B>, b: seq<B>)
    ensures After(z, k, a + b) == After(z, After(z, k, a), b)
    decreases |a|
  {
    if a == [] {
      assert a + b == b;
    } else {
      assert (a + b)[1..] == a[1..] + b;
      AfterInTwo(z, z.next(k, a[0]), a[1..], b);
    }
  }

  lemma {:induction false} DecryptedInTwo<K, B>(z: Cipher<K, B>, k: K, a: seq<B>, b: seq<B>)
    ensures Decrypted(z, k, a + b) == Decrypted(z, k, a) + Decrypted(z, After(z, k, Decrypted(z, k, a)), b)
    decreases |a|
  {
    if a == [] {
      assert a + b == b;
    } else {
      var p := z.mix(a[0], z.pad(k));
      assert (a + b)[1..] == a[1..] + b;
      DecryptedInTwo(z, z.next(k, p), a[1..], b);
      FirstByte(z, k, a);
    }
  }

  /** Decrypting piece by piece is decrypting the whole. */
  lemma PiecesAreTheWhole<K, B>(z: Cipher<K, B>, k: K, a: seq<B>, b: seq<B>)
    ensures var plain := Decrypted(z, k, a); var k' := After(z, k, plain);
      && Decrypted(z, k, a + b) == plain + Decrypted(z, k', b)
      && After(z, k, Decrypted(z, k, a + b)) == After(z, k', Decrypted(z, k', b))
  {
    var plain := Decrypted(z, k, a);
    DecryptedInTwo(z, k, a, b);
    AfterInTwo(z, k, plain, Decrypted(z, After(z, k, plain), b));
  }

  lemma OneMorePlain<K, B>(z: Cipher<K, B>, k: K, plain: seq<B>, p: B)
    ensures After(z, k, plain + [p]) == z.next(After(z, k, plain), p)
  {
    AfterInTwo(z, k, plain, [p]);
    assert [p][1..] == [];
  }

  /** One more byte of a longer text. */
  lemma OneMoreByte<K, B>(z: Cipher<K, B>, k: K, cipher: seq<B>, i: nat, plain: seq<B>, p: B)
    requires i < |cipher| && plain == Decrypted(z, k, cipher[..i])
    requires p == z.mix(cipher[i], z.pad(After(z, k, plain)))
    ensures Decrypted(z, k, cipher[..i + 1]) == plain + [p]
    ensures After(z, k, plain + [p]) == z.next(After(z, k, plain), p)
  {
    assert cipher[..i + 1] == cipher[..i] + [cipher[i]];
    DecryptedInTwo(z, k, cipher[..i], [cipher[i]]);
    assert [cipher[i]][1..] == [];
    OneMorePlain(z, k, plain, p);
  }

  /** What was encrypted behind a header decrypts behind it, once the header is decrypted. */
  lemma BehindAHeader<K, B(!new)>(z: Cipher<K, B>, k: K, header: seq<B>, plain: seq<B>)
    requires TwiceIsNothing(z)
    ensures var cipher := Encrypted(z, k, header + plain); var n := |header|;
      && Decrypted(z, k, cipher[..n]) == header
      && Decrypted(z, After(z, k, header), cipher[n..]) == plain
  {
    var cipher, n := Encrypted(z, k, header + plain), |header|;
    var first := Decrypted(z, k, cipher[..n]);
    var second := Decrypted(z, After(z, k, first), cipher[n..]);
    DecryptionUndoesEncryption(z, k, header + plain);
    DecryptedInTwo(z, k, cipher[..n], cipher[n..]);
    assert cipher == cipher[..n] + cipher[n..];
    SameHalves(first, second, header, plain);
  }

  lemma SameHalves<B>(a: seq<B>, b: seq<B>, c: seq<B>, d: seq<B>)
    requires a + b == c + d && |a| == |c|
    ensures a == c && b == d
  {
    assert a == (a + b)[..|a|] && c == (c + d)[..|a|];
    assert b == (a + b)[|a|..] && d == (c + d)[|a|..];
  }
}
