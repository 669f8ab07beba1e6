/**
 Decoding the blocks of one archive item into a sink: bounded by what is left of a budget, decrypted by one cipher that
 runs on from block to block, and checked against the recorded checksums. The inflater may behave in any way at all.
 */
module Decoders {
  import opened Wrappers
  import opened Crc
  import opened CrcTables
  import opened FlatFile
  import opened StreamCiphers
  import opened ZipCryptos

  const MAX_MEMORY_ENTRY_BYTES := 256 * 1024 * 1024

  const BUFFER := 64 * 1024

  datatype Method = Store | Deflate | BZip2 | Lzma | Azo | AlzBZip2 | Unknown(id: nat)

  datatype Error = Unsupported | Corrupt | PasswordRequired | WrongPassword | IoError

  datatype BlockRef = BlockRef(method_: Method, dataOffset: nat, packedSize: nat, unpackedSize: nat, crc: bv32)

  datatype Enc = Enc(method_: nat, verify: seq<byte>, verifyByte: byte)

  datatype Item = Item(size: nat, enc: Option<Enc>, blocks: seq<BlockRef>)

  function DataHeaderSize(m: Method): nat {
    if m == Lzma then 9 else 0
  }

  /** The packed bytes of a block, if they are there. */
  function Packed(data: seq<byte>, b: BlockRef): Option<seq<byte>> {
    var head := DataHeaderSize(b.method_);
    var start := b.dataOffset + head;
    var end := start + if b.packedSize > head then b.packedSize - head else 0;
    if end <= |data| then Some(data[start..end]) else None
  }

  /** Where the decoded bytes go. */
  class Sink {
    var bytes: seq<byte>

    constructor ()
      ensures bytes == []
    {
      bytes := [];
    }

    /** A failure may leave some of the bytes. */
    method WriteAll(d: seq<byte>) returns (ok: bool)
      modifies this
      ensures ok ==> bytes == old(bytes) + d
      ensures old(bytes) <= bytes <= old(bytes) + d
    {
      if * {
        bytes := bytes + d;
        return true;
      }
      var k: nat :| k <= |d|;
      bytes := bytes + d[..k];
      ok := false;
    }
  }

  /** What stands between a decoder and the sink: the checksum and the limit of the whole item. */
  class Gate {
    const sink: Sink
    const crc: Crc32
    const written: nat
    const limit: nat
    var blockWritten: nat
    ghost var refused: bool

    constructor (sink: Sink, crc: Crc32, written: nat, limit: nat)
      ensures this.sink == sink && this.crc == crc && this.written == written && this.limit == limit
      ensures blockWritten == 0 && !refused
    {
      this.sink, this.crc, this.written, this.limit, this.blockWritten, this.refused := sink, crc, written, limit, 0, false;
    }

    ghost predicate Valid()
      reads this
    {
      IsTable(crc.table)
    }

    method Accept(chunk: seq<byte>) returns (r: Option<Error>)
      requires Valid()
      modifies this, sink, crc
      ensures crc.state == BitByBit(old(crc.state), chunk) && blockWritten == old(blockWritten) + |chunk|
      ensures r.None? ==> sink.bytes == old(sink.bytes) + chunk
      ensures old(sink.bytes) <= sink.bytes <= old(sink.bytes) + chunk
      ensures if limit > 0 && written + blockWritten > limit then r == Some(Corrupt) && sink.bytes == old(sink.bytes)
              else r.None? || r == Some(IoError)
      ensures refused <==> old(refused) || (limit > 0 && written + blockWritten > limit)
    {
      crc.Update(chunk);
      blockWritten := blockWritten + |chunk|;
      if limit > 0 && written + blockWritten > limit {
        refused := true;
        return Some(Corrupt);
      }
      var ok := sink.WriteAll(chunk);
      r := if ok then None else Some(IoError);
    }
  }

  datatype Status = StreamEnd | Running | Failed

  /** One call of the inflater: it may take and give what it likes. */
  method Inflate(input: seq<byte>, most: nat) returns (consumed: nat, out: seq<byte>, status: Status)
    ensures consumed <= |input| && |out| <= most
  {
    consumed :| 0 <= consumed <= |input|;
    out :| |out| <= most by {
      var none: seq<byte> := [];
      assert |none| <= most;
    }
    status :| true;
  }

  /** What a block of `expected` bytes may give at most. */
  function Cap(expected: nat, budget: nat): nat {
    if expected > 0 then expected else if budget > 0 then budget else MAX_MEMORY_ENTRY_BYTES
  }

  /** The gate has let `out` through since it was opened on `start`. */
  ghost predicate Passed(g: Gate, start: seq<byte>, out: seq<byte>)
    reads g, g.sink, g.crc
  {
    && g.Valid() && g.sink.bytes == start + out && g.blockWritten == |out|
    && g.crc.state == BitByBit(ONES, out)
  }

  /** No more than the budget went through, and the gate itself never had to refuse. */
  ghost predicate Bounded(g: Gate, start: seq<byte>, budget: nat)
    reads g, g.sink
  {
    && start <= g.sink.bytes && !g.refused
    && (budget > 0 ==> |g.sink.bytes| <= |start| + budget)
  }

  /** Budget and limit belong together: the budget is what is left of the limit. */
  predicate BudgetOf(g: Gate, budget: nat) {
    if g.limit == 0 then budget == 0 else budget > 0 && g.written + budget == g.limit
  }

  /** What went through is within the budget, all of it or a part. */
  lemma WithinTheBudget(start: seq<byte>, out: seq<byte>, piece: seq<byte>, budget: nat, now: seq<byte>)
    requires start + out <= now <= start + out + piece && (budget > 0 ==> |out| + |piece| <= budget)
    ensures start <= now && (budget > 0 ==> |now| <= |start| + budget)
    ensures start + out + piece == start + (out + piece)
  {
  }

  /** Hand one more piece through the gate; there is room for it in the budget. */
  method PassOn(g: Gate, piece: seq<byte>, budget: nat, ghost start: seq<byte>, ghost out: seq<byte>)
    returns (r: Option<Error>)
    requires Passed(g, start, out) && Bounded(g, start, budget) && BudgetOf(g, budget)
    requires budget > 0 ==> |out| + |piece| <= budget
    modifies g, g.sink, g.crc
    ensures Bounded(g, start, budget)
    ensures if r.None? then Passed(g, start, out + piece) else r == Some(IoError)
  {
    SplitsAnywhere(ONES, out, piece);
    r := g.Accept(piece);
    WithinTheBudget(start, out, piece, budget, g.sink.bytes);
  }

  /** Inflate a block in pieces. It ends for every inflater. */
  method InflateTo(data: seq<byte>, expected: nat, budget: nat, g: Gate, ghost start: seq<byte>)
    returns (r: Result<nat, Error>, ghost out: seq<byte>)
    requires Passed(g, start, []) && !g.refused && BudgetOf(g, budget) && (budget > 0 ==> expected <= budget)
    modifies g, g.sink, g.crc
    ensures Bounded(g, start, budget)
    ensures r.Ok? ==> Passed(g, start, out) && r.value == |out| && (expected > 0 ==> |out| == expected)
    ensures r.Err? ==> r.error in {Corrupt, IoError}
  {
    var cap := Cap(expected, budget);
    var input, written := data, 0;
    out := [];
    while true
      invariant Passed(g, start, out) && written == |out| <= cap && Bounded(g, start, budget)
      decreases |input| + cap - written
    {
      var consumed, piece, status := Inflate(input, BUFFER);
      input := input[consumed..];
      if |piece| > 0 {
        written := written + |piece|;
        if written > cap {
          return Err(Corrupt), out;
        }
        var refused := PassOn(g, piece, budget, start, out);
        if refused.Some? {
          return Err(refused.value), out;
        }
        out := out + piece;
      }
      if status == StreamEnd {
        break;
      }
      if status == Failed {
        return Err(Corrupt), out;
      }
      if consumed == 0 && |piece| == 0 {
        break;
      }
    }
    if expected > 0 && written != expected {
      return Err(Corrupt), out;
    }
    r := Ok(written);
  }

  /** Why a block cannot be decoded: one that is stored whole, with room for it, fails only with the sink. */
  predicate MayFail(m: Method, data: seq<byte>, expected: nat, budget: nat, why: Error) {
    match why
    case Unsupported => m != Store && m != Deflate
    case Corrupt => (budget > 0 && expected > budget) || m == Deflate || (m == Store && |data| < expected)
    case IoError => m == Store || m == Deflate
    case _ => false
  }

  /** Decode a block; only stored and deflated ones can be. */
  method DecompressTo(m: Method, data: seq<byte>, expected: nat, budget: nat, g: Gate, ghost start: seq<byte>)
    returns (r: Result<nat, Error>, ghost out: seq<byte>)
    requires Passed(g, start, []) && !g.refused && BudgetOf(g, budget)
    modifies g, g.sink, g.crc
    ensures Bounded(g, start, budget)
    ensures r.Ok? ==> Passed(g, start, out) && r.value == |out| && (expected > 0 ==> |out| == expected)
    ensures r.Ok? ==> m == Deflate || (m == Store && expected <= |data| && out == data[..expected])
    ensures r.Err? ==> MayFail(m, data, expected, budget, r.error)
  {
    out := [];
    if budget > 0 && expected > budget {
      return Err(Corrupt), out;
    }
    match m
    case Store =>
      if |data| < expected {
        return Err(Corrupt), out;
      }
      out := data[..expected];
      assert [] + out == out;
      var refused := PassOn(g, data[..expected], budget, start, []);
      if refused.Some? {
        return Err(refused.value), out;
      }
      r := Ok(expected);
    case Deflate =>
      r, out := InflateTo(data, expected, budget, g, start);
    case _ =>
      r := Err(Unsupported);
  }

  /** What came out of a block is right for what went in. */
  predicate GoodPiece(b: BlockRef, plain: seq<byte>, piece: seq<byte>) {
    && (b.method_ == Deflate || (b.method_ == Store && b.unpackedSize <= |plain| && piece == plain[..b.unpackedSize]))
    && (b.unpackedSize > 0 ==> |piece| == b.unpackedSize)
    && (b.crc != 0 ==> Checksum(piece) == b.crc)
  }

  /** Why a block is refused: it cannot be decoded in what is left of the limit, or its checksum is wrong. */
  ghost predicate RefusedFor(b: BlockRef, plain: seq<byte>, encrypted: bool, written: nat, limit: nat, why: Error) {
    || (limit > 0 && written >= limit && why == Corrupt)
    || ((limit == 0 || written < limit)
        && MayFail(b.method_, plain, b.unpackedSize, if limit == 0 then 0 else limit - written, why))
    || (b.crc != 0 && why == (if encrypted then WrongPassword else Corrupt)
        && exists piece :: GoodPiece(b.(crc := 0), plain, piece) && Checksum(piece) != b.crc)
  }

  /** The keys behind the verification header, and whether the header is right. */
  ghost predicate HeaderPasses(enc: Enc, password: seq<byte>) {
    && |enc.verify| >= 12
    && Decrypted(ZIP, After(ZIP, START, password), enc.verify[..12])[11] == enc.verifyByte
  }

  ghost function KeysBehindHeader(enc: Enc, password: seq<byte>): Keys
    requires |enc.verify| >= 12
  {
    var k := After(ZIP, START, password);
    After(ZIP, k, Decrypted(ZIP, k, enc.verify[..12]))
  }

  /** What goes into the decoders: the packed bytes themselves, or what one run of the cipher makes of all of them. */
  ghost predicate PlainOf(item: Item, password: Option<seq<byte>>, packed: seq<byte>, plain: seq<byte>) {
    match item.enc
    case None => plain == packed
    case Some(enc) =>
      && enc.method_ == 0 && password.Some? && HeaderPasses(enc, password.value)
      && plain == Decrypted(ZIP, KeysBehindHeader(enc, password.value), packed)
  }

  /** Why an item is refused before the first block. */
  ghost predicate RefusedAtOnce(item: Item, password: Option<seq<byte>>, why: Error) {
    item.enc.Some? &&
    match why
    case Unsupported => item.enc.value.method_ != 0
    case PasswordRequired => item.enc.value.method_ == 0 && password.None?
    case WrongPassword =>
      item.enc.value.method_ == 0 && password.Some? && !HeaderPasses(item.enc.value, password.value)
    case _ => false
  }

  /** Make the cipher of an item ready, behind its verification header. */
  method OpenCipher(item: Item, password: Option<seq<byte>>, table: seq<bv32>) returns (r: Result<Option<ZipCrypto>, Error>)
    requires IsTable(table)
    ensures r.Ok? ==> (r.value.None? <==> item.enc.None?)
    ensures r.Ok? && r.value.Some? ==>
              && item.enc.value.method_ == 0 && password.Some? && fresh(r.value.value) && r.value.value.Valid()
              && HeaderPasses(item.enc.value, password.value)
              && r.value.value.State() == KeysBehindHeader(item.enc.value, password.value)
    ensures r.Err? ==> RefusedAtOnce(item, password, r.error)
  {
    if item.enc.None? {
      return Ok(None);
    }
    var enc := item.enc.value;
    if enc.method_ != 0 {
      return Err(Unsupported);
    }
    if password.None? {
      return Err(PasswordRequired);
    }
    var z := new ZipCrypto(table, password.value);
    var ok := z.CheckHeader(enc.verify, enc.verifyByte);
    r := if ok then Ok(Some(z)) else Err(WrongPassword);
  }

  /** Decrypt the packed bytes of a block, if the item is encrypted. */
  method Plain(packed: seq<byte>, cipher: Option<ZipCrypto>) returns (plain: seq<byte>)
    requires cipher.Some? ==> cipher.value.Valid()
    modifies if cipher.Some? then {cipher.value} else {}
    ensures cipher.None? ==> plain == packed
    ensures cipher.Some? ==>
              && plain == Decrypted(ZIP, old(cipher.value.State()), packed)
              && cipher.value.State() == After(ZIP, old(cipher.value.State()), plain)
  {
    match cipher
    case None => plain := packed;
    case Some(z) =>
      var buf := new byte[|packed|](i requires 0 <= i < |packed| => packed[i]);
      assert buf[..] == packed;
      z.Decrypt(buf);
      plain := buf[..];
  }

  /** Decode one block into the sink, within the budget, and take its checksum. */
  method DecodeBlock(
      b: BlockRef, plain: seq<byte>, budget: nat, written: nat, limit: nat, sink: Sink, table: seq<bv32>)
    returns (r: Result<nat, Error>, crc: bv32, ghost out: seq<byte>)
    requires IsTable(table) && if limit == 0 then budget == 0 else budget > 0 && written + budget == limit
    modifies sink
    ensures old(sink.bytes) <= sink.bytes && (budget > 0 ==> |sink.bytes| <= |old(sink.bytes)| + budget)
    ensures r.Ok? ==> sink.bytes == old(sink.bytes) + out && r.value == |out| && crc == Checksum(out)
    ensures r.Ok? ==> GoodPiece(b.(crc := 0), plain, out)
    ensures r.Err? ==> MayFail(b.method_, plain, b.unpackedSize, budget, r.error)
  {
    ghost var start := sink.bytes;
    var c := new Crc32(table);
    var g := new Gate(sink, c, written, limit);
    assert start + [] == start;
    r, out := DecompressTo(b.method_, plain, b.unpackedSize, budget, g, start);
    crc := c.Finalize();
  }

  /** Decode one block into the sink and check it. */
  method ReadBlock(b: BlockRef, plain: seq<byte>, encrypted: bool, written: nat, limit: nat, sink: Sink, table: seq<bv32>)
    returns (r: Result<nat, Error>, ghost out: seq<byte>)
    requires IsTable(table) && (limit > 0 ==> written <= limit)
    modifies sink
    ensures old(sink.bytes) <= sink.bytes && (limit > 0 ==> |sink.bytes| + written <= |old(sink.bytes)| + limit)
    ensures r.Ok? ==> sink.bytes == old(sink.bytes) + out && r.value == |out| && GoodPiece(b, plain, out)
    ensures r.Err? ==> RefusedFor(b, plain, encrypted, written, limit, r.error)
  {
    var budget := 0;
    out := [];
    if limit > 0 {
      if written >= limit {
        return Err(Corrupt), out;
      }
      budget := limit - written;
    }
    var crc;
    r, crc, out := DecodeBlock(b, plain, budget, written, limit, sink, table);
    if r.Ok? && b.crc != 0 && crc != b.crc {
      r := Err(if encrypted then WrongPassword else Corrupt);
    }
  }

  /** What one block adds to a run of the cipher. */
  lemma CipherRunsOn<K>(z: Cipher<K, byte>, k: K, packed: seq<byte>, plain: seq<byte>, more: seq<byte>, morePlain: seq<byte>)
    requires plain == Decrypted(z, k, packed) && morePlain == Decrypted(z, After(z, k, plain), more)
    ensures plain + morePlain == Decrypted(z, k, packed + more)
    ensures After(z, k, plain + morePlain) == After(z, After(z, k, plain), morePlain)
  {
    DecryptedInTwo(z, k, packed, more);
    AfterInTwo(z, k, plain, morePlain);
  }

  /** The packed bytes of some blocks, one after the other. */
  function AllPacked(data: seq<byte>, blocks: seq<BlockRef>): seq<byte>
    requires forall i :: 0 <= i < |blocks| ==> Packed(data, blocks[i]).Some?
  {
    if blocks == [] then []
    else AllPacked(data, blocks[..|blocks| - 1]) + Packed(data, blocks[|blocks| - 1]).value
  }

  /** The pieces are right, block by block. */
  predicate GoodPieces(blocks: seq<BlockRef>, plains: seq<seq<byte>>, pieces: seq<seq<byte>>) {
    && |pieces| == |plains| == |blocks|
    && forall i :: 0 <= i < |blocks| ==> GoodPiece(blocks[i], plains[i], pieces[i])
  }

  lemma OnePieceMore(
      blocks: seq<BlockRef>, n: nat, plains: seq<seq<byte>>, pieces: seq<seq<byte>>, plain: seq<byte>, out: seq<byte>)
    requires n < |blocks| && GoodPieces(blocks[..n], plains, pieces) && GoodPiece(blocks[n], plain, out)
    ensures GoodPieces(blocks[..n + 1], plains + [plain], pieces + [out])
    ensures Flat(pieces + [out]) == Flat(pieces) + out && Flat(plains + [plain]) == Flat(plains) + plain
  {
    FlatOfConcat(pieces, [out]);
    FlatOfConcat(plains, [plain]);
    FlatOfOne(out);
    FlatOfOne(plain);
  }

  /** Where the cipher stands after some blocks. */
  ghost predicate CipherAt(
      item: Item, password: Option<seq<byte>>, cipher: Option<ZipCrypto>, packed: seq<byte>, plain: seq<byte>)
    reads if cipher.Some? then {cipher.value} else {}
  {
    && PlainOf(item, password, packed, plain)
    && (cipher.None? <==> item.enc.None?)
    && (cipher.Some? ==>
          && cipher.value.Valid()
          && cipher.value.State() == After(ZIP, KeysBehindHeader(item.enc.value, password.value), plain))
  }

  /** Decrypt one more block, going on with the cipher. */
  method Decipher(
      ghost data: seq<byte>, ghost item: Item, ghost password: Option<seq<byte>>, cipher: Option<ZipCrypto>, ghost n: nat,
      packed: seq<byte>, ghost plains: seq<seq<byte>>) returns (plain: seq<byte>)
    requires n < |item.blocks| && Packed(data, item.blocks[n]) == Some(packed)
    requires forall i :: 0 <= i < n ==> Packed(data, item.blocks[i]).Some?
    requires CipherAt(item, password, cipher, AllPacked(data, item.blocks[..n]), Flat(plains))
    modifies if cipher.Some? then {cipher.value} else {}
    ensures CipherAt(item, password, cipher, AllPacked(data, item.blocks[..n + 1]), Flat(plains + [plain]))
  {
    ghost var before := AllPacked(data, item.blocks[..n]);
    assert item.blocks[..n + 1][..n] == item.blocks[..n];
    assert AllPacked(data, item.blocks[..n + 1]) == before + packed;
    plain := Plain(packed, cipher);
    FlatOfConcat(plains, [plain]);
    FlatOfOne(plain);
    if cipher.Some? {
      CipherRunsOn(ZIP, KeysBehindHeader(item.enc.value, password.value), before, Flat(plains), packed, plain);
    }
  }

  /** After `n` blocks: what went in and came out so far. */
  ghost predicate Done(
      data: seq<byte>, blocks: seq<BlockRef>, n: nat, plains: seq<seq<byte>>, pieces: seq<seq<byte>>,
      start: seq<byte>, now: seq<byte>, written: nat, limit: nat)
  {
    && n <= |blocks| && now == start + Flat(pieces) && written == |Flat(pieces)| && (limit > 0 ==> written <= limit)
    && GoodPieces(blocks[..n], plains, pieces)
    && forall i :: 0 <= i < n ==> Packed(data, blocks[i]).Some?
  }

  lemma OneMoreDone(
      data: seq<byte>, blocks: seq<BlockRef>, n: nat, plains: seq<seq<byte>>, pieces: seq<seq<byte>>,
      start: seq<byte>, plain: seq<byte>, out: seq<byte>, written: nat, limit: nat)
    requires n < |blocks| && Done(data, blocks, n, plains, pieces, start, start + Flat(pieces), written, limit)
    requires Packed(data, blocks[n]).Some? && GoodPiece(blocks[n], plain, out) && (limit > 0 ==> written + |out| <= limit)
    ensures Done(data, blocks, n + 1, plains + [plain], pieces + [out], start, start + Flat(pieces) + out,
                 written + |out|, limit)
  {
    OnePieceMore(blocks, n, plains, pieces, plain, out);
    OnePieceBehind(start, pieces, out);
  }

  /** Why the next block is refused: it is not there, or what the cipher makes of it cannot be decoded. */
  ghost predicate RefusedNext(
      data: seq<byte>, item: Item, n: nat, plain: seq<byte>, written: nat, limit: nat, why: Error)
  {
    && n < |item.blocks|
    && if Packed(data, item.blocks[n]).None? then why == Corrupt
       else RefusedFor(item.blocks[n], plain, item.enc.Some?, written, limit, why)
  }

  /** Decrypt and decode one more block. */
  method ReadNext(
      data: seq<byte>, item: Item, ghost password: Option<seq<byte>>, cipher: Option<ZipCrypto>, n: nat, written: nat,
      limit: nat, sink: Sink, table: seq<bv32>, packed: seq<byte>, ghost plains: seq<seq<byte>>)
    returns (r: Result<nat, Error>, ghost plain: seq<byte>, ghost out: seq<byte>)
    requires IsTable(table) && n < |item.blocks| && (limit > 0 ==> written <= limit)
    requires Packed(data, item.blocks[n]) == Some(packed)
    requires forall i :: 0 <= i < n ==> Packed(data, item.blocks[i]).Some?
    requires CipherAt(item, password, cipher, AllPacked(data, item.blocks[..n]), Flat(plains))
    modifies sink, if cipher.Some? then {cipher.value} else {}
    ensures old(sink.bytes) <= sink.bytes && (limit > 0 ==> |sink.bytes| + written <= |old(sink.bytes)| + limit)
    ensures CipherAt(item, password, cipher, AllPacked(data, item.blocks[..n + 1]), Flat(plains + [plain]))
    ensures r.Ok? ==>
              && sink.bytes == old(sink.bytes) + out && r.value == |out| && GoodPiece(item.blocks[n], plain, out)
    ensures r.Err? ==> RefusedNext(data, item, n, plain, written, limit, r.error)
  {
    var feed := Decipher(data, item, password, cipher, n, packed, plains);
    plain := feed;
    r, out := ReadBlock(item.blocks[n], feed, item.enc.Some?, written, limit, sink, table);
  }

  /** Why an item is refused with its cipher ready: all blocks before are good and the next one is not. */
  ghost predicate Refused(
      data: seq<byte>, item: Item, password: Option<seq<byte>>, limit: nat, plains: seq<seq<byte>>,
      pieces: seq<seq<byte>>, why: Error)
  {
    var n := |pieces|;
    && n < |item.blocks| && n < |plains|
    && (forall i :: 0 <= i < n ==> Packed(data, item.blocks[i]).Some?)
    && GoodPieces(item.blocks[..n], plains[..n], pieces)
    && PlainOf(item, password, AllPacked(data, item.blocks[..n]), Flat(plains[..n]))
    && (Packed(data, item.blocks[n]).Some? ==>
          PlainOf(item, password, AllPacked(data, item.blocks[..n + 1]), Flat(plains[..n + 1])))
    && RefusedNext(data, item, n, plains[n], |Flat(pieces)|, limit, why)
  }

  /** The blocks so far are good, and the next one is refused. */
  lemma RefusedBehind(
      data: seq<byte>, item: Item, password: Option<seq<byte>>, limit: nat, n: nat, plains: seq<seq<byte>>,
      pieces: seq<seq<byte>>, plain: seq<byte>, why: Error, start: seq<byte>, now: seq<byte>, written: nat)
    requires n < |item.blocks| && Done(data, item.blocks, n, plains, pieces, start, now, written, limit)
    requires PlainOf(item, password, AllPacked(data, item.blocks[..n]), Flat(plains))
    requires Packed(data, item.blocks[n]).Some? ==>
               PlainOf(item, password, AllPacked(data, item.blocks[..n + 1]), Flat(plains + [plain]))
    requires RefusedNext(data, item, n, plain, written, limit, why)
    ensures Refused(data, item, password, limit, plains + [plain], pieces, why)
  {
    assert (plains + [plain])[..n] == plains && (plains + [plain])[..n + 1] == plains + [plain];
  }

  /** Decode all blocks of an item with a cipher that is ready. */
  method ReadBlocks(
      data: seq<byte>, item: Item, ghost password: Option<seq<byte>>, cipher: Option<ZipCrypto>, limit: nat, sink: Sink,
      table: seq<bv32>) returns (r: Result<nat, Error>, ghost plains: seq<seq<byte>>, ghost pieces: seq<seq<byte>>)
    requires IsTable(table) && CipherAt(item, password, cipher, [], [])
    modifies sink, if cipher.Some? then {cipher.value} else {}
    ensures old(sink.bytes) <= sink.bytes && (limit > 0 ==> |sink.bytes| <= |old(sink.bytes)| + limit)
    ensures r.Ok? ==>
              && Done(data, item.blocks, |item.blocks|, plains, pieces, old(sink.bytes), sink.bytes, r.value, limit)
              && CipherAt(item, password, cipher, AllPacked(data, item.blocks[..|item.blocks|]), Flat(plains))
    ensures r.Err? ==> Refused(data, item, password, limit, plains, pieces, r.error)
  {
    ghost var start := sink.bytes;
    plains, pieces := [], [];
    var written := 0;
    assert start + [] == start;
    for n := 0 to |item.blocks|
      invariant Done(data, item.blocks, n, plains, pieces, start, sink.bytes, written, limit)
      invariant CipherAt(item, password, cipher, AllPacked(data, item.blocks[..n]), Flat(plains))
    {
      ghost var before := sink.bytes;
      var packed := Packed(data, item.blocks[n]);
      if packed.None? {
        RefusedBehind(data, item, password, limit, n, plains, pieces, [], Corrupt, start, before, written);
        return Err(Corrupt), plains + [[]], pieces;
      }
      var one;
      ghost var plain, out;
      one, plain, out := ReadNext(data, item, password, cipher, n, written, limit, sink, table, packed.value, plains);
      if one.Err? {
        RefusedBehind(data, item, password, limit, n, plains, pieces, plain, one.error, start, before, written);
        return one, plains + [plain], pieces;
      }
      OneMoreDone(data, item.blocks, n, plains, pieces, start, plain, out, written, limit);
      plains, pieces := plains + [plain], pieces + [out];
      written := written + one.value;
    }
    r := Ok(written);
  }

  /** The pieces are what the blocks of an item hold, as far as their records tell. */
  ghost predicate ItemIs(
      data: seq<byte>, item: Item, password: Option<seq<byte>>, plains: seq<seq<byte>>, pieces: seq<seq<byte>>)
  {
    && GoodPieces(item.blocks, plains, pieces)
    && (forall i :: 0 <= i < |item.blocks| ==> Packed(data, item.blocks[i]).Some?)
    && PlainOf(item, password, AllPacked(data, item.blocks), Flat(plains))
  }

  /** Why an item is refused. */
  ghost predicate RefusedItem(data: seq<byte>, item: Item, password: Option<seq<byte>>, limit: nat, why: Error) {
    RefusedAtOnce(item, password, why) || exists plains, pieces :: Refused(data, item, password, limit, plains, pieces, why)
  }

  /**
   Decode an item, block by block. Whatever the inflater does, no more than `limit` bytes (if there is one) reach the sink.
   On success the count is right, every block with a recorded checksum was checked, and the decoders were fed by one
   run of the cipher over all blocks. And it is refused only for a reason: the password, or the first block that is not
   as it should be; if the sink takes everything, an item of stored blocks that are right is never refused.
   */
  method ReadItemTo(data: seq<byte>, item: Item, password: Option<seq<byte>>, limit: nat, sink: Sink, table: seq<bv32>)
    returns (r: Result<nat, Error>, ghost plains: seq<seq<byte>>, ghost pieces: seq<seq<byte>>)
    requires IsTable(table)
    modifies sink
    ensures old(sink.bytes) <= sink.bytes && (limit > 0 ==> |sink.bytes| <= |old(sink.bytes)| + limit)
    ensures r.Ok? ==>
              && sink.bytes == old(sink.bytes) + Flat(pieces) && r.value == |Flat(pieces)|
              && ItemIs(data, item, password, plains, pieces)
    ensures r.Err? ==> RefusedItem(data, item, password, limit, r.error)
  {
    plains, pieces := [], [];
    var ready := OpenCipher(item, password, table);
    if ready.Err? {
      return Err(ready.error), plains, pieces;
    }
    r, plains, pieces := ReadBlocks(data, item, password, ready.value, limit, sink, table);
    assert item.blocks[..|item.blocks|] == item.blocks;
  }
}
