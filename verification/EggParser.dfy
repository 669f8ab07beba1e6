/** The structure of an EGG archive: global header, extra fields, files with their blocks, footer. */
module EggParsers {
  import opened Wrappers
  import opened ByteReaders
  import opened Chains
  import opened Positions

  const SIG_EGG := Word(0x45, 0x47, 0x47, 0x41)
  const SIG_FILE := Word(0xE3, 0x90, 0x85, 0x0A)
  const SIG_BLOCK := Word(0x13, 0x0C, 0xB5, 0x02)
  const SIG_ENCRYPT := Word(0x0F, 0x47, 0xD1, 0x08)
  const SIG_WINDOWS := Word(0x0B, 0x95, 0x86, 0x2C)
  const SIG_POSIX := Word(0xE5, 0x22, 0xE9, 0x1E)
  const SIG_FILENAME := Word(0xAC, 0x91, 0x85, 0x0A)
  const SIG_COMMENT := Word(0x72, 0x36, 0xC6, 0x04)
  const SIG_SPLIT := Word(0x62, 0xA2, 0xF5, 0x24)
  const SIG_SOLID := Word(0x60, 0xA0, 0xE5, 0x24)
  const SIG_END := Word(0x22, 0x82, 0xE2, 0x08)

  const MAX_EXTRA_BYTES := 0x100_0000

  /** How many extra fields, blocks and files are read at most. */
  datatype Limits = Limits(headers: nat, blocks: nat, files: nat)

  const LIMITS := Limits(100, 65_536, 1_000_000)

  datatype Error = Unsupported | Corrupt

  datatype Extra = Extra(gpb: octet, data: seq<octet>)

  type Extras = map<Word, Extra>

  datatype Block = Block(method_: octet, unpackedSize: nat, packedSize: nat, crc: nat, dataOffset: nat)

  datatype EggFile = EggFile(id: nat, size: nat, extras: Extras, blocks: seq<Block>)

  datatype EggArchive = EggArchive(
    version: nat, files: seq<EggFile>, solidBlocks: seq<Block>, extras: Extras, parsedEnd: nat)

  predicate IsKnownSig(sig: Word) {
    sig in {SIG_END, SIG_FILE, SIG_BLOCK, SIG_ENCRYPT, SIG_WINDOWS, SIG_POSIX, SIG_FILENAME, SIG_COMMENT, SIG_SPLIT,
            SIG_SOLID}
  }

  predicate SigAt(data: seq<octet>, p: nat, sig: Word) {
    p + 4 <= |data| && WordAt(data, p) == sig
  }

  predicate KnownAt(data: seq<octet>, p: nat) {
    Peeked(data, p).Some? && IsKnownSig(Peeked(data, p).value)
  }

  /**
   How long the field at `p` is. The size of an encryption field is written in two ways; the one that leads to a
   known signature is right, and in doubt the written one.
   */
  function FieldSize(data: seq<octet>, p: nat, sig: Word, size: nat): (n: nat)
    ensures n <= size
  {
    if sig == SIG_ENCRYPT && size >= 7 && !KnownAt(data, p + size) && KnownAt(data, p + size - 7) then size - 7
    else size
  }

  function SizeWidth(gpb: octet): nat {
    if gpb % 2 == 1 then 4 else 2
  }

  datatype Found = Found(extra: Extra, next: nat)

  /** The extra field whose size and data follow at `p`, behind its signature. */
  function OneExtra(data: seq<octet>, p: nat, sig: Word): (r: Option<Found>)
    ensures r.Some? ==> p < r.value.next <= |data|
  {
    if p >= |data| || p + 1 + SizeWidth(data[p]) > |data| then None
    else
      var at := p + 1 + SizeWidth(data[p]);
      var size := FieldSize(data, at, sig, VarAt(data, p + 1, SizeWidth(data[p])));
      if size > MAX_EXTRA_BYTES || at + size > |data| then None
      else Some(Found(Extra(data[p], data[at..at + size]), at + size))
  }

  /** The field that starts with a signature at `p`; the end mark is none. */
  function ExtraAt(data: seq<octet>, p: nat): (r: Step<(Word, Extra)>)
    ensures r.One? ==> p < r.next <= |data|
    ensures r.Over? ==> p + 4 <= |data|
  {
    if p + 4 > |data| then Broken
    else if WordAt(data, p) == SIG_END then Over
    else
      match OneExtra(data, p + 4, WordAt(data, p))
      case None => Broken
      case Some(f) => One((WordAt(data, p), f.extra), f.next)
  }

  function ExtraSteps(data: seq<octet>): nat -> Step<(Word, Extra)> {
    (p: nat) => ExtraAt(data, p)
  }

  /** Of two fields with one signature the first counts. */
  function FirstOf(found: Extras, x: (Word, Extra)): Extras {
    if x.0 in found then found else found[x.0 := x.1]
  }

  function FirstOnes(fields: seq<(Word, Extra)>): Extras {
    if fields == [] then map[] else FirstOf(FirstOnes(fields[..|fields| - 1]), fields[|fields| - 1])
  }

  datatype ExtraRun = NoExtras | ExtraRun(extras: Extras, end: nat)

  /** The fields that follow each other from `p`, and where their end mark ends. */
  function ExtrasAt(m: Limits, data: seq<octet>, p: nat): (r: ExtraRun)
    ensures r.ExtraRun? ==> p + 4 <= r.end <= |data|
  {
    match From(ExtraSteps(data), p, m.headers)
    case NoRun => NoExtras
    case Run(fields, end) =>
      ExtrasEndInside(data, p, m.headers);
      ExtraRun(FirstOnes(fields), end + 4)
  }

  lemma {:induction false} ExtrasEndInside(data: seq<octet>, p: nat, room: nat)
    requires From(ExtraSteps(data), p, room).Run?
    ensures p <= From(ExtraSteps(data), p, room).end && From(ExtraSteps(data), p, room).end + 4 <= |data|
    decreases room
  {
    match ExtraAt(data, p)
    case Over =>
    case One(x, q) => ExtrasEndInside(data, q, room - 1);
  }

  /** How long the field is that starts here. */
  method SettleSize(r: Reader, sig: Word, written: nat) returns (size: nat)
    requires r.Valid()
    ensures size == FieldSize(r.data, r.pos, sig, written)
  {
    size := written;
    if sig == SIG_ENCRYPT && size >= 7 {
      var asIs := r.PeekU32At(size);
      var minus7 := r.PeekU32At(size - 7);
      if !(asIs.Some? && IsKnownSig(asIs.value)) && minus7.Some? && IsKnownSig(minus7.value) {
        size := size - 7;
      }
    }
  }

  /** Read one extra field behind its signature. */
  method ReadExtra(r: Reader, sig: Word) returns (out: Option<Extra>)
    requires r.Valid()
    modifies r
    ensures r.Valid() && r.pos >= old(r.pos)
    ensures out.None? <==> OneExtra(r.data, old(r.pos), sig).None?
    ensures out.Some? ==> OneExtra(r.data, old(r.pos), sig).value == Found(out.value, r.pos)
  {
    var gpb := r.U8();
    if gpb.None? {
      return None;
    }
    var written := r.VarUInt(SizeWidth(gpb.value));
    if written.None? {
      return None;
    }
    var size := SettleSize(r, sig, written.value);
    if size > MAX_EXTRA_BYTES {
      return None;
    }
    var data := r.Bytes(size);
    if data.None? {
      return None;
    }
    out := Some(Extra(gpb.value, data.value));
  }

  /** `step` gives the fields of `data`. */
  ghost predicate StepsExtras(step: nat -> Step<(Word, Extra)>, data: seq<octet>) {
    forall p: nat {:trigger ExtraAt(data, p)} :: step(p) == ExtraAt(data, p)
  }

  /** Read the next signature and, unless it is the end mark, its field. */
  method ReadNextExtra(r: Reader, ghost step: nat -> Step<(Word, Extra)>) returns (n: Step<(Word, Extra)>)
    requires r.Valid() && StepsExtras(step, r.data)
    modifies r
    ensures r.Valid() && n == step(old(r.pos))
    ensures n.One? ==> n.next == r.pos
    ensures n.Over? ==> r.pos == old(r.pos) + 4
  {
    assert step(r.pos) == ExtraAt(r.data, r.pos);
    var sig := r.U32();
    if sig.None? {
      return Broken;
    }
    if sig.value == SIG_END {
      return Over;
    }
    var x := ReadExtra(r, sig.value);
    n := if x.Some? then One((sig.value, x.value), r.pos) else Broken;
  }

  lemma OneMoreField(fields: seq<(Word, Extra)>, x: (Word, Extra))
    ensures FirstOnes(fields + [x]) == FirstOf(FirstOnes(fields), x)
  {
    assert (fields + [x])[..|fields|] == fields;
  }

  /** Read fields until the end mark, at most `room` of them. */
  method ReadExtraChain(r: Reader, room: nat, ghost step: nat -> Step<(Word, Extra)>)
    returns (out: Option<Extras>, ghost fields: seq<(Word, Extra)>)
    requires r.Valid() && StepsExtras(step, r.data)
    modifies r
    ensures r.Valid()
    ensures out.None? ==> From(step, old(r.pos), room) == NoRun
    ensures out.Some? ==>
              && r.pos >= 4 && From(step, old(r.pos), room) == Run(fields, r.pos - 4)
              && out.value == FirstOnes(fields)
  {
    var found: Extras := map[];
    var left := room;
    fields := [];
    NoneSoFar(step, r.pos, room);
    while true
      invariant r.Valid() && left >= 0 && found == FirstOnes(fields)
      invariant From(step, old(r.pos), room) == SoFar(step, r.pos, left, fields)
      decreases left
    {
      ghost var at := r.pos;
      var n := ReadNextExtra(r, step);
      NoMore(step, at, left, fields);
      match n
      case Broken => return None, fields;
      case Over => return Some(found), fields;
      case One(x, q) =>
        if left == 0 {
          return None, fields;
        }
        OneMore(step, at, left, fields, x, q);
        OneMoreField(fields, x);
        fields, found, left := fields + [x], FirstOf(found, x), left - 1;
    }
  }

  /** Read extra fields up to their end mark, if there are no more than the limit. */
  method ReadExtras(m: Limits, r: Reader) returns (out: Option<Extras>)
    requires r.Valid()
    modifies r
    ensures r.Valid()
    ensures ExtrasAt(m, r.data, old(r.pos)) == if out.None? then NoExtras else ExtraRun(out.value, r.pos)
  {
    ghost var data, fields := r.data, [];
    out, fields := ReadExtraChain(r, m.headers, ExtraSteps(data));
  }

  /** Blocks of ascending, separate ranges between `lo` and `hi`. */
  predicate Ascending(blocks: seq<Block>, lo: nat, hi: nat) {
    if blocks == [] then lo <= hi
    else
      lo <= blocks[0].dataOffset && Ascending(blocks[1..], blocks[0].dataOffset + blocks[0].packedSize, hi)
  }

  lemma AscendingBehind(b: Block, others: seq<Block>, p: nat, q: nat, end: nat)
    requires Ascending(others, q, end) && p <= b.dataOffset && b.dataOffset + b.packedSize == q
    ensures Ascending([b] + others, p, end)
  {
    assert ([b] + others)[1..] == others;
  }

  lemma {:induction false} AscendingInTwo(a: seq<Block>, b: seq<Block>, lo: nat, mid: nat, hi: nat)
    requires Ascending(a, lo, mid) && Ascending(b, mid, hi)
    ensures Ascending(a + b, lo, hi)
    decreases |a|
  {
    if a == [] {
      assert a + b == b;
      AscendingFromLower(b, lo, mid, hi);
    } else {
      assert (a + b)[1..] == a[1..] + b;
      AscendingInTwo(a[1..], b, a[0].dataOffset + a[0].packedSize, mid, hi);
    }
  }

  lemma AscendingFromLower(b: seq<Block>, lo: nat, mid: nat, hi: nat)
    requires lo <= mid && Ascending(b, mid, hi)
    ensures Ascending(b, lo, hi)
  {
  }

  lemma {:induction false} AscendingUpHigher(b: seq<Block>, lo: nat, mid: nat, hi: nat)
    requires mid <= hi && Ascending(b, lo, mid)
    ensures Ascending(b, lo, hi)
    decreases |b|
  {
    if b != [] {
      AscendingUpHigher(b[1..], b[0].dataOffset + b[0].packedSize, mid, hi);
    }
  }

  /** What ascending means for any two blocks. */
  lemma {:induction false} AscendingMeans(blocks: seq<Block>, lo: nat, hi: nat, i: nat)
    requires Ascending(blocks, lo, hi) && i < |blocks|
    ensures lo <= blocks[i].dataOffset && blocks[i].dataOffset + blocks[i].packedSize <= hi
    ensures forall j :: i < j < |blocks| ==> blocks[i].dataOffset + blocks[i].packedSize <= blocks[j].dataOffset
    decreases |blocks|
  {
    var end := blocks[0].dataOffset + blocks[0].packedSize;
    if i > 0 {
      AscendingMeans(blocks[1..], end, hi, i - 1);
      assert forall j :: i < j < |blocks| ==> blocks[j] == blocks[1..][j - 1];
    } else if |blocks| > 1 {
      forall j | 0 < j < |blocks|
        ensures end <= blocks[j].dataOffset
      {
        AscendingMeans(blocks[1..], end, hi, j - 1);
      }
      AscendingMeans(blocks[1..], end, hi, |blocks| - 2);
    }
  }

  /** The fixed part of a block, without where its data is. */
  function BlockHead(data: seq<octet>, p: nat): Block
    requires p + 18 <= |data|
  {
    Block(data[p + 4], U32At(data, p + 6), U32At(data, p + 10), U32At(data, p + 14), 0)
  }

  datatype OneBlock = NoBlock | OneBlock(block: Block, end: nat)

  /** The block with a given head whose extra fields and data follow at `p`. */
  function BlockTail(m: Limits, data: seq<octet>, p: nat, head: Block): (r: OneBlock)
    ensures r.OneBlock? ==>
              p + 4 <= r.block.dataOffset <= r.block.dataOffset + r.block.packedSize == r.end <= |data|
  {
    match ExtrasAt(m, data, p)
    case NoExtras => NoBlock
    case ExtraRun(_, at) =>
      if at + head.packedSize > |data| then NoBlock else OneBlock(head.(dataOffset := at), at + head.packedSize)
  }

  /** The block at `p`: header, extra fields, packed data. */
  function BlockAt(m: Limits, data: seq<octet>, p: nat): (r: OneBlock)
    ensures r.OneBlock? ==>
              p + 22 <= r.block.dataOffset <= r.block.dataOffset + r.block.packedSize == r.end <= |data|
  {
    if p + 18 > |data| || WordAt(data, p) != SIG_BLOCK then NoBlock
    else BlockTail(m, data, p + 18, BlockHead(data, p))
  }

  /** The next block, if one follows. */
  function BlockStep(m: Limits, data: seq<octet>, p: nat): (r: Step<Block>)
    ensures r.One? ==> p < r.item.dataOffset && r.item.dataOffset + r.item.packedSize == r.next <= |data|
  {
    if !SigAt(data, p, SIG_BLOCK) then Over
    else
      match BlockAt(m, data, p)
      case NoBlock => Broken
      case OneBlock(b, end) => One(b, end)
  }

  function BlockSteps(m: Limits, data: seq<octet>): nat -> Step<Block> {
    (p: nat) => BlockStep(m, data, p)
  }

  datatype BlockRun = NoBlocks | BlockRun(blocks: seq<Block>, end: nat)

  /** The blocks that follow each other from `p`. */
  function BlocksAt(m: Limits, data: seq<octet>, p: nat): (r: BlockRun)
    requires p <= |data|
    ensures r.BlockRun? ==> p <= r.end <= |data|
  {
    match From(BlockSteps(m, data), p, m.blocks)
    case NoRun => NoBlocks
    case Run(blocks, end) =>
      BlocksAscend(m, data, p, m.blocks);
      BlockRun(blocks, end)
  }

  /** Ranges inside the input that ascend and do not overlap, and no more than are allowed. */
  lemma BlocksAreSound(m: Limits, data: seq<octet>, p: nat)
    requires p <= |data| && BlocksAt(m, data, p).BlockRun?
    ensures var r := BlocksAt(m, data, p); Ascending(r.blocks, p, r.end) && |r.blocks| <= m.blocks
  {
    BlocksAscend(m, data, p, m.blocks);
    FitsTheRoom(BlockSteps(m, data), p, m.blocks);
  }

  lemma {:induction false} BlocksAscend(m: Limits, data: seq<octet>, p: nat, room: nat)
    requires p <= |data| && From(BlockSteps(m, data), p, room).Run?
    ensures var r := From(BlockSteps(m, data), p, room); p <= r.end <= |data| && Ascending(r.items, p, r.end)
    decreases room
  {
    match BlockStep(m, data, p)
    case Over =>
    case One(b, q) =>
      BlocksAscend(m, data, q, room - 1);
      var rest := From(BlockSteps(m, data), q, room - 1);
      AscendingBehind(b, rest.items, p, q, rest.end);
  }

  ghost predicate StepsBlocks(step: nat -> Step<Block>, m: Limits, data: seq<octet>) {
    forall p: nat {:trigger BlockStep(m, data, p)} :: step(p) == BlockStep(m, data, p)
  }

  lemma BlockHeadIs(data: seq<octet>, p: nat, unpacked: Word, packed: Word, crc: Word)
    requires p + 18 <= |data| && unpacked == WordAt(data, p + 6)
    requires packed == WordAt(data, p + 10) && crc == WordAt(data, p + 14)
    ensures BlockHead(data, p) == Block(data[p + 4], unpacked.Value(), packed.Value(), crc.Value(), 0)
  {
  }

  method ReadBlockHead(r: Reader) returns (out: Option<Block>)
    requires r.Valid()
    modifies r
    ensures r.Valid()
    ensures out.Some? <==> old(r.pos) + 18 <= |r.data| && WordAt(r.data, old(r.pos)) == SIG_BLOCK
    ensures out.Some? ==> out.value == BlockHead(r.data, old(r.pos)) && r.pos == old(r.pos) + 18
  {
    ghost var at := r.pos;
    var sig := r.U32();
    if sig.None? || sig.value != SIG_BLOCK {
      return None;
    }
    var meth := r.U8();
    if meth.None? {
      return None;
    }
    var hint := r.U8();
    if hint.None? {
      return None;
    }
    var unpacked := r.U32();
    if unpacked.None? {
      return None;
    }
    var packed := r.U32();
    if packed.None? {
      return None;
    }
    var crc := r.U32();
    if crc.None? {
      return None;
    }
    BlockHeadIs(r.data, at, unpacked.value, packed.value, crc.value);
    out := Some(Block(meth.value, unpacked.value.Value(), packed.value.Value(), crc.value.Value(), 0));
  }

  method ReadBlockTail(m: Limits, r: Reader, head: Block) returns (out: Option<Block>)
    requires r.Valid()
    modifies r
    ensures r.Valid()
    ensures BlockTail(m, r.data, old(r.pos), head) == if out.None? then NoBlock else OneBlock(out.value, r.pos)
  {
    var extras := ReadExtras(m, r);
    if extras.None? {
      return None;
    }
    var at := r.pos;
    var ok := r.Skip(head.packedSize);
    if !ok {
      return None;
    }
    out := Some(head.(dataOffset := at));
  }

  lemma BlockByParts(m: Limits, data: seq<octet>, p: nat)
    ensures p + 18 <= |data| && WordAt(data, p) == SIG_BLOCK ==>
              BlockAt(m, data, p) == BlockTail(m, data, p + 18, BlockHead(data, p))
    ensures !(p + 18 <= |data| && WordAt(data, p) == SIG_BLOCK) ==> BlockAt(m, data, p) == NoBlock
  {
  }

  method ReadBlock(m: Limits, r: Reader) returns (out: Option<Block>)
    requires r.Valid()
    modifies r
    ensures r.Valid()
    ensures BlockAt(m, r.data, old(r.pos)) == if out.None? then NoBlock else OneBlock(out.value, r.pos)
  {
    BlockByParts(m, r.data, r.pos);
    var head := ReadBlockHead(r);
    if head.Some? {
      out := ReadBlockTail(m, r, head.value);
    } else {
      out := None;
    }
  }

  /** Whether a signature comes next. */
  method NextIs(r: Reader, sig: Word) returns (b: bool)
    requires r.Valid()
    ensures b <==> SigAt(r.data, r.pos, sig)
  {
    var next := r.PeekU32();
    b := next.Some? && next.value == sig;
  }

  /** Read the next block, if one follows and there is room for it. */
  method ReadNextBlock(m: Limits, r: Reader, room: nat, ghost step: nat -> Step<Block>) returns (n: Step<Block>)
    requires r.Valid() && StepsBlocks(step, m, r.data)
    modifies r
    ensures r.Valid()
    ensures n.Broken? ==> step(old(r.pos)).Broken? || (step(old(r.pos)).One? && room == 0)
    ensures !n.Broken? ==> n == step(old(r.pos))
    ensures n.Over? ==> r.pos == old(r.pos)
    ensures n.One? ==> room > 0 && n.next == r.pos
  {
    assert step(r.pos) == BlockStep(m, r.data, r.pos);
    var more := NextIs(r, SIG_BLOCK);
    if !more {
      return Over;
    }
    if room == 0 {
      return Broken;
    }
    var b := ReadBlock(m, r);
    n := if b.Some? then One(b.value, r.pos) else Broken;
  }

  /** Read the blocks that follow each other here, if there are no more than `room`. */
  method ReadBlockChain(m: Limits, r: Reader, room: nat, ghost step: nat -> Step<Block>) returns (out: Option<seq<Block>>)
    requires r.Valid() && StepsBlocks(step, m, r.data)
    modifies r
    ensures r.Valid()
    ensures From(step, old(r.pos), room) == if out.None? then NoRun else Run(out.value, r.pos)
  {
    var blocks: seq<Block> := [];
    var left := room;
    NoneSoFar(step, r.pos, room);
    while true
      invariant r.Valid() && left >= 0
      invariant From(step, old(r.pos), room) == SoFar(step, r.pos, left, blocks)
      decreases left
    {
      ghost var at := r.pos;
      var n := ReadNextBlock(m, r, left, step);
      NoMore(step, at, left, blocks);
      match n
      case Broken => return None;
      case Over => return Some(blocks);
      case One(b, q) =>
        OneMore(step, at, left, blocks, b, q);
        blocks, left := blocks + [b], left - 1;
    }
  }

  method ReadBlocks(m: Limits, r: Reader) returns (out: Option<seq<Block>>)
    requires r.Valid()
    modifies r
    ensures r.Valid()
    ensures BlocksAt(m, r.data, old(r.pos)) == if out.None? then NoBlocks else BlockRun(out.value, r.pos)
  {
    out := ReadBlockChain(m, r, m.blocks, BlockSteps(m, r.data));
  }

  datatype OneFile = NoFile | OneFile(file: EggFile, end: nat)

  datatype FileHead = FileHead(id: nat, size: nat)

  /** The fixed part of a file. */
  function FileHeadAt(data: seq<octet>, p: nat): FileHead
    requires p + 16 <= |data|
  {
    FileHead(U32At(data, p + 4), U64At(data, p + 8))
  }

  /** The file whose extra fields and blocks follow at `p`. */
  function FileTail(m: Limits, data: seq<octet>, p: nat, solid: bool, head: FileHead): (r: OneFile)
    ensures r.OneFile? ==> p + 4 <= r.end <= |data|
  {
    match ExtrasAt(m, data, p)
    case NoExtras => NoFile
    case ExtraRun(extras, at) =>
      match if solid then BlockRun([], at) else BlocksAt(m, data, at)
      case NoBlocks => NoFile
      case BlockRun(blocks, end) =>
        OneFile(EggFile(head.id, head.size, extras, blocks), end)
  }

  /** The file at `p`. In a solid archive the blocks are not with the files. */
  function FileAt(m: Limits, data: seq<octet>, p: nat, solid: bool): (r: OneFile)
    ensures r.OneFile? ==> p + 20 <= r.end <= |data|
  {
    if p + 16 > |data| then NoFile
    else FileTail(m, data, p + 16, solid, FileHeadAt(data, p))
  }

  /** The blocks of a file lie behind its place; a file in a solid archive has none. */
  lemma FileIsSound(m: Limits, data: seq<octet>, p: nat, solid: bool)
    requires FileAt(m, data, p, solid).OneFile?
    ensures var r := FileAt(m, data, p, solid);
      Ascending(r.file.blocks, p, r.end) && (solid ==> r.file.blocks == [])
  {
    if !solid {
      var at := ExtrasAt(m, data, p + 16).end;
      var r := BlocksAt(m, data, at);
      BlocksAreSound(m, data, at);
      AscendingFromLower(r.blocks, p, at, r.end);
    }
  }

  function FileStep(m: Limits, data: seq<octet>, solid: bool, p: nat): (r: Step<EggFile>)
    ensures r.One? ==> p < r.next <= |data|
  {
    if !SigAt(data, p, SIG_FILE) then Over
    else
      match FileAt(m, data, p, solid)
      case NoFile => Broken
      case OneFile(f, end) => One(f, end)
  }

  function FileSteps(m: Limits, data: seq<octet>, solid: bool): nat -> Step<EggFile> {
    (p: nat) => FileStep(m, data, solid, p)
  }

  /** All blocks of some files, in their order. */
  function BlocksOf(files: seq<EggFile>): seq<Block> {
    if files == [] then [] else files[0].blocks + BlocksOf(files[1..])
  }

  lemma OneMoreFile(f: EggFile, others: seq<EggFile>, p: nat, q: nat, end: nat)
    requires Ascending(f.blocks, p, q) && Ascending(BlocksOf(others), q, end)
    ensures Ascending(BlocksOf([f] + others), p, end)
    ensures f.blocks == [] && BlocksOf(others) == [] ==> BlocksOf([f] + others) == []
  {
    assert ([f] + others)[1..] == others;
    AscendingInTwo(f.blocks, BlocksOf(others), p, q, end);
  }

  /** Every file found lies behind its place, and has no blocks in a solid archive. */
  ghost predicate SoundFiles(step: nat -> Step<EggFile>, hi: nat, solid: bool) {
    forall p: nat :: step(p).One? ==>
      && p < step(p).next <= hi && Ascending(step(p).item.blocks, p, step(p).next)
      && (solid ==> step(p).item.blocks == [])
  }

  lemma {:induction false} FilesAscend(step: nat -> Step<EggFile>, hi: nat, solid: bool, p: nat, room: nat)
    requires SoundFiles(step, hi, solid) && p <= hi && From(step, p, room).Run?
    ensures var r := From(step, p, room);
      p <= r.end <= hi && Ascending(BlocksOf(r.items), p, r.end) && (solid ==> BlocksOf(r.items) == [])
    decreases room
  {
    match step(p)
    case Over =>
    case One(f, q) =>
      FilesAscend(step, hi, solid, q, room - 1);
      var rest := From(step, q, room - 1);
      OneMoreFile(f, rest.items, p, q, rest.end);
  }

  lemma FileStepsAreSound(m: Limits, data: seq<octet>, solid: bool)
    ensures SoundFiles(FileSteps(m, data, solid), |data|, solid)
  {
    forall p: nat | FileStep(m, data, solid, p).One?
      ensures var s := FileStep(m, data, solid, p);
        Ascending(s.item.blocks, p, s.next) && (solid ==> s.item.blocks == [])
    {
      FileIsSound(m, data, p, solid);
    }
  }

  datatype FileRun = NoFiles | FileRun(files: seq<EggFile>, end: nat)

  /** The files that follow each other from `p`. */
  function FilesAt(m: Limits, data: seq<octet>, p: nat, solid: bool): (r: FileRun)
    requires p <= |data|
    ensures r.FileRun? ==>
              && p <= r.end <= |data| && |r.files| <= m.files
              && Ascending(BlocksOf(r.files), p, r.end) && (solid ==> BlocksOf(r.files) == [])
  {
    match From(FileSteps(m, data, solid), p, m.files)
    case NoRun => NoFiles
    case Run(files, end) =>
      FileStepsAreSound(m, data, solid);
      FilesAscend(FileSteps(m, data, solid), |data|, solid, p, m.files);
      FitsTheRoom(FileSteps(m, data, solid), p, m.files);
      FileRun(files, end)
  }

  ghost predicate StepsFiles(step: nat -> Step<EggFile>, m: Limits, data: seq<octet>, solid: bool) {
    forall p: nat {:trigger FileStep(m, data, solid, p)} :: step(p) == FileStep(m, data, solid, p)
  }

  /** Read what follows the fixed part of a file. */
  method ReadFileTail(m: Limits, r: Reader, solid: bool, head: FileHead) returns (out: Option<EggFile>)
    requires r.Valid()
    modifies r
    ensures r.Valid()
    ensures FileTail(m, r.data, old(r.pos), solid, head) == if out.None? then NoFile else OneFile(out.value, r.pos)
  {
    var extras := ReadExtras(m, r);
    if extras.None? {
      return None;
    }
    var blocks: Option<seq<Block>> := Some([]);
    if !solid {
      blocks := ReadBlocks(m, r);
      if blocks.None? {
        return None;
      }
    }
    out := Some(EggFile(head.id, head.size, extras.value, blocks.value));
  }

  lemma FileHeadIs(data: seq<octet>, p: nat, id: Word, size: nat)
    requires p + 16 <= |data| && id == WordAt(data, p + 4) && size == U64At(data, p + 8)
    ensures FileHeadAt(data, p) == FileHead(id.Value(), size)
  {
  }

  method ReadFileHead(r: Reader) returns (out: Option<FileHead>)
    requires r.Valid() && SigAt(r.data, r.pos, SIG_FILE)
    modifies r
    ensures r.Valid()
    ensures out.Some? <==> old(r.pos) + 16 <= |r.data|
    ensures out.Some? ==> r.pos == old(r.pos) + 16 && out.value == FileHeadAt(r.data, old(r.pos))
  {
    ghost var at := r.pos;
    var sig := r.U32();
    var id := r.U32();
    if id.None? {
      return None;
    }
    var size := r.U64();
    if size.None? {
      return None;
    }
    FileHeadIs(r.data, at, id.value, size.value);
    out := Some(FileHead(id.value.Value(), size.value));
  }

  /** Read a file entry with its blocks. */
  method ReadFile(m: Limits, r: Reader, solid: bool) returns (out: Option<EggFile>)
    requires r.Valid() && SigAt(r.data, r.pos, SIG_FILE)
    modifies r
    ensures r.Valid()
    ensures FileAt(m, r.data, old(r.pos), solid) == if out.None? then NoFile else OneFile(out.value, r.pos)
  {
    ghost var at := r.pos;
    var head := ReadFileHead(r);
    if head.None? {
      return None;
    }
    assert FileAt(m, r.data, at, solid) == FileTail(m, r.data, at + 16, solid, head.value);
    out := ReadFileTail(m, r, solid, head.value);
  }

  /** Read the next file, if one follows and there is room for it. */
  method ReadNextFile(m: Limits, r: Reader, solid: bool, room: nat, ghost step: nat -> Step<EggFile>)
    returns (n: Step<EggFile>)
    requires r.Valid() && StepsFiles(step, m, r.data, solid)
    modifies r
    ensures r.Valid()
    ensures n.Broken? ==> step(old(r.pos)).Broken? || (step(old(r.pos)).One? && room == 0)
    ensures !n.Broken? ==> n == step(old(r.pos))
    ensures n.Over? ==> r.pos == old(r.pos)
    ensures n.One? ==> room > 0 && n.next == r.pos
  {
    assert step(r.pos) == FileStep(m, r.data, solid, r.pos);
    var more := NextIs(r, SIG_FILE);
    if !more {
      return Over;
    }
    if room == 0 {
      return Broken;
    }
    var f := ReadFile(m, r, solid);
    n := if f.Some? then One(f.value, r.pos) else Broken;
  }

  /** Read the files that follow each other here, if there are no more than `room`. */
  method ReadFileChain(m: Limits, r: Reader, solid: bool, room: nat, ghost step: nat -> Step<EggFile>)
    returns (out: Option<seq<EggFile>>)
    requires r.Valid() && StepsFiles(step, m, r.data, solid)
    modifies r
    ensures r.Valid()
    ensures From(step, old(r.pos), room) == if out.None? then NoRun else Run(out.value, r.pos)
  {
    var files: seq<EggFile> := [];
    var left := room;
    NoneSoFar(step, r.pos, room);
    while true
      invariant r.Valid() && left >= 0
      invariant From(step, old(r.pos), room) == SoFar(step, r.pos, left, files)
      decreases left
    {
      ghost var at := r.pos;
      var n := ReadNextFile(m, r, solid, left, step);
      NoMore(step, at, left, files);
      match n
      case Broken => return None;
      case Over => return Some(files);
      case One(f, q) =>
        OneMore(step, at, left, files, f, q);
        files, left := files + [f], left - 1;
    }
  }

  method ReadFiles(m: Limits, r: Reader, solid: bool) returns (out: Option<seq<EggFile>>)
    requires r.Valid()
    modifies r
    ensures r.Valid()
    ensures FilesAt(m, r.data, old(r.pos), solid) == if out.None? then NoFiles else FileRun(out.value, r.pos)
  {
    out := ReadFileChain(m, r, solid, m.files, FileSteps(m, r.data, solid));
  }

  /** The end of the footer, if anything is left behind the files: extra fields once more. */
  function FooterEnd(m: Limits, data: seq<octet>, p: nat): (r: Option<nat>)
    requires p <= |data|
    ensures r.Some? ==> p <= r.value <= |data|
  {
    if p + 4 > |data| then Some(p)
    else
      match ExtrasAt(m, data, p)
      case NoExtras => None
      case ExtraRun(_, end) => Some(end)
  }

  lemma BodyAscends(files: seq<EggFile>, blocks: seq<Block>, p: nat, at: nat, behind: nat, q: nat, end: nat)
    requires p <= at && q <= end && Ascending(BlocksOf(files), at, behind) && Ascending(blocks, behind, q)
    ensures Ascending(BlocksOf(files) + blocks, p, end)
    ensures BlocksOf(files) == [] ==> BlocksOf(files) + blocks == blocks
  {
    AscendingInTwo(BlocksOf(files), blocks, at, behind, q);
    AscendingFromLower(BlocksOf(files) + blocks, p, at, q);
    AscendingUpHigher(BlocksOf(files) + blocks, p, q, end);
  }

  /** The archive behind its global header: sound ranges, and solid archives keep their blocks apart. */
  function BodyAt(m: Limits, data: seq<octet>, p: nat, version: nat): (r: Option<EggArchive>)
    requires p <= |data|
    ensures r.Some? ==>
              var a := r.value; var solid := SIG_SOLID in a.extras; var blocks := BlocksOf(a.files) + a.solidBlocks;
              && p <= a.parsedEnd <= |data| && Ascending(blocks, p, a.parsedEnd)
              && (if solid then blocks == a.solidBlocks else a.solidBlocks == [])
              && |a.files| <= m.files
  {
    match ExtrasAt(m, data, p)
    case NoExtras => None
    case ExtraRun(extras, at) =>
      var solid := SIG_SOLID in extras;
      match FilesAt(m, data, at, solid)
      case NoFiles => None
      case FileRun(files, behind) =>
        match if solid then BlocksAt(m, data, behind) else BlockRun([], behind)
        case NoBlocks => None
        case BlockRun(blocks, q) =>
          match FooterEnd(m, data, q)
          case None => None
          case Some(end) =>
            assert Ascending(blocks, behind, q) by {
              if solid {
                BlocksAreSound(m, data, behind);
              }
            }
            BodyAscends(files, blocks, p, at, behind, q, end);
            Some(EggArchive(version, files, blocks, extras, end))
  }

  /** The structure of a whole archive, or why it has none. */
  function Parsed(data: seq<octet>): Result<EggArchive, Error> {
    if !SigAt(data, 0, SIG_EGG) then Err(Unsupported)
    else if |data| < 14 then Err(Corrupt)
    else if U16At(data, 4) > 0x0100 then Err(Unsupported)
    else
      match BodyAt(LIMITS, data, 14, U16At(data, 4))
      case None => Err(Corrupt)
      case Some(archive) => Ok(archive)
  }

  /** Read what is behind the global header. */
  method ReadBody(m: Limits, r: Reader, version: nat) returns (out: Option<EggArchive>)
    requires r.Valid()
    modifies r
    ensures r.Valid() && out == BodyAt(m, r.data, old(r.pos), version)
  {
    var extras := ReadExtras(m, r);
    if extras.None? {
      return None;
    }
    var solid := SIG_SOLID in extras.value;
    var files := ReadFiles(m, r, solid);
    if files.None? {
      return None;
    }
    var shared: Option<seq<Block>> := Some([]);
    if solid {
      shared := ReadBlocks(m, r);
      if shared.None? {
        return None;
      }
    }
    var behind := r.PeekU32();
    if behind.Some? {
      var footer := ReadExtras(m, r);
      if footer.None? {
        return None;
      }
    }
    out := Some(EggArchive(version, files.value, shared.value, extras.value, r.pos));
  }

  /** Read the structure of a whole archive; the packed data is not looked at. */
  method Parse(data: seq<octet>) returns (out: Result<EggArchive, Error>)
    requires |data| < TWO64
    ensures out == Parsed(data)
  {
    var r := new Reader(data);
    var isEgg := NextIs(r, SIG_EGG);
    if !isEgg {
      return Err(Unsupported);
    }
    var sig := r.U32();
    var version := r.U16();
    if version.None? {
      return Err(Corrupt);
    }
    var id := r.U32();
    if id.None? {
      return Err(Corrupt);
    }
    var reserved := r.U32();
    if reserved.None? {
      return Err(Corrupt);
    }
    if version.value > 0x0100 {
      return Err(Unsupported);
    }
    var archive := ReadBody(LIMITS, r, version.value);
    out := if archive.Some? then Ok(archive.value) else Err(Corrupt);
  }

  /**
   Sound on every byte string: in whatever is accepted, the data of every block lies inside the input, no two blocks
   overlap, they come in the order of the list, and the end is inside the input too.
   */
  lemma AcceptedIsSound(data: seq<octet>, i: nat)
    requires Parsed(data).Ok?
    requires var a := Parsed(data).value; i < |BlocksOf(a.files) + a.solidBlocks|
    ensures var a := Parsed(data).value; var blocks := BlocksOf(a.files) + a.solidBlocks;
      && 14 <= blocks[i].dataOffset && blocks[i].dataOffset + blocks[i].packedSize <= a.parsedEnd <= |data|
      && forall j :: i < j < |blocks| ==> blocks[i].dataOffset + blocks[i].packedSize <= blocks[j].dataOffset
  {
    var a := Parsed(data).value;
    AscendingMeans(BlocksOf(a.files) + a.solidBlocks, 14, a.parsedEnd, i);
  }
}
