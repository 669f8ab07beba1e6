/** The structure of an ALZ archive: global header, then file headers with names and data. */
module AlzParsers {
  import opened Wrappers
  import opened ByteReaders
  import opened Chains
  import opened Positions

  const SIG_ALZ := Word(0x41, 0x4C, 0x5A, 0x01)
  const SIG_FILE := Word(0x42, 0x4C, 0x5A, 0x01)
  const SIG_SPLIT := Word(0x43, 0x4C, 0x5A, 0x03)

  const SUPPORTED_VERSION := 10
  const MAX_FILES := 1_000_000
  const VERIFY_LEN := 12

  datatype Error = Unsupported | Corrupt

  /** The numbers in front of a file's name. Without flags there are no sizes, and the file is stored and empty. */
  datatype Head = Head(
    nameLen: nat, attributes: octet, dosTime: nat, flags: nat, method_: nat, crc: nat, packedSize: nat, unpackedSize: nat)

  datatype Entry = Entry(head: Head, name: seq<octet>, verify: seq<octet>, dataOffset: nat, incomplete: bool)

  datatype Archive = Archive(version: nat, files: seq<Entry>, isSpanned: bool, parsedEnd: nat)

  /** How wide the size fields are: the upper half of the low byte of the flags. */
  function SizeWidth(flags: nat): nat {
    flags / 16 % 16
  }

  datatype HeadRun = NoHead | HeadRun(head: Head, end: nat)

  /** The fixed part of a head. */
  function ShortHead(data: seq<octet>, p: nat): Head
    requires p + 13 <= |data|
  {
    Head(U16At(data, p + 4), data[p + 6], U32At(data, p + 7), U16At(data, p + 11), 0, 0, 0, 0)
  }

  /** The head of the file at `p`, its signature included. */
  function HeadAt(data: seq<octet>, p: nat): (r: HeadRun)
    ensures r.HeadRun? ==> p + 13 <= r.end <= |data|
  {
    if p + 13 > |data| then NoHead
    else
      var short := ShortHead(data, p);
      if short.flags == 0 then HeadRun(short, p + 13) else SizesAt(data, p + 13, short)
  }

  /** The method, checksum and sizes at `p`. */
  function SizesAt(data: seq<octet>, p: nat, short: Head): (r: HeadRun)
    ensures r.HeadRun? ==> p < r.end <= |data|
  {
    var width := SizeWidth(short.flags);
    if width !in {1, 2, 4, 8} || p + 6 + 2 * width > |data| then NoHead
    else
      HeadRun(short.(method_ := U16At(data, p), crc := U32At(data, p + 2), packedSize := VarAt(data, p + 6, width),
                     unpackedSize := VarAt(data, p + 6 + width, width)), p + 6 + 2 * width)
  }

  /** A sum of 64 bits: what is carried out of them is lost. */
  function Sum64(a: nat, b: nat): nat {
    (a + b) % TWO64
  }

  datatype OneEntry = NoEntry | OneEntry(entry: Entry, end: nat)

  /** The file with a given head whose name follows at `p`. */
  function EntryTail(data: seq<octet>, p: nat, head: Head): (r: OneEntry)
    ensures r.OneEntry? ==> r.entry.head == head && p <= r.entry.dataOffset <= r.end <= |data|
    ensures r.OneEntry? && !r.entry.incomplete ==> r.entry.dataOffset + head.packedSize == r.end
    ensures r.OneEntry? && r.entry.incomplete ==> r.end == |data| < r.entry.dataOffset + head.packedSize
  {
    var verifyLen := if head.flags % 2 == 1 then VERIFY_LEN else 0;
    var q := p + head.nameLen;
    var at := q + verifyLen;
    if at > |data| then NoEntry
    else
      var entry := Entry(head, data[p..q], data[q..at], at, Sum64(at, head.packedSize) > |data|);
      if entry.incomplete then
        OneEntry(entry, |data|)
      else if at + head.packedSize > |data| then NoEntry
      else OneEntry(entry, at + head.packedSize)
  }

  function EntryAt(data: seq<octet>, p: nat): (r: OneEntry)
    ensures r.OneEntry? ==> p < r.entry.dataOffset <= r.end <= |data|
    ensures r.OneEntry? && !r.entry.incomplete ==> r.entry.dataOffset + r.entry.head.packedSize == r.end
    ensures r.OneEntry? && r.entry.incomplete ==> r.end == |data| < r.entry.dataOffset + r.entry.head.packedSize
  {
    match HeadAt(data, p)
    case NoHead => NoEntry
    case HeadRun(head, q) => EntryTail(data, q, head)
  }

  predicate SigAt(data: seq<octet>, p: nat, sig: Word) {
    p + 4 <= |data| && WordAt(data, p) == sig
  }

  function EntryStep(data: seq<octet>, p: nat): (r: Step<Entry>)
    ensures r.One? ==> p < r.item.dataOffset <= r.next <= |data|
    ensures r.One? && !r.item.incomplete ==> r.item.dataOffset + r.item.head.packedSize == r.next
    ensures r.One? && r.item.incomplete ==> r.next == |data| < r.item.dataOffset + r.item.head.packedSize
  {
    if !SigAt(data, p, SIG_FILE) then Over
    else
      match EntryAt(data, p)
      case NoEntry => Broken
      case OneEntry(e, end) => One(e, end)
  }

  function EntrySteps(data: seq<octet>): nat -> Step<Entry> {
    (p: nat) => EntryStep(data, p)
  }

  /** Complete files in ascending, separate ranges; only the last may be incomplete, and then reaches beyond the end. */
  predicate Sound(files: seq<Entry>, lo: nat, hi: nat, len: nat) {
    if files == [] then lo <= hi
    else
      var f := files[0];
      && lo <= f.dataOffset
      && if f.incomplete then |files| == 1 && f.dataOffset <= hi == len < f.dataOffset + f.head.packedSize
         else Sound(files[1..], f.dataOffset + f.head.packedSize, hi, len)
  }

  lemma SoundBehind(f: Entry, others: seq<Entry>, p: nat, q: nat, end: nat, len: nat)
    requires !f.incomplete && p <= f.dataOffset && f.dataOffset + f.head.packedSize == q && Sound(others, q, end, len)
    ensures Sound([f] + others, p, end, len)
  {
    assert ([f] + others)[1..] == others;
  }

  /** Whatever the sizes say, and even where their sum wraps: what is accepted is sound. */
  lemma {:induction false} FilesAreSound(data: seq<octet>, p: nat, room: nat)
    requires p <= |data| && From(EntrySteps(data), p, room).Run?
    ensures var r := From(EntrySteps(data), p, room); p <= r.end <= |data| && Sound(r.items, p, r.end, |data|)
    decreases room
  {
    match EntryStep(data, p)
    case Over =>
    case One(f, q) =>
      FilesAreSound(data, q, room - 1);
      var rest := From(EntrySteps(data), q, room - 1);
      if f.incomplete {
        assert EntryStep(data, q) == Over;
        assert [f] + [] == [f];
      } else {
        SoundBehind(f, rest.items, p, q, rest.end, |data|);
      }
  }

  /** Whether the last four bytes say that more volumes follow. */
  function IsSpanned(data: seq<octet>): bool {
    |data| >= 16 && WordAt(data, |data| - 4) == SIG_SPLIT
  }

  function FilesAt(data: seq<octet>, p: nat, room: nat, version: nat): (r: Option<Archive>)
    requires p <= |data|
    ensures r.Some? ==>
              && p <= r.value.parsedEnd <= |data| && |r.value.files| <= room
              && Sound(r.value.files, p, r.value.parsedEnd, |data|)
  {
    match From(EntrySteps(data), p, room)
    case NoRun => None
    case Run(files, end) =>
      FilesAreSound(data, p, room);
      FitsTheRoom(EntrySteps(data), p, room);
      Some(Archive(version, files, IsSpanned(data), end))
  }

  /** The structure of a whole archive, or why it has none. */
  function Parsed(data: seq<octet>): Result<Archive, Error> {
    if !SigAt(data, 0, SIG_ALZ) then Err(Unsupported)
    else if |data| < 8 then Err(Corrupt)
    else if U16At(data, 4) != SUPPORTED_VERSION then Err(Unsupported)
    else
      match FilesAt(data, 8, MAX_FILES, U16At(data, 4))
      case None => Err(Corrupt)
      case Some(archive) => Ok(archive)
  }

  /** What sound means for any two files. */
  lemma {:induction false} SoundMeans(files: seq<Entry>, lo: nat, hi: nat, len: nat, i: nat)
    requires Sound(files, lo, hi, len) && hi <= len && i < |files|
    ensures lo <= files[i].dataOffset <= len
    ensures files[i].incomplete ==> i == |files| - 1 && len < files[i].dataOffset + files[i].head.packedSize
    ensures !files[i].incomplete ==> files[i].dataOffset + files[i].head.packedSize <= len
    ensures forall j :: i < j < |files| ==> files[i].dataOffset + files[i].head.packedSize <= files[j].dataOffset
    decreases |files|
  {
    var f := files[0];
    var end := f.dataOffset + f.head.packedSize;
    if i > 0 {
      SoundMeans(files[1..], end, hi, len, i - 1);
      assert forall j :: i < j < |files| ==> files[j] == files[1..][j - 1];
    } else if !f.incomplete {
      SoundEnds(files[1..], end, hi, len);
      forall j | 0 < j < |files|
        ensures end <= files[j].dataOffset
      {
        SoundMeans(files[1..], end, hi, len, j - 1);
      }
    }
  }

  lemma {:induction false} SoundEnds(files: seq<Entry>, lo: nat, hi: nat, len: nat)
    requires Sound(files, lo, hi, len) && hi <= len
    ensures lo <= len
    decreases |files|
  {
    if files != [] && !files[0].incomplete {
      SoundEnds(files[1..], files[0].dataOffset + files[0].head.packedSize, hi, len);
    }
  }

  /** Sound on every byte string. */
  lemma AcceptedIsSound(data: seq<octet>, i: nat)
    requires Parsed(data).Ok? && i < |Parsed(data).value.files|
    ensures var files := Parsed(data).value.files; var f := files[i];
      && 8 <= f.dataOffset <= |data| && Parsed(data).value.parsedEnd <= |data|
      && (f.incomplete ==> i == |files| - 1 && |data| < f.dataOffset + f.head.packedSize)
      && (!f.incomplete ==> f.dataOffset + f.head.packedSize <= |data|)
      && forall j :: i < j < |files| ==> f.dataOffset + f.head.packedSize <= files[j].dataOffset
  {
    var a := Parsed(data).value;
    SoundMeans(a.files, 8, a.parsedEnd, |data|, i);
  }

  /**
   A file is refused for its data exactly if the sum of where it is and how long it is wraps round to a place inside the
   input; otherwise it is complete exactly if the data really is there.
   */
  lemma RefusedExactlyWhenTheSumWraps(data: seq<octet>, p: nat, head: Head)
    requires |data| < TWO64
    requires var at := p + head.nameLen + (if head.flags % 2 == 1 then VERIFY_LEN else 0); at <= |data|
    ensures var at := p + head.nameLen + (if head.flags % 2 == 1 then VERIFY_LEN else 0);
      var sum := at + head.packedSize; var r := EntryTail(data, p, head);
      && (r.NoEntry? <==> sum >= TWO64 && Sum64(at, head.packedSize) <= |data|)
      && (r.OneEntry? ==> (!r.entry.incomplete <==> sum <= |data|))
  {
  }

  /** The sum of the file at `p` wraps to a place inside the input. */
  predicate SumWrapsAt(data: seq<octet>, p: nat) {
    && SigAt(data, p, SIG_FILE) && HeadAt(data, p).HeadRun?
    && var run := HeadAt(data, p);
       var at := run.end + run.head.nameLen + (if run.head.flags % 2 == 1 then VERIFY_LEN else 0);
       at <= |data| && at + run.head.packedSize >= TWO64 && Sum64(at, run.head.packedSize) <= |data|
  }

  /** One such file, behind however many good ones, and the whole archive is refused. */
  lemma WrappedSumRefusesTheArchive(data: seq<octet>, p: nat, n: nat)
    requires |data| < TWO64 && SigAt(data, 0, SIG_ALZ) && |data| >= 8 && U16At(data, 4) == SUPPORTED_VERSION
    requires Reaches(EntrySteps(data), 8, p, n) && SumWrapsAt(data, p)
    ensures Parsed(data) == Err(Corrupt)
  {
    RefusedExactlyWhenTheSumWraps(data, HeadAt(data, p).end, HeadAt(data, p).head);
    assert EntrySteps(data)(p) == Broken;
    BrokenBehind(EntrySteps(data), 8, p, n, MAX_FILES);
  }

  /** Read the method, checksum and sizes. */
  method ReadSizes(r: Reader, short: Head) returns (out: Option<Head>)
    requires r.Valid()
    modifies r
    ensures r.Valid()
    ensures SizesAt(r.data, old(r.pos), short) == if out.None? then NoHead else HeadRun(out.value, r.pos)
  {
    var width := SizeWidth(short.flags);
    if width != 1 && width != 2 && width != 4 && width != 8 {
      return None;
    }
    var meth := r.U16();
    if meth.None? {
      return None;
    }
    var crc := r.U32();
    if crc.None? {
      return None;
    }
    var packed := r.VarUInt(width);
    if packed.None? {
      return None;
    }
    var unpacked := r.VarUInt(width);
    if unpacked.None? {
      return None;
    }
    out := Some(short.(method_ := meth.value, crc := crc.value.Value(), packedSize := packed.value,
                       unpackedSize := unpacked.value));
  }

  method ReadShortHead(r: Reader) returns (out: Option<Head>)
    requires r.Valid()
    modifies r
    ensures r.Valid()
    ensures out.Some? <==> old(r.pos) + 13 <= |r.data|
    ensures out.Some? ==> out.value == ShortHead(r.data, old(r.pos)) && r.pos == old(r.pos) + 13
  {
    var sig := r.U32();
    if sig.None? {
      return None;
    }
    var nameLen := r.U16();
    if nameLen.None? {
      return None;
    }
    var attributes := r.U8();
    if attributes.None? {
      return None;
    }
    var dosTime := r.U32();
    if dosTime.None? {
      return None;
    }
    var flags := r.U16();
    if flags.None? {
      return None;
    }
    out := Some(Head(nameLen.value, attributes.value, dosTime.value.Value(), flags.value, 0, 0, 0, 0));
  }

  /** Read the head of a file. */
  method ReadHead(r: Reader) returns (out: Option<Head>)
    requires r.Valid()
    modifies r
    ensures r.Valid()
    ensures HeadAt(r.data, old(r.pos)) == if out.None? then NoHead else HeadRun(out.value, r.pos)
  {
    out := ReadShortHead(r);
    if out.Some? && out.value.flags != 0 {
      out := ReadSizes(r, out.value);
    }
  }

  /** Read the name behind a head, and pass over the data. */
  method ReadTail(r: Reader, head: Head) returns (out: Option<Entry>)
    requires r.Valid()
    modifies r
    ensures r.Valid()
    ensures EntryTail(r.data, old(r.pos), head) == if out.None? then NoEntry else OneEntry(out.value, r.pos)
  {
    var name := r.Bytes(head.nameLen);
    if name.None? {
      return None;
    }
    var verify := Some([]);
    if head.flags % 2 == 1 {
      verify := r.Bytes(VERIFY_LEN);
      if verify.None? {
        return None;
      }
    }
    var at := r.pos;
    var incomplete := Sum64(at, head.packedSize) > |r.data|;
    if incomplete {
      r.SeekTo(|r.data|);
    } else {
      var ok := r.Skip(head.packedSize);
      if !ok {
        return None;
      }
    }
    out := Some(Entry(head, name.value, verify.value, at, incomplete));
  }

  /** Read a file header with its name, and pass over the data. */
  method ReadFile(r: Reader) returns (out: Option<Entry>)
    requires r.Valid()
    modifies r
    ensures r.Valid()
    ensures EntryAt(r.data, old(r.pos)) == if out.None? then NoEntry else OneEntry(out.value, r.pos)
  {
    var head := ReadHead(r);
    if head.Some? {
      out := ReadTail(r, head.value);
    } else {
      out := None;
    }
  }

  ghost predicate StepsEntries(step: nat -> Step<Entry>, data: seq<octet>) {
    forall p: nat {:trigger EntryStep(data, p)} :: step(p) == EntryStep(data, p)
  }

  /** Read the next file, if one follows and there is room for it. */
  method ReadNext(r: Reader, room: nat, ghost step: nat -> Step<Entry>) returns (n: Step<Entry>)
    requires r.Valid() && StepsEntries(step, r.data)
    modifies r
    ensures r.Valid()
    ensures n.Broken? ==> step(old(r.pos)).Broken? || (step(old(r.pos)).One? && room == 0)
    ensures !n.Broken? ==> n == step(old(r.pos))
    ensures n.Over? ==> r.pos == old(r.pos)
    ensures n.One? ==> room > 0 && n.next == r.pos
    ensures n.One? && n.item.incomplete ==> step(r.pos).Over?
  {
    assert step(r.pos) == EntryStep(r.data, r.pos);
    var sig := r.PeekU32();
    if sig.None? || sig.value != SIG_FILE {
      return Over;
    }
    if room == 0 {
      return Broken;
    }
    var f := ReadFile(r);
    assert step(r.pos) == EntryStep(r.data, r.pos);
    n := if f.Some? then One(f.value, r.pos) else Broken;
  }

  /** Read the files that follow each other here, up to one that is not complete. */
  method ReadChain(r: Reader, room: nat, ghost step: nat -> Step<Entry>) returns (out: Option<seq<Entry>>)
    requires r.Valid() && StepsEntries(step, r.data)
    modifies r
    ensures r.Valid()
    ensures From(step, old(r.pos), room) == if out.None? then NoRun else Run(out.value, r.pos)
  {
    var files: seq<Entry> := [];
    var left := room;
    while true
      invariant r.Valid() && left >= 0
      invariant From(step, old(r.pos), room) == SoFar(step, r.pos, left, files)
      decreases left
    {
      ghost var at := r.pos;
      var n := ReadNext(r, left, step);
      match n
      case Broken => return None;
      case Over => return Some(files);
      case One(f, q) =>
        OneMore(step, at, left, files, f, q);
        files, left := files + [f], left - 1;
        if f.incomplete {
          return Some(files);
        }
    }
  }

  /** Read the structure of a whole archive; the packed data is not looked at. */
  method Parse(data: seq<octet>) returns (out: Result<Archive, Error>)
    requires |data| < TWO64
    ensures out == Parsed(data)
  {
    var r := new Reader(data);
    var sig := r.PeekU32();
    if sig.None? || sig.value != SIG_ALZ {
      return Err(Unsupported);
    }
    var again := r.U32();
    var version := r.U16();
    if version.None? {
      return Err(Corrupt);
    }
    var disk := r.U16();
    if disk.None? {
      return Err(Corrupt);
    }
    if version.value != SUPPORTED_VERSION {
      return Err(Unsupported);
    }
    var files := ReadChain(r, MAX_FILES, EntrySteps(data));
    out := if files.Some? then Ok(Archive(version.value, files.value, IsSpanned(data), r.pos)) else Err(Corrupt);
  }
}
