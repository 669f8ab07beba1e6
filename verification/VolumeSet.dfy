/**
 A seekable writer whose bytes are spread over volumes of a fixed size, each in a temporary file of its own.
 Whatever is written, sought or resized, the volumes read one after the other are one flat file.
 */
module VolumeSets {
  import opened Wrappers
  import opened FlatFile
  import opened Files
  import opened VolumeNames
  import opened Positions

  /** The contents of the files `names`, in that order. */
  function Contents(files: map<Path, seq<byte>>, names: seq<Path>): (chunks: seq<seq<byte>>)
    requires forall i :: 0 <= i < |names| ==> names[i] in files
  {
    seq(|names|, i requires 0 <= i < |names| => files[names[i]])
  }

  ghost predicate Distinct(names: seq<Path>) {
    forall i, j :: 0 <= i < j < |names| ==> names[i] != names[j]
  }

  ghost function Elements(names: seq<Path>): set<Path> {
    set i | 0 <= i < |names| :: names[i]
  }

  /** The files that are none of `names`. */
  ghost function Rest(files: map<Path, seq<byte>>, names: seq<Path>): map<Path, seq<byte>> {
    files - Elements(names)
  }

  lemma ChangeOne(files: map<Path, seq<byte>>, names: seq<Path>, i: nat, c: seq<byte>)
    requires Distinct(names) && (forall k :: 0 <= k < |names| ==> names[k] in files) && i < |names|
    ensures var files' := files[names[i] := c];
      && Contents(files', names) == Contents(files, names)[i := c]
      && Rest(files', names) == Rest(files, names)
  {
    assert names[i] in Elements(names);
  }

  lemma AddOne(files: map<Path, seq<byte>>, names: seq<Path>, tmp: Path, c: seq<byte>)
    requires (forall k :: 0 <= k < |names| ==> names[k] in files) && tmp !in files
    ensures var files' := files[tmp := c];
      && Contents(files', names + [tmp]) == Contents(files, names) + [c]
      && Rest(files', names + [tmp]) == Rest(files, names)
      && Elements(names + [tmp]) == Elements(names) + {tmp} && tmp !in Elements(names)
  {
    var names' := names + [tmp];
    assert Elements(names') == Elements(names) + {tmp} by {
      assert names'[|names|] == tmp;
      assert forall k :: 0 <= k < |names| ==> names'[k] == names[k];
    }
  }

  lemma DropLast(files: map<Path, seq<byte>>, names: seq<Path>)
    requires Distinct(names) && (forall k :: 0 <= k < |names| ==> names[k] in files) && |names| > 0
    ensures var n := |names| - 1; var files' := files - {names[n]};
      && (forall k :: 0 <= k < n ==> names[k] in files')
      && Contents(files', names[..n]) == Contents(files, names)[..n]
      && Rest(files', names[..n]) == Rest(files, names)
      && Elements(names) == Elements(names[..n]) + {names[n]} && names[n] !in Elements(names[..n])
  {
    var n := |names| - 1;
    assert Elements(names) == Elements(names[..n]) + {names[n]} by {
      assert forall k :: 0 <= k < n ==> names[..n][k] == names[k];
    }
  }

  /** The volumes of a set: temporary files of their own, all full but the last. */
  ghost predicate GoodVolumes(
      files: map<Path, seq<byte>>, live: set<Path>, vols: seq<Path>, target: Path, size: nat)
  {
    && size > 0 && live <= files.Keys && Distinct(vols)
    && (forall i :: 0 <= i < |vols| ==> vols[i] in files && vols[i] in live && IsTmpOf(vols[i], VolumeName(target, i + 1)))
    && Cut(Contents(files, vols), size)
  }

  /** The files once the last volume is full. */
  function FilledFiles(files: map<Path, seq<byte>>, vols: seq<Path>, size: nat): map<Path, seq<byte>>
    requires |vols| > 0 ==> vols[|vols| - 1] in files
  {
    if |vols| == 0 then files else files[vols[|vols| - 1] := Resized(files[vols[|vols| - 1]], size)]
  }

  /** Other contents for one volume, of a length that it may have. */
  lemma ChangedVolume(
      files: map<Path, seq<byte>>, live: set<Path>, vols: seq<Path>, target: Path, size: nat, i: nat, c: seq<byte>)
    requires GoodVolumes(files, live, vols, target, size) && i < |vols|
    requires |c| <= size && (i < |vols| - 1 ==> |c| == size)
    ensures var files' := files[vols[i] := c];
      && GoodVolumes(files', live, vols, target, size) && Rest(files', vols) == Rest(files, vols)
      && Contents(files', vols) == Contents(files, vols)[i := c]
  {
    ChangeOne(files, vols, i, c);
    CutStaysCut(Contents(files, vols), i, size, c);
  }

  /** Filling the last volume up. */
  lemma FilledVolumes(files: map<Path, seq<byte>>, live: set<Path>, vols: seq<Path>, target: Path, size: nat)
    requires GoodVolumes(files, live, vols, target, size)
    ensures var filled := FilledFiles(files, vols, size);
      && GoodVolumes(filled, live, vols, target, size) && Rest(filled, vols) == Rest(files, vols)
      && Contents(filled, vols) == Filled(Contents(files, vols), size)
      && filled.Keys == files.Keys
  {
    if |vols| > 0 {
      ChangedVolume(files, live, vols, target, size, |vols| - 1, Resized(files[vols[|vols| - 1]], size));
    }
  }

  /** A new, empty volume behind full ones. */
  lemma AppendedVolume(files: map<Path, seq<byte>>, live: set<Path>, vols: seq<Path>, target: Path, size: nat, tmp: Path)
    requires GoodVolumes(files, live, vols, target, size) && tmp !in files
    requires IsTmpOf(tmp, VolumeName(target, |vols| + 1)) && Cut(Contents(files, vols) + [[]], size)
    ensures var files' := files[tmp := []]; var vols' := vols + [tmp];
      && GoodVolumes(files', live + {tmp}, vols', target, size)
      && Contents(files', vols') == Contents(files, vols) + [[]] && Rest(files', vols') == Rest(files, vols)
      && live + {tmp} - Elements(vols') == live - Elements(vols)
  {
    AddOne(files, vols, tmp, []);
  }

  lemma AddedVolume(files: map<Path, seq<byte>>, live: set<Path>, vols: seq<Path>, target: Path, size: nat, tmp: Path)
    requires GoodVolumes(files, live, vols, target, size)
    requires tmp !in files && IsTmpOf(tmp, VolumeName(target, |vols| + 1))
    ensures var files' := FilledFiles(files, vols, size)[tmp := []]; var vols' := vols + [tmp];
      && GoodVolumes(files', live + {tmp}, vols', target, size)
      && Flat(Contents(files', vols')) == PadTo(Flat(Contents(files, vols)), |vols| * size)
      && Rest(files', vols') == Rest(files, vols)
      && live + {tmp} - Elements(vols') == live - Elements(vols)
  {
    FilledVolumes(files, live, vols, target, size);
    OneMorePiece(Contents(files, vols), size);
    AppendedVolume(FilledFiles(files, vols, size), live, vols, target, size, tmp);
  }

  /** Where the last of `n` volumes starts in the flat file. */
  function StartOf(n: nat, size: nat): nat {
    if n == 0 then 0 else (n - 1) * size
  }

  lemma StartGrows(n: nat, size: nat)
    ensures StartOf(n, size) <= StartOf(n + 1, size) == n * size
  {
    if n > 0 {
      assert n * size == (n - 1) * size + size;
    }
  }

  lemma {:induction false} StartsGrow(m: nat, n: nat, size: nat)
    requires m <= n
    ensures StartOf(m, size) <= StartOf(n, size)
  {
    if m < n {
      StartsGrow(m, n - 1, size);
      StartGrows(n - 1, size);
    }
  }

  /** The last volume starts inside the flat file or right behind it. */
  lemma LastStart(chunks: seq<seq<byte>>, size: nat)
    requires Cut(chunks, size)
    ensures StartOf(|chunks|, size) <= |Flat(chunks)|
    ensures |chunks| > 0 ==> |Flat(chunks)| == StartOf(|chunks|, size) + |chunks[|chunks| - 1]|
  {
    if |chunks| > 0 {
      FlatEnds(chunks);
      BeforeLength(chunks, |chunks| - 1, size);
    }
  }

  /** The pieces with the last one `last` long. */
  function LastResized(chunks: seq<seq<byte>>, last: nat): (r: seq<seq<byte>>)
    requires |chunks| > 0
    ensures |r| == |chunks|
  {
    chunks[|chunks| - 1 := Resized(chunks[|chunks| - 1], last)]
  }

  /** Keeping `count` pieces resizes the flat file, and so does then resizing the last of them. */
  lemma Cropped(chunks: seq<seq<byte>>, size: nat, count: nat, last: nat)
    requires 0 < count <= |chunks| && Cut(chunks, size) && last <= size
    ensures var kept := Flat(chunks[..count]); StartOf(count, size) <= |kept| && kept == Resized(Flat(chunks), |kept|)
    ensures Flat(LastResized(chunks[..count], last)) == Resized(Flat(chunks), StartOf(count, size) + last)
  {
    BeforeLength(chunks, count - 1, size);
    FirstPieces(chunks, size, count);
    FewerPieces(chunks, size, count, last);
  }

  /** What writing `d` at `p` makes of `s`; writing nothing makes no hole. */
  function AfterWrite(s: seq<byte>, p: nat, d: seq<byte>): seq<byte> {
    if d == [] then s else Written(s, p, d)
  }

  /** What a failed write leaves: a hole not beyond the position, or the first bytes written. */
  ghost predicate PartlyWritten(s: seq<byte>, p: nat, d: seq<byte>, t: seq<byte>) {
    || (exists m: nat :: m <= p && t == PadTo(s, m))
    || (exists k :: 0 < k <= |d| && t == Written(s, p, d[..k]))
  }

  /** The volumes made on the way to volume `idx` pad the file no further than where it starts. */
  lemma MadeUpTo(before: nat, idx: nat, size: nat, len: nat)
    requires StartOf(before, size) <= len
    ensures forall made {:trigger StartOf(made, size)} ::
              before <= made <= (if idx < before then before else idx + 1)
              ==> StartOf(made, size) <= idx * size || StartOf(made, size) <= len
  {
    forall made {:trigger StartOf(made, size)} | before < made <= idx + 1
      ensures StartOf(made, size) <= idx * size
    {
      StartsGrow(made, idx + 1, size);
    }
  }

  lemma WrittenAfterPad(s: seq<byte>, m: nat, p: nat, d: seq<byte>)
    requires m <= p || m <= |s|
    ensures Written(PadTo(s, m), p, d) == Written(s, p, d)
  {
    if m <= p {
      PadThenWrite(s, m, p, d);
    }
  }

  lemma WrittenFlat(chunks: seq<seq<byte>>, idx: nat, size: nat, off: nat, d: seq<byte>, c: seq<byte>)
    requires idx < |chunks| && Cut(chunks, size) && off + |d| <= size && c == Written(chunks[idx], off, d)
    ensures |c| <= size && (idx < |chunks| - 1 ==> |c| == size)
    ensures Flat(chunks[idx := c]) == Written(Flat(chunks), idx * size + off, d)
  {
    WriteIntoPiece(chunks, idx, size, off, d, c, chunks[idx := c]);
    BeforeLength(chunks, idx, size);
  }

  lemma WrittenVolume(
      files: map<Path, seq<byte>>, live: set<Path>, vols: seq<Path>, target: Path, size: nat,
      idx: nat, off: nat, d: seq<byte>, files': map<Path, seq<byte>>, p: nat)
    requires GoodVolumes(files, live, vols, target, size) && idx < |vols| && off + |d| <= size && p == idx * size + off
    requires files' == files[vols[idx] := Written(files[vols[idx]], off, d)]
    ensures GoodVolumes(files', live, vols, target, size) && Rest(files', vols) == Rest(files, vols)
    ensures Flat(Contents(files', vols)) == Written(Flat(Contents(files, vols)), p, d)
  {
    var c := Written(files[vols[idx]], off, d);
    WrittenFlat(Contents(files, vols), idx, size, off, d, c);
    ChangedVolume(files, live, vols, target, size, idx, c);
  }

  lemma PaddedIsPartly(s: seq<byte>, m: nat, p: nat, d: seq<byte>, t: seq<byte>)
    requires (m <= p || m <= |s|) && t == PadTo(s, m)
    ensures PartlyWritten(s, p, d, t)
  {
    if m > p {
      assert t == PadTo(s, 0);
    }
  }

  lemma PutIsPartly(s: seq<byte>, m: nat, p: nat, d: seq<byte>, k: nat, t: seq<byte>)
    requires (m <= p || m <= |s|) && k <= |d| && t == AfterWrite(PadTo(s, m), p, d[..k])
    ensures PartlyWritten(s, p, d, t) && (k > 0 ==> t == AfterWrite(s, p, d[..k]))
  {
    if k == 0 {
      PaddedIsPartly(s, m, p, d, t);
    } else {
      WrittenAfterPad(s, m, p, d[..k]);
    }
  }

  lemma PartlyShorter(s: seq<byte>, p: nat, buf: seq<byte>, n: nat, t: seq<byte>)
    requires n <= |buf| && PartlyWritten(s, p, buf[..n], t)
    ensures PartlyWritten(s, p, buf, t)
  {
    if k :| 0 < k <= n && t == Written(s, p, buf[..n][..k]) {
      assert buf[..n][..k] == buf[..k];
    }
  }

  lemma WriteInTwo(s: seq<byte>, p: nat, a: seq<byte>, b: seq<byte>)
    requires b != []
    ensures AfterWrite(AfterWrite(s, p, a), p + |a|, b) == AfterWrite(s, p, a + b)
  {
    if a == [] {
      assert a + b == b;
    } else {
      WriteTwice(s, p, a, b);
    }
  }

  lemma CutAt<T>(buf: seq<T>, done: nat, n: nat)
    requires done + n <= |buf|
    ensures buf[..done] + buf[done..][..n] == buf[..done + n]
  {
  }

  lemma WriteGoesOn(s: seq<byte>, p: nat, buf: seq<byte>, done: nat, n: nat, before: seq<byte>, after: seq<byte>)
    requires done + n <= |buf| && n > 0
    requires before == AfterWrite(s, p, buf[..done]) && after == AfterWrite(before, p + done, buf[done..][..n])
    ensures after == AfterWrite(s, p, buf[..done + n])
  {
    WriteInTwo(s, p, buf[..done], buf[done..][..n]);
    CutAt(buf, done, n);
  }

  lemma PartlyInTwo(s: seq<byte>, p: nat, buf: seq<byte>, done: nat, before: seq<byte>, t: seq<byte>)
    requires done <= |buf| && before == AfterWrite(s, p, buf[..done])
    requires PartlyWritten(before, p + done, buf[done..], t)
    ensures PartlyWritten(s, p, buf, t)
  {
    if k :| 0 < k <= |buf[done..]| && t == Written(before, p + done, buf[done..][..k]) {
      WriteGoesOn(s, p, buf, done, k, before, t);
    }
  }

  class VolumeSet {
    const dir: Directory
    const target: Path
    const size: nat
    var vols: seq<Path>
    var pos: nat

    ghost predicate Valid()
      reads this, dir
    {
      GoodVolumes(dir.files, dir.live, vols, target, size)
    }

    /** The flat file. */
    ghost function Data(): seq<byte>
      requires Valid()
      reads this, dir
    {
      Flat(Contents(dir.files, vols))
    }

    /** Nothing but the volumes of this set changed in the directory. */
    twostate predicate OthersKept()
      reads this, dir
    {
      && Rest(dir.files, vols) == Rest(old(dir.files), old(vols))
      && dir.live - Elements(vols) == old(dir.live) - Elements(old(vols))
    }

    /** A volume size of zero is refused. */
    static method New(dir: Directory, target: Path, size: nat) returns (r: Option<VolumeSet>)
      requires dir.live <= dir.files.Keys
      ensures r.None? <==> size == 0
      ensures r.Some? ==> fresh(r.value) && r.value.Valid() && r.value.vols == [] && r.value.pos == 0
      ensures r.Some? ==> r.value.dir == dir && r.value.target == target && r.value.size == size
    {
      if size == 0 {
        return None;
      }
      var v := new VolumeSet(dir, target, size);
      r := Some(v);
    }

    constructor (dir: Directory, target: Path, size: nat)
      requires size > 0 && dir.live <= dir.files.Keys
      ensures Valid() && Data() == [] && pos == 0 && this.dir == dir && this.target == target && this.size == size
      ensures vols == []
    {
      this.dir, this.target, this.size, this.vols, this.pos := dir, target, size, [], 0;
    }

    method Len() returns (n: nat)
      requires Valid()
      ensures n == |Data()|
    {
      if |vols| == 0 {
        return 0;
      }
      LastStart(Contents(dir.files, vols), size);
      n := (|vols| - 1) * size + |dir.files[vols[|vols| - 1]]|;
    }

    /** Make one more volume, after filling the last one up. */
    method AddVolume() returns (ok: bool)
      requires Valid()
      modifies this`vols, dir
      ensures Valid() && OthersKept()
      ensures !ok ==> vols == old(vols) && Data() == old(Data())
      ensures if ok then dir.faults == old(dir.faults) else dir.faults > old(dir.faults)
      ensures ok ==> |vols| == |old(vols)| + 1 && Data() == PadTo(old(Data()), |old(vols)| * size)
    {
      var n := |vols|;
      var tmp := dir.OpenNewTmp(VolumeName(target, n + 1));
      if tmp.None? {
        return false;
      }
      AddedVolume(old(dir.files), old(dir.live), vols, target, size, tmp.value);
      if n > 0 {
        var filled := dir.SetLen(vols[n - 1], size);
        if !filled {
          dir.Discard(tmp.value);
          assert dir.files == old(dir.files) && dir.live == old(dir.live);
          return false;
        }
      }
      assert dir.files == FilledFiles(old(dir.files), vols, size)[tmp.value := []];
      vols := vols + [tmp.value];
      ok := true;
    }

    /** Make volumes up to number `idx` (counted from zero), filling up those in front. */
    method Ensure(idx: nat) returns (ok: bool)
      requires Valid()
      modifies this`vols, dir
      ensures Valid() && OthersKept()
      ensures |vols| >= |old(vols)| && |vols| <= (if idx < |old(vols)| then |old(vols)| else idx + 1)
      ensures ok ==> |vols| > idx
      ensures if ok then dir.faults == old(dir.faults) else dir.faults > old(dir.faults)
      ensures Data() == PadTo(old(Data()), StartOf(|vols|, size))
      ensures StartOf(|vols|, size) <= idx * size || StartOf(|vols|, size) <= |old(Data())|
    {
      ghost var flat := Data();
      LastStart(Contents(dir.files, vols), size);
      MadeUpTo(|old(vols)|, idx, size, |flat|);
      while |vols| <= idx
        invariant Valid() && OthersKept()
        invariant |old(vols)| <= |vols| <= (if idx < |old(vols)| then |old(vols)| else idx + 1)
        invariant Data() == PadTo(flat, StartOf(|vols|, size)) && dir.faults == old(dir.faults)
        decreases idx + 1 - |vols|
      {
        StartGrows(|vols|, size);
        PadTwice(flat, StartOf(|vols|, size), StartOf(|vols| + 1, size));
        ok := AddVolume();
        if !ok {
          return false;
        }
      }
      ok := true;
    }

    /** Drop the last volume and its file. */
    method DropVolume()
      requires Valid() && |vols| > 0
      modifies this`vols, dir`files, dir`live
      ensures Valid() && OthersKept() && vols == old(vols)[..|old(vols)| - 1]
      ensures Contents(dir.files, vols) == Contents(old(dir.files), old(vols))[..|old(vols)| - 1]
    {
      DropLast(dir.files, vols);
      var n := |vols| - 1;
      var tmp := vols[n];
      vols := vols[..n];
      dir.Discard(tmp);
    }

    /** Keep the first `count` volumes. */
    method Truncate(count: nat)
      requires Valid()
      modifies this`vols, dir`files, dir`live
      ensures Valid() && OthersKept()
      ensures |vols| == if count < |old(vols)| then count else |old(vols)|
      ensures Contents(dir.files, vols) == Contents(old(dir.files), old(vols))[..|vols|]
    {
      ghost var chunks := Contents(dir.files, vols);
      while |vols| > count
        invariant Valid() && OthersKept()
        invariant |vols| <= |old(vols)| && (|vols| < |old(vols)| ==> |vols| >= count)
        invariant Contents(dir.files, vols) == chunks[..|vols|]
        decreases |vols|
      {
        DropVolume();
      }
    }

    /** Set the length of the last volume. */
    method ResizeLast(last: nat) returns (ok: bool)
      requires Valid() && |vols| > 0 && last <= size
      modifies dir
      ensures Valid() && OthersKept()
      ensures if ok then dir.faults == old(dir.faults) else dir.faults > old(dir.faults)
      ensures !ok ==> dir.files == old(dir.files)
      ensures ok ==> Contents(dir.files, vols) ==
                     LastResized(Contents(old(dir.files), vols), last)
    {
      var n := |vols| - 1;
      ok := dir.SetLen(vols[n], last);
      if ok {
        ChangeOne(old(dir.files), vols, n, Resized(old(dir.files)[vols[n]], last));
      }
    }

    /** Keep `count` volumes and make the last of them `last` long. */
    method Crop(count: nat, last: nat) returns (ok: bool)
      requires Valid() && 0 < count <= |vols| && last <= size
      modifies this`vols, dir
      ensures Valid() && OthersKept()
      ensures if ok then dir.faults == old(dir.faults) else dir.faults > old(dir.faults)
      ensures ok ==> Data() == Resized(old(Data()), StartOf(count, size) + last)
      ensures !ok ==> StartOf(count, size) <= |Data()| && Data() == Resized(old(Data()), |Data()|)
    {
      Cropped(Contents(dir.files, vols), size, count, last);
      Truncate(count);
      ok := ResizeLast(last);
    }

    /** Resize the flat file; a failure leaves it resized to some other length. */
    method SetLen(n: nat) returns (ok: bool)
      requires Valid()
      modifies this`vols, dir
      ensures Valid() && OthersKept()
      ensures Data() == Resized(old(Data()), |Data()|)
      ensures ok ==> |Data()| == n
      ensures ok <==> dir.faults == old(dir.faults)
    {
      if n == 0 {
        Truncate(0);
        return true;
      }
      var count := (n + size - 1) / size;
      Ceiling(n, size);
      LastStart(Contents(dir.files, vols), size);
      ok := Ensure(count - 1);
      if !ok {
        return false;
      }
      ghost var made := |vols|;
      StartsGrow(if made <= count then made else count, count, size);
      ok := Crop(count, n - (count - 1) * size);
      PadThenResize(old(Data()), StartOf(made, size), |Data()|);
    }

    /** Write `d` into volume `idx`: `k` of its bytes, all of them unless it fails. */
    method Put(idx: nat, off: nat, d: seq<byte>, ghost p: nat) returns (ok: bool, k: nat)
      requires Valid() && idx < |vols| && off + |d| <= size && d != [] && p == idx * size + off
      modifies dir
      ensures Valid() && OthersKept()
      ensures k <= |d| && (ok ==> k == |d|)
      ensures if ok then dir.faults == old(dir.faults) else dir.faults > old(dir.faults)
      ensures Data() == AfterWrite(old(Data()), p, d[..k])
    {
      ok, k := dir.WriteAt(vols[idx], off, d);
      if k > 0 {
        WrittenVolume(old(dir.files), dir.live, vols, target, size, idx, off, d[..k], dir.files, p);
      }
    }

    /** Write `d`, which fits into volume `idx`; `false` is an error. */
    method WriteWithin(idx: nat, off: nat, d: seq<byte>, ghost p: nat) returns (ok: bool)
      requires Valid() && off + |d| <= size && d != [] && idx * size + off == p
      modifies this`vols, dir
      ensures Valid() && OthersKept()
      ensures if ok then dir.faults == old(dir.faults) else dir.faults > old(dir.faults)
      ensures ok ==> Data() == AfterWrite(old(Data()), p, d)
      ensures PartlyWritten(old(Data()), p, d, Data())
    {
      ghost var flat := Data();
      ok := Ensure(idx);
      ghost var made := StartOf(|vols|, size);
      if !ok {
        PaddedIsPartly(flat, made, p, d, Data());
        return false;
      }
      var k;
      ok, k := Put(idx, off, d, p);
      PutIsPartly(flat, made, p, d, k, Data());
      assert k == |d| ==> d[..k] == d;
    }

    /** Write as much of `buf` as fits into the volume at the position; `None` is an error. */
    method Write(buf: seq<byte>) returns (r: Option<nat>)
      requires Valid()
      modifies this, dir
      ensures Valid() && OthersKept()
      ensures r.Some? ==>
                && r.value == (if |buf| <= size - old(pos) % size then |buf| else size - old(pos) % size)
                && (r.value == 0 <==> buf == [])
                && pos == old(pos) + r.value
                && Data() == AfterWrite(old(Data()), old(pos), buf[..r.value])
      ensures r.None? ==> buf != [] && pos == old(pos) && PartlyWritten(old(Data()), pos, buf, Data())
      ensures if r.Some? then dir.faults == old(dir.faults) else dir.faults > old(dir.faults)
    {
      if buf == [] {
        return Some(0);
      }
      var idx, off := pos / size, pos % size;
      var n := if |buf| <= size - off then |buf| else size - off;
      ghost var flat := Data();
      var ok := WriteWithin(idx, off, buf[..n], pos);
      PartlyShorter(flat, pos, buf, n, Data());
      if !ok {
        return None;
      }
      pos := pos + n;
      r := Some(n);
    }

    /** Write some more of `buf`, of which `done` bytes were written from `p` on. */
    method WriteMore(buf: seq<byte>, done: nat, ghost flat: seq<byte>, ghost p: nat) returns (r: Option<nat>)
      requires Valid() && done < |buf| && pos == p + done && Data() == AfterWrite(flat, p, buf[..done])
      modifies this, dir
      ensures Valid() && OthersKept()
      ensures r.Some? ==>
                && 0 < r.value <= |buf| - done && pos == p + done + r.value
                && Data() == AfterWrite(flat, p, buf[..done + r.value])
      ensures r.None? ==> PartlyWritten(flat, p, buf, Data())
      ensures if r.Some? then dir.faults == old(dir.faults) else dir.faults > old(dir.faults)
    {
      ghost var before := Data();
      r := Write(buf[done..]);
      if r.Some? {
        WriteGoesOn(flat, p, buf, done, r.value, before, Data());
      } else {
        PartlyInTwo(flat, p, buf, done, before, Data());
      }
    }

    /** Write all of `buf`, volume after volume. */
    method WriteAll(buf: seq<byte>) returns (ok: bool)
      requires Valid()
      modifies this, dir
      ensures Valid() && OthersKept()
      ensures ok ==> pos == old(pos) + |buf| && Data() == AfterWrite(old(Data()), old(pos), buf)
      ensures !ok ==> PartlyWritten(old(Data()), old(pos), buf, Data())
      ensures ok <==> dir.faults == old(dir.faults)
    {
      ghost var flat := Data();
      var done := 0;
      while done < |buf|
        invariant 0 <= done <= |buf|
        invariant Valid() && OthersKept()
        invariant pos == old(pos) + done && Data() == AfterWrite(flat, old(pos), buf[..done])
        invariant dir.faults == old(dir.faults)
        decreases |buf| - done
      {
        var r := WriteMore(buf, done, flat, old(pos));
        if r.None? {
          return false;
        }
        done := done + r.value;
      }
      assert buf[..done] == buf;
      ok := true;
    }

    /** Move the position; nothing else changes, whatever the outcome. */
    method Seek(from: SeekFrom) returns (r: Option<nat>)
      requires Valid() && pos < TWO64 && |Data()| < TWO64
      modifies this`pos
      ensures Valid() && Data() == old(Data())
      ensures r == Target(from, old(pos), |Data()|)
      ensures pos == if r.Some? then r.value else old(pos)
    {
      var len := Len();
      r := Target(from, pos, len);
      if r.Some? {
        pos := r.value;
      }
    }
  }

  /** Rounding up: the last of `count` volumes holds between one byte and a full volume. */
  lemma Ceiling(n: nat, size: nat)
    requires n > 0 && size > 0
    ensures var count := (n + size - 1) / size; count >= 1 && 0 < n - (count - 1) * size <= size
  {
    var count := (n + size - 1) / size;
    assert count * size <= n + size - 1 < count * size + size;
    assert (count - 1) * size == count * size - size;
  }
}
