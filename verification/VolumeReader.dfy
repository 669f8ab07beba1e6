/** Reading a set of volumes as the one file that they were cut from. */
module VolumeReaders {
  import opened Wrappers
  import opened FlatFile
  import opened Files
  import opened Positions
  import opened VolumeCommits
  import opened VolumeNames
  import opened VolumeSets

  /** The volumes 1, 2 and so on of `base` hold `parts`, and there is no further one. */
  ghost predicate OnDisk(files: map<Path, seq<byte>>, base: Path, parts: seq<seq<byte>>) {
    && |parts| > 0
    && (forall i :: 0 <= i < |parts| ==> Has(files, VolumeName(base, i + 1), parts[i]))
    && VolumeName(base, |parts| + 1) !in files
  }

  lemma OnDiskIsUnique(files: map<Path, seq<byte>>, base: Path, a: seq<seq<byte>>, b: seq<seq<byte>>)
    requires OnDisk(files, base, a) && OnDisk(files, base, b)
    ensures a == b
  {
    assert |a| < |b| ==> Has(files, VolumeName(base, |a| + 1), b[|a|]);
    assert |b| < |a| ==> Has(files, VolumeName(base, |b| + 1), a[|b|]);
    assert forall i :: 0 <= i < |a| && i < |b| ==> Has(files, VolumeName(base, i + 1), a[i]);
  }

  lemma BeforeGrows(parts: seq<seq<byte>>, i: nat)
    requires i < |parts|
    ensures Before(parts, i + 1) == Before(parts, i) + parts[i]
    ensures Flat(parts) == Before(parts, i + 1) + Flat(parts[i + 1..])
  {
    assert parts[..i + 1] == parts[..i] + [parts[i]];
    FlatOfConcat(parts[..i], [parts[i]]);
    FlatOfOne(parts[i]);
    assert parts == parts[..i + 1] + parts[i + 1..];
    FlatOfConcat(parts[..i + 1], parts[i + 1..]);
  }

  lemma OneMorePart(parts: seq<seq<byte>>, c: seq<byte>)
    ensures |Flat(parts + [c])| == |Flat(parts)| + |c|
  {
    FlatOfConcat(parts, [c]);
    FlatOfOne(c);
  }

  /** A directory holds no more consecutive volumes than files. */
  lemma {:induction false} NumbersRunOut(names: set<Path>, base: Path, n: nat)
    requires forall k :: 0 < k <= n ==> VolumeName(base, k) in names
    ensures n <= |names|
  {
    if n > 0 {
      forall k: nat | 0 < k < n
        ensures VolumeName(base, k) in names - {VolumeName(base, n)}
      {
        VolumeNamesDiffer(base, k, n);
      }
      NumbersRunOut(names - {VolumeName(base, n)}, base, n - 1);
    }
  }

  /** A stretch of one part is a stretch of the flat file. */
  lemma InOnePart(parts: seq<seq<byte>>, i: nat, off: nat, n: nat)
    requires i < |parts| && off + n <= |parts[i]|
    ensures var p := |Before(parts, i)| + off;
      p + n <= |Flat(parts)| && Flat(parts)[p..p + n] == parts[i][off..off + n]
  {
    FlatAround(parts, i);
    var front, part, rest := Before(parts, i), parts[i], Flat(parts[i + 1..]);
    var p := |front| + off;
    assert Flat(parts) == front + part + rest;
    assert (front + part + rest)[p..p + n] == part[off..off + n];
  }

  /** What is left from a position on: nothing behind the end. */
  function From(s: seq<byte>, p: nat): seq<byte> {
    if p <= |s| then s[p..] else []
  }

  class VolumeReader {
    const dir: Directory
    const parts: seq<seq<byte>>
    const total: nat
    var pos: nat

    predicate Valid()
      reads this
    {
      total == |Flat(parts)|
    }

    constructor (dir: Directory, parts: seq<seq<byte>>, total: nat)
      requires total == |Flat(parts)|
      ensures Valid() && this.dir == dir && this.parts == parts && pos == 0
    {
      this.dir, this.parts, this.total, this.pos := dir, parts, total, 0;
    }

    /**
     Open every volume from the first one up to the first number that is missing. Without a fault that fails only if
     this is no first volume, or it is not there.
     */
    static method Open(dir: Directory, first: Path) returns (r: Option<VolumeReader>)
      modifies dir`faults
      ensures r.Some? <==>
                && dir.faults == old(dir.faults)
                && SplitBase(first).Some? && VolumeName(SplitBase(first).value, 1) in dir.files
      ensures r.Some? ==>
                && fresh(r.value) && r.value.Valid() && r.value.pos == 0 && r.value.dir == dir
                && SplitBase(first).Some? && OnDisk(dir.files, SplitBase(first).value, r.value.parts)
    {
      var base := SplitBase(first);
      if base.None? {
        return None;
      }
      var parts, total, i := [], 0, 1;
      while true
        invariant i == |parts| + 1 && total == |Flat(parts)| && dir.faults == old(dir.faults)
        invariant forall k :: 0 <= k < |parts| ==> Has(dir.files, VolumeName(base.value, k + 1), parts[k])
        decreases |dir.files.Keys| + 1 - i
      {
        var p := VolumeName(base.value, i);
        var there := dir.Exists(p);
        if i > 1 && !there {
          break;
        }
        if !there {
          return None;
        }
        if * {
          dir.faults := dir.faults + 1;
          return None;
        }
        forall k: nat | 0 < k < i
          ensures VolumeName(base.value, k) in dir.files
        {
          assert Has(dir.files, VolumeName(base.value, (k - 1) + 1), parts[k - 1]);
        }
        NumbersRunOut(dir.files.Keys, base.value, i);
        OneMorePart(parts, dir.files[p]);
        total := total + |dir.files[p]|;
        parts := parts + [dir.files[p]];
        i := i + 1;
      }
      var v := new VolumeReader(dir, parts, total);
      r := Some(v);
    }

    /** The part that holds a position, and where in it; nothing behind the end. */
    method Locate(p: nat) returns (r: Option<(nat, nat)>)
      requires Valid()
      ensures r.None? <==> p >= total
      ensures r.Some? ==>
                && r.value.0 < |parts| && r.value.1 < |parts[r.value.0]|
                && |Before(parts, r.value.0)| + r.value.1 == p
    {
      var start := 0;
      for i := 0 to |parts|
        invariant start == |Before(parts, i)| <= p
      {
        BeforeGrows(parts, i);
        if p < start + |parts[i]| {
          return Some((i, p - start));
        }
        start := start + |parts[i]|;
      }
      assert parts[..|parts|] == parts;
      r := None;
    }

    /** Read at most `want` bytes: some if any are left, and perhaps fewer than there are. `None` is an error. */
    method Read(want: nat) returns (r: Option<seq<byte>>)
      requires Valid()
      modifies this`pos, dir`faults
      ensures Valid() && dir.faults == old(dir.faults) + if r.Some? then 0 else 1
      ensures r.None? ==> pos == old(pos)
      ensures r.Some? ==>
                && |r.value| <= want && (r.value == [] <==> want == 0 || old(pos) >= total)
                && pos == old(pos) + |r.value|
                && From(Flat(parts), old(pos)) == r.value + From(Flat(parts), pos)
    {
      if want == 0 {
        return Some([]);
      }
      var at := Locate(pos);
      if at.None? {
        return Some([]);
      }
      var (i, off) := at.value;
      var room := |parts[i]| - off;
      var most := if want < room then want else room;
      if * {
        dir.faults := dir.faults + 1;
        return None;
      }
      var n: nat :| 0 < n <= most;
      InOnePart(parts, i, off, n);
      r := Some(parts[i][off..off + n]);
      pos := pos + n;
    }

    method Seek(from: SeekFrom) returns (r: Option<nat>)
      requires Valid() && pos < TWO64 && total < TWO64
      modifies this`pos
      ensures Valid() && r == Target(from, old(pos), |Flat(parts)|)
      ensures pos == if r.Some? then r.value else old(pos)
    {
      r := Target(from, pos, total);
      if r.Some? {
        pos := r.value;
      }
    }

    /** Read until nothing is left, in pieces of any size. */
    method ReadToEnd() returns (r: Option<seq<byte>>)
      requires Valid()
      modifies this`pos, dir`faults
      ensures Valid() && dir.faults == old(dir.faults) + if r.Some? then 0 else 1
      ensures r.Some? ==> r.value == From(Flat(parts), old(pos)) && pos >= total
    {
      var got := [];
      while true
        invariant Valid() && From(Flat(parts), old(pos)) == got + From(Flat(parts), pos) && dir.faults == old(dir.faults)
        decreases if pos < total then total - pos else 0
      {
        var want: nat :| want > 0;
        var d := Read(want);
        if d.None? {
          return None;
        }
        if d.value == [] {
          break;
        }
        got := got + d.value;
      }
      r := Some(got);
    }
  }

  /** A committed set of more than one volume is on the disk, complete and with nothing behind it. */
  lemma CommittedIsOnDisk(
      before: map<Path, seq<byte>>, after: map<Path, seq<byte>>, vols: seq<Path>, target: Path)
    requires |vols| > 1 && (forall i :: 0 <= i < |vols| ==> vols[i] in before)
    requires Apart(vols, Finals(target, |vols|)) && StaleName(target, |vols|) !in after
    requires Leaves(before, after, vols, Finals(target, |vols|), |vols|, AllKept(|vols|))
    ensures OnDisk(after, target, Contents(before, vols))
  {
    forall i | 0 <= i < |vols|
      ensures Has(after, VolumeName(target, i + 1), before[vols[i]])
    {
      assert Finals(target, |vols|)[i] == VolumeName(target, i + 1);
    }
  }

  /**
   The round trip: commit a set, open its first volume, seek anywhere and read to the end. What comes back is what
   the flat file held from there on; a set of one volume is a plain file with all of it. It does come back unless the
   disk fails, nothing was written or the next volume of an older set is in the way.
   */
  method CommitAndReadBack(v: VolumeSet, p: u64) returns (r: Option<seq<byte>>)
    requires v.Valid() && v.target != "" && |v.Data()| < TWO64
    modifies v`vols, v.dir
    ensures r.Some? ==> r.value == From(old(v.Data()), p)
    ensures r.Some? <==>
              && v.dir.faults == old(v.dir.faults)
              && old(v.vols) != [] && StaleName(v.target, |old(v.vols)|) !in old(v.dir.files)
  {
    ghost var chunks := Contents(v.dir.files, v.vols);
    ghost var before, vols := v.dir.files, v.vols;
    FinalsAreApart(before, v.dir.live, vols, v.target, v.size);
    var n := |v.vols|;
    var done, moved, kept := Commit(v);
    if done.Err? {
      return None;
    }
    if n == 1 {
      assert Finals(v.target, 1)[0] == v.target;
      FlatOfOne(chunks[0]);
      assert chunks == [chunks[0]];
      if * {
        v.dir.faults := v.dir.faults + 1;
        return None;
      }
      return Some(From(v.dir.files[v.target], p));
    }
    CommittedIsOnDisk(before, v.dir.files, vols, v.target);
    SplitBaseInvertsFirst(v.target, 1);
    assert Has(v.dir.files, VolumeName(v.target, 0 + 1), chunks[0]);
    var reader := VolumeReader.Open(v.dir, VolumeName(v.target, 1));
    if reader.None? {
      return None;
    }
    OnDiskIsUnique(v.dir.files, v.target, reader.value.parts, chunks);
    var at := reader.value.Seek(Start(p));
    r := reader.value.ReadToEnd();
  }
}
