/** The ZIP engine's extraction: an item that cannot be extracted is reported and does not stop the others. */
module ZipExtracts {
  import opened Wrappers
  import opened Extractions
  import opened FlatFile
  import opened Files

  const BUFFER := 64 * 1024

  /** An entry as the archive gives it: its bytes, all of them or some before reading fails, or why it does not open. */
  datatype Opening = Opens(bytes: seq<byte>, whole: bool) | NeedsPassword | Unreadable

  /** `header` tells whether its header can be read. */
  datatype Entry = Entry(header: bool, opening: Opening)

  type Zipped = Listed<Entry>

  /** What comes of one item: its fate, or the end of everything. */
  datatype Step = Went(fate: Fate) | Stop(result: ExtractResult)

  /** The bytes put in place are those of the entry, and an item is lost only for the reason that is told. */
  predicate Honest(z: Zipped, fate: Fate, faulty: bool) {
    match fate
    case Placed(_, content) => z.source.opening == Opens(content, true)
    case Lost(UnsafePath) => z.item.target.None?
    case Lost(CreateDir) => faulty
    case Lost(CreateFile) => faulty && !z.item.isDir
    case Lost(ReadError) => z.source.opening.Unreadable? && !z.item.isDir
    case Lost(WriteError) => z.source.opening.Opens? && (faulty || !z.source.opening.whole) && !z.item.isDir
    case Lost(SizeMismatch) =>
      && z.source.opening.Opens? && z.source.opening.whole && |z.source.opening.bytes| != z.item.size
      && !z.item.isDir
    case Lost(CommitError) => faulty && !z.item.isDir
    case _ => true
  }

  predicate AllHonest(all: seq<Zipped>, fates: seq<Fate>, faulty: bool) {
    |fates| <= |all| && forall i :: 0 <= i < |fates| ==> Honest(all[i], fates[i], faulty)
  }

  lemma OneMoreHonest(all: seq<Zipped>, fates: seq<Fate>, fate: Fate, before: bool, now: bool, faulty: bool)
    requires AllHonest(all, fates, before) && |fates| < |all| && Honest(all[|fates|], fate, now)
    requires before || now ==> faulty
    ensures AllHonest(all, fates + [fate], faulty)
  {
    forall i | 0 <= i < |fates|
      ensures Honest(all[i], fates[i], faulty)
    {
      assert Honest(all[i], fates[i], before);
    }
  }

  /** With a good disk, entries that open, read to the end and have the listed size are never lost. */
  lemma NoFaultNoLoss(all: seq<Zipped>, fates: seq<Fate>)
    requires AllHonest(all, fates, false)
    requires forall i :: 0 <= i < |all| ==>
               && all[i].item.target.Some?
               && (all[i].item.isDir || (all[i].source.opening.Opens? && all[i].source.opening.whole
                                         && |all[i].source.opening.bytes| == all[i].item.size))
    ensures Losses(Items(all), fates) == []
  {
    assert forall i :: 0 <= i < |fates| ==> Honest(all[i], fates[i], false);
    NothingLostNothingMissing(Items(all), fates);
  }

  datatype Copied = Whole(n: nat) | Broke | GaveUp

  /** Copy an entry into a staged file, piece by piece. */
  method Copy(disk: Disk, tmp: Path, entry: seq<byte>, whole: bool) returns (c: Copied)
    requires tmp in disk.dir.files && disk.dir.files[tmp] == []
    modifies disk`canceled, disk.dir`faults, disk.dir`files
    ensures tmp in disk.dir.files && disk.dir.files - {tmp} == old(disk.dir.files) - {tmp}
    ensures c.Whole? ==> whole && disk.dir.files[tmp] == entry && c.n == |entry|
    ensures c.Broke? ==> !whole || disk.dir.faults > old(disk.dir.faults)
    ensures c.GaveUp? ==> disk.canceled
    ensures (old(disk.canceled) ==> disk.canceled) && disk.dir.faults >= old(disk.dir.faults)
  {
    var wrote := 0;
    while true
      invariant tmp in disk.dir.files && disk.dir.files - {tmp} == old(disk.dir.files) - {tmp}
      invariant wrote <= |entry| && disk.dir.files[tmp] == entry[..wrote]
      invariant (old(disk.canceled) ==> disk.canceled) && disk.dir.faults == old(disk.dir.faults)
      decreases |entry| - wrote
    {
      var canceled := disk.LookCanceled();
      if canceled {
        return GaveUp;
      }
      if wrote == |entry| {
        if !whole {
          return Broke;
        }
        break;
      }
      var n: nat :| 0 < n <= BUFFER && wrote + n <= |entry|;
      var ok := disk.Append(tmp, entry[wrote..wrote + n]);
      if !ok {
        return Broke;
      }
      assert entry[..wrote] + entry[wrote..wrote + n] == entry[..wrote + n];
      wrote := wrote + n;
    }
    if * {
      disk.dir.faults := disk.dir.faults + 1;
      return Broke;
    }
    assert entry[..wrote] == entry;
    c := Whole(wrote);
  }

  /** Where a file goes, given what is there already; nothing if it is to be skipped. */
  method Place(disk: Disk, item: Item, rename: (Path, nat) -> Path) returns (p: Option<Path>)
    requires item.target.Some? && !item.isDir
    ensures p.None? <==> Taken(item.target.value, disk.dir.files, disk.folders) && item.mode == Skip
    ensures p.Some? ==> forall content :: |content| == item.size ==>
              Settled(item, Placed(p.value, content), disk.dir.files, disk.folders, rename)
  {
    var target := item.target.value;
    var there := disk.Exists(target);
    if !there {
      return Some(target);
    }
    match item.mode
    case Skip => p := None;
    case Overwrite => p := Some(target);
    case Rename =>
      var free := disk.UniquePath(target, rename);
      p := Some(free);
  }

  /** Stage a file, copy its entry into it, and give it its name if it is as long as the list says. */
  method StageAndCommit(disk: Disk, z: Zipped, path: Path) returns (s: Step)
    requires disk.dir.live <= disk.dir.files.Keys && z.source.opening.Opens? && !z.item.isDir
    modifies disk`canceled, disk.dir
    ensures disk.dir.live == old(disk.dir.live) && disk.dir.faults >= old(disk.dir.faults)
    ensures s.Went? ==> (s.fate.Placed? && s.fate.path == path && |s.fate.content| == z.item.size) || s.fate.Lost?
    ensures s.Went? ==> Honest(z, s.fate, disk.dir.faults > old(disk.dir.faults)) && s.fate != Lost(UnsafePath)
    ensures disk.dir.files
            == if s.Went? && s.fate.Placed? then old(disk.dir.files)[path := s.fate.content] else old(disk.dir.files)
    ensures s.Stop? ==> s.result == CANCELED && disk.canceled
  {
    ghost var files, live := disk.dir.files, disk.dir.live;
    var staged := disk.dir.OpenNewTmp(path);
    if staged.None? {
      return Went(Lost(CreateFile));
    }
    var tmp := staged.value;
    assert files[tmp := []] - {tmp} == files;
    var copied := Copy(disk, tmp, z.source.opening.bytes, z.source.opening.whole);
    if copied.Whole? && copied.n == z.item.size {
      var ok := disk.CommitStaged(tmp, path);
      s := Went(if ok then Placed(path, disk.dir.files[path]) else Lost(CommitError));
    } else {
      disk.dir.Discard(tmp);
      s := if copied.GaveUp? then Stop(CANCELED)
           else Went(Lost(if copied.Broke? then WriteError else SizeMismatch));
    }
  }

  /** Extract one item. `lastParent` spares looking for a folder that was just there. */
  method ExtractOne(disk: Disk, z: Zipped, lastParent: Option<Path>, rename: (Path, nat) -> Path)
    returns (s: Step, parent: Option<Path>)
    requires disk.dir.live <= disk.dir.files.Keys
    modifies disk`canceled, disk`folders, disk.dir
    ensures disk.dir.live == old(disk.dir.live) && old(disk.folders) <= disk.folders && disk.dir.faults >= old(disk.dir.faults)
    ensures s.Went? && !s.fate.Lost? ==> Settled(z.item, s.fate, old(disk.dir.files), disk.folders, rename)
    ensures s.Went? ==> Honest(z, s.fate, disk.dir.faults > old(disk.dir.faults))
    ensures disk.dir.files
            == if s.Went? && s.fate.Placed? then old(disk.dir.files)[s.fate.path := s.fate.content] else old(disk.dir.files)
    ensures s.Stop? ==>
              || (s.result == CANCELED && disk.canceled)
              || (s.result == Failed(Password) && !z.item.isDir && z.source.opening.NeedsPassword?)
  {
    parent := lastParent;
    var canceled := disk.LookCanceled();
    if canceled {
      return Stop(CANCELED), parent;
    }
    var item := z.item;
    if item.target.None? {
      return Went(Lost(UnsafePath)), parent;
    }
    if item.isDir {
      var made := disk.MakeFolder(item.target.value);
      return Went(if made then Folder else Lost(CreateDir)), parent;
    }
    var path := Place(disk, item, rename);
    if path.None? {
      return Went(Skipped), parent;
    }
    if z.source.opening.NeedsPassword? {
      return Stop(Failed(Password)), parent;
    }
    if z.source.opening.Unreadable? {
      return Went(Lost(ReadError)), parent;
    }
    if parent != Some(item.parent) {
      var made := disk.MakeFolder(item.parent);
      if !made {
        return Went(Lost(CreateDir)), parent;
      }
      parent := Some(item.parent);
    }
    s := StageAndCommit(disk, z, path.value);
  }

  /** Look at all headers first. */
  method Targets(all: seq<Zipped>, selected: seq<string>) returns (r: Option<seq<Zipped>>)
    ensures r.None? <==> exists i :: 0 <= i < |all| && !all[i].source.header
    ensures r.Some? ==> r.value == Wanted(all, selected)
  {
    var targets := [];
    for i := 0 to |all|
      invariant targets == Wanted(all[..i], selected) && forall j :: 0 <= j < i ==> all[j].source.header
    {
      if !all[i].source.header {
        return None;
      }
      assert all[..i + 1][..i] == all[..i];
      if InScope(all[i].item.name, selected) {
        targets := targets + [all[i]];
      }
    }
    assert all[..|all|] == all;
    r := Some(targets);
  }

  /**
   Extract the wanted items. Whatever fails, no staged file is left, and the directory is exactly what the fates of the
   items make of it: a target changes only by putting all the bytes of its entry in place. "Complete" means that every
   wanted item was skipped as asked, is a folder, or is in place; a warning lists what was lost, each for its reason.
   */
  method ExtractAll(disk: Disk, dest: Path, all: seq<Zipped>, selected: seq<string>, rename: (Path, nat) -> Path)
    returns (r: ExtractResult, ghost fates: seq<Fate>)
    requires disk.dir.live <= disk.dir.files.Keys
    modifies disk`canceled, disk`folders, disk.dir
    ensures disk.dir.live == old(disk.dir.live) && disk.dir.faults >= old(disk.dir.faults)
    ensures Fated(Items(Wanted(all, selected)), fates, old(disk.dir.files), disk.folders, rename)
    ensures disk.dir.files == After(old(disk.dir.files), fates)
    ensures AllHonest(Wanted(all, selected), fates, disk.dir.faults > old(disk.dir.faults))
    ensures r.Done? && r.status != Canceled ==>
              && |fates| == |Wanted(all, selected)| && r == Finish(Losses(Items(Wanted(all, selected)), fates))
    ensures r.Done? && r.status == Complete ==> forall i :: 0 <= i < |fates| ==> !fates[i].Lost?
    ensures r.Done? && r.status == Canceled ==> disk.canceled
    ensures r == Failed(Password) ==>
              |fates| < |Wanted(all, selected)| && Wanted(all, selected)[|fates|].source.opening.NeedsPassword?
    ensures r.Failed? ==> r.why in {FolderFailed, HeaderCorrupt, Password}
    ensures r == Failed(FolderFailed) ==> disk.dir.faults > old(disk.dir.faults)
    ensures r == Failed(HeaderCorrupt) ==> exists i :: 0 <= i < |all| && !all[i].source.header
    ensures (exists i :: 0 <= i < |all| && !all[i].source.header) ==> r.Failed? && disk.dir.files == old(disk.dir.files)
  {
    fates := [];
    var made := disk.MakeFolder(dest);
    if !made {
      return Failed(FolderFailed), fates;
    }
    var targets := Targets(all, selected);
    if targets.None? {
      return Failed(HeaderCorrupt), fates;
    }
    var zipped := targets.value;
    ghost var items := Items(zipped);
    var missing := [];
    var lastParent: Option<Path> := None;
    for n := 0 to |zipped|
      invariant |fates| == n && Fated(items, fates, old(disk.dir.files), disk.folders, rename)
      invariant disk.dir.files == After(old(disk.dir.files), fates) && disk.dir.live == old(disk.dir.live)
      invariant disk.dir.live <= disk.dir.files.Keys && missing == Losses(items, fates)
      invariant disk.dir.faults >= old(disk.dir.faults)
      invariant AllHonest(zipped, fates, disk.dir.faults > old(disk.dir.faults))
    {
      ghost var before, faults := disk.folders, disk.dir.faults;
      var s;
      s, lastParent := ExtractOne(disk, zipped[n], lastParent, rename);
      MoreFolders(items, fates, old(disk.dir.files), before, disk.folders, rename);
      if s.Stop? {
        return s.result, fates;
      }
      OneMoreHonest(zipped, fates, s.fate, faults > old(disk.dir.faults), disk.dir.faults > faults,
                    disk.dir.faults > old(disk.dir.faults));
      OneMoreFate(items, fates, s.fate, old(disk.dir.files), disk.folders, rename);
      if s.fate.Lost? {
        missing := missing + [Missing(zipped[n].item.name, s.fate.why)];
      }
      fates := fates + [s.fate];
    }
    if missing == [] {
      NothingMissingNothingLost(items, fates);
    }
    r := Finish(missing);
  }
}
