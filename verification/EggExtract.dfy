/**
 The EGG/ALZ engine's extraction: an item that is damaged is reported and the others go on, but an unsafe path, a wrong
 password or a directory that cannot be written to ends everything.
 */
module EggExtracts {
  import opened Wrappers
  import opened CrcTables
  import opened Extractions
  import opened FlatFile
  import opened Files
  import D = Decoders
  import Z = ZipExtracts

  /** An item with its blocks. */
  type Coded = Listed<D.Item>

  /** The bytes come from the archive, every block deciphered and right for its recorded size and checksum. */
  ghost predicate Decoded(data: seq<byte>, password: Option<seq<byte>>, c: Coded, content: seq<byte>) {
    exists plains, pieces :: D.ItemIs(data, c.source, password, plains, pieces) && content == Flat(pieces)
  }

  /** The decoder refuses it for one of the reasons. */
  ghost predicate RefusedFor(data: seq<byte>, password: Option<seq<byte>>, c: Coded, whys: set<D.Error>) {
    exists why :: why in whys && D.RefusedItem(data, c.source, password, 0, why)
  }

  /** It decodes to something that is not as long as the list says. */
  ghost predicate OtherSize(data: seq<byte>, password: Option<seq<byte>>, c: Coded) {
    exists content :: Decoded(data, password, c, content) && |content| != c.item.size
  }

  /** The bytes put in place are decoded ones, and an item is lost only for the reason that is told. */
  ghost predicate Honest(data: seq<byte>, password: Option<seq<byte>>, c: Coded, fate: Fate) {
    match fate
    case Placed(_, content) => Decoded(data, password, c, content)
    case Lost(CreateDir) => c.item.isDir
    case Lost(ReadError) => !c.item.isDir && RefusedFor(data, password, c, {D.Unsupported, D.Corrupt})
    case Lost(SizeMismatch) => !c.item.isDir && OtherSize(data, password, c)
    case Lost(_) => false
    case _ => true
  }

  ghost predicate AllHonest(data: seq<byte>, password: Option<seq<byte>>, all: seq<Coded>, fates: seq<Fate>) {
    |fates| <= |all| && forall i :: 0 <= i < |fates| ==> Honest(data, password, all[i], fates[i])
  }

  /** A folder that could not be made is a fault of the disk. */
  predicate Blamed(fates: seq<Fate>, faulty: bool) {
    Lost(CreateDir) in fates ==> faulty
  }

  lemma OneMoreHonest(data: seq<byte>, password: Option<seq<byte>>, all: seq<Coded>, fates: seq<Fate>, fate: Fate)
    requires AllHonest(data, password, all, fates) && |fates| < |all| && Honest(data, password, all[|fates|], fate)
    ensures AllHonest(data, password, all, fates + [fate])
  {
    forall i | 0 <= i < |fates| + 1
      ensures Honest(data, password, all[i], (fates + [fate])[i])
    {
      if i < |fates| {
        assert Honest(data, password, all[i], fates[i]);
      }
    }
  }

  /** Why everything ends. */
  ghost predicate EndsFor(
      data: seq<byte>, password: Option<seq<byte>>, c: Coded, r: ExtractResult, canceled: bool, faulty: bool)
  {
    || (r == CANCELED && canceled)
    || (r == Failed(Io) && faulty)
    || (r == Failed(Unsafe) && c.item.target.None?)
    || (r == Failed(Password) && !c.item.isDir
        && RefusedFor(data, password, c, {D.PasswordRequired, D.WrongPassword}))
  }

  /** Decode an item into a staged file: how many bytes, or why not. */
  method DecodeInto(
      disk: Disk, data: seq<byte>, c: Coded, password: Option<seq<byte>>, table: seq<bv32>, tmp: Path)
    returns (r: Result<nat, D.Error>)
    requires IsTable(table) && tmp in disk.dir.files && disk.dir.files[tmp] == []
    modifies disk.dir`files, disk.dir`faults
    ensures tmp in disk.dir.files && disk.dir.files - {tmp} == old(disk.dir.files) - {tmp}
    ensures disk.dir.faults >= old(disk.dir.faults)
    ensures r.Ok? ==> |disk.dir.files[tmp]| == r.value && Decoded(data, password, c, disk.dir.files[tmp])
    ensures r.Err? ==> if r.error == D.IoError then disk.dir.faults > old(disk.dir.faults)
                       else D.RefusedItem(data, c.source, password, 0, r.error)
  {
    var sink := new D.Sink();
    ghost var plains, pieces;
    r, plains, pieces := D.ReadItemTo(data, c.source, password, 0, sink, table);
    if r.Err? {
      if r.error == D.IoError {
        disk.dir.faults := disk.dir.faults + 1;
      }
      return;
    }
    assert [] + Flat(pieces) == Flat(pieces);
    if sink.bytes != [] {
      var ok := disk.Append(tmp, sink.bytes);
      if !ok {
        return Err(D.IoError);
      }
      assert [] + sink.bytes == sink.bytes;
    }
    if * {
      disk.dir.faults := disk.dir.faults + 1;
      return Err(D.IoError);
    }
  }

  /** Stage a file, decode into it, and give it its name if it is as long as the list says. */
  method StageAndCommit(
      disk: Disk, data: seq<byte>, c: Coded, password: Option<seq<byte>>, table: seq<bv32>, path: Path)
    returns (s: Z.Step)
    requires IsTable(table) && disk.dir.live <= disk.dir.files.Keys && !c.item.isDir
    modifies disk`canceled, disk.dir
    ensures disk.dir.live == old(disk.dir.live) && disk.dir.faults >= old(disk.dir.faults)
    ensures s.Went? ==> s.fate.Lost? || (s.fate.Placed? && s.fate.path == path && |s.fate.content| == c.item.size)
    ensures s.Went? ==> Honest(data, password, c, s.fate)
    ensures s.Went? && s.fate == Lost(CreateDir) ==> disk.dir.faults > old(disk.dir.faults)
    ensures disk.dir.files
            == if s.Went? && s.fate.Placed? then old(disk.dir.files)[path := s.fate.content] else old(disk.dir.files)
    ensures s.Stop? ==> EndsFor(data, password, c, s.result, disk.canceled, disk.dir.faults > old(disk.dir.faults))
  {
    ghost var files := disk.dir.files;
    var staged := disk.dir.OpenNewTmp(path);
    if staged.None? {
      return Z.Stop(Failed(Io));
    }
    var tmp := staged.value;
    assert files[tmp := []] - {tmp} == files;
    var read := DecodeInto(disk, data, c, password, table, tmp);
    match read
    case Ok(wrote) =>
      if wrote != c.item.size {
        disk.dir.Discard(tmp);
        return Z.Went(Lost(SizeMismatch));
      }
      var ok := disk.CommitStaged(tmp, path);
      s := if ok then Z.Went(Placed(path, disk.dir.files[path])) else Z.Stop(Failed(Io));
    case Err(why) =>
      disk.dir.Discard(tmp);
      var canceled := disk.LookCanceled();
      s := if canceled then Z.Stop(CANCELED)
           else if why == D.PasswordRequired || why == D.WrongPassword then Z.Stop(Failed(Password))
           else if why == D.Unsupported || why == D.Corrupt then Z.Went(Lost(ReadError))
           else Z.Stop(Failed(Io));
  }

  /** Extract one item. */
  method ExtractOne(
      disk: Disk, data: seq<byte>, c: Coded, password: Option<seq<byte>>, table: seq<bv32>, rename: (Path, nat) -> Path)
    returns (s: Z.Step)
    requires IsTable(table) && disk.dir.live <= disk.dir.files.Keys
    modifies disk`canceled, disk`folders, disk.dir
    ensures disk.dir.live == old(disk.dir.live) && old(disk.folders) <= disk.folders && disk.dir.faults >= old(disk.dir.faults)
    ensures s.Went? && !s.fate.Lost? ==> Settled(c.item, s.fate, old(disk.dir.files), disk.folders, rename)
    ensures s.Went? ==> Honest(data, password, c, s.fate)
    ensures s.Went? && s.fate == Lost(CreateDir) ==> disk.dir.faults > old(disk.dir.faults)
    ensures disk.dir.files
            == if s.Went? && s.fate.Placed? then old(disk.dir.files)[s.fate.path := s.fate.content] else old(disk.dir.files)
    ensures s.Stop? ==> EndsFor(data, password, c, s.result, disk.canceled, disk.dir.faults > old(disk.dir.faults))
    ensures c.item.target.None? && !disk.canceled ==> s == Z.Stop(Failed(Unsafe))
  {
    var canceled := disk.LookCanceled();
    if canceled {
      return Z.Stop(CANCELED);
    }
    if c.item.target.None? {
      return Z.Stop(Failed(Unsafe));
    }
    if c.item.isDir {
      var made := disk.MakeFolder(c.item.target.value);
      return Z.Went(if made then Folder else Lost(CreateDir));
    }
    var path := Z.Place(disk, c.item, rename);
    if path.None? {
      return Z.Went(Skipped);
    }
    var ignored := disk.MakeFolder(c.item.parent);
    s := StageAndCommit(disk, data, c, password, table, path.value);
  }

  /**
   Extract the wanted items: as in the ZIP engine, except that some faults end everything, and every file in place holds
   what decoding its blocks gave, with every recorded checksum verified.
   */
  method ExtractAll(
      disk: Disk, dest: Path, data: seq<byte>, all: seq<Coded>, selected: seq<string>, password: Option<seq<byte>>,
      table: seq<bv32>, rename: (Path, nat) -> Path)
    returns (r: ExtractResult, ghost fates: seq<Fate>)
    requires IsTable(table) && disk.dir.live <= disk.dir.files.Keys
    modifies disk`canceled, disk`folders, disk.dir
    ensures disk.dir.live == old(disk.dir.live) && disk.dir.faults >= old(disk.dir.faults)
    ensures Fated(Items(Wanted(all, selected)), fates, old(disk.dir.files), disk.folders, rename)
    ensures disk.dir.files == After(old(disk.dir.files), fates)
    ensures AllHonest(data, password, Wanted(all, selected), fates)
    ensures Blamed(fates, disk.dir.faults > old(disk.dir.faults))
    ensures r.Done? && r.status != Canceled ==>
              && |fates| == |Wanted(all, selected)| && r == Finish(Losses(Items(Wanted(all, selected)), fates))
    ensures r.Done? && r.status == Complete ==> forall i :: 0 <= i < |fates| ==> !fates[i].Lost?
    ensures r == Failed(FolderFailed) ==> disk.dir.faults > old(disk.dir.faults)
    ensures (r.Done? && r.status == Canceled) || (r.Failed? && r != Failed(FolderFailed)) ==>
              && |fates| < |Wanted(all, selected)|
              && EndsFor(data, password, Wanted(all, selected)[|fates|], r, disk.canceled,
                         disk.dir.faults > old(disk.dir.faults))
  {
    fates := [];
    var made := disk.MakeFolder(dest);
    if !made {
      return Failed(FolderFailed), fates;
    }
    var coded := Wanted(all, selected);
    ghost var items := Items(coded);
    var missing := [];
    for n := 0 to |coded|
      invariant |fates| == n && Fated(items, fates, old(disk.dir.files), disk.folders, rename)
      invariant disk.dir.files == After(old(disk.dir.files), fates) && disk.dir.live == old(disk.dir.live)
      invariant disk.dir.live <= disk.dir.files.Keys && missing == Losses(items, fates)
      invariant disk.dir.faults >= old(disk.dir.faults)
      invariant AllHonest(data, password, coded, fates) && Blamed(fates, disk.dir.faults > old(disk.dir.faults))
    {
      ghost var before := disk.folders;
      var s := ExtractOne(disk, data, coded[n], password, table, rename);
      MoreFolders(items, fates, old(disk.dir.files), before, disk.folders, rename);
      if s.Stop? {
        return s.result, fates;
      }
      OneMoreHonest(data, password, coded, fates, s.fate);
      OneMoreFate(items, fates, s.fate, old(disk.dir.files), disk.folders, rename);
      if s.fate.Lost? {
        missing := missing + [Missing(coded[n].item.name, s.fate.why)];
      }
      fates := fates + [s.fate];
    }
    if missing == [] {
      NothingMissingNothingLost(items, fates);
    }
    r := Finish(missing);
  }
}
