/**
 Extraction into a directory, one staged file for each item: what the ZIP and the EGG engine have in common. What
 becomes of each item is its fate; the fates tell exactly what changed in the directory.
 */
module Extractions {
  import opened Wrappers
  import opened FlatFile
  import opened Files

  const MISSING_CAP := 50

  datatype OverwriteMode = Overwrite | Skip | Rename

  datatype Reason = UnsafePath | CreateDir | CreateFile | ReadError | WriteError | SizeMismatch | CommitError

  datatype Missing = Missing(path: string, reason: Reason)

  datatype Status = Complete | Warning | Canceled

  datatype Failure = FolderFailed | HeaderCorrupt | Password | Unsafe | Io

  datatype ExtractResult = Done(status: Status, missing: seq<Missing>, missingTotal: nat) | Failed(why: Failure)

  /** Nothing missing is "ok", anything missing is a warning; the list is cut, its length is not. */
  function Finish(missing: seq<Missing>): (r: ExtractResult)
    ensures r.Done? && (r.status == Complete <==> missing == []) && (r.status == Warning <==> missing != [])
    ensures r.missingTotal == |missing| && r.missing <= missing && |r.missing| <= MISSING_CAP
  {
    Done(if missing == [] then Complete else Warning, if |missing| <= MISSING_CAP then missing else missing[..MISSING_CAP],
         |missing|)
  }

  const CANCELED := Done(Canceled, [], 0)

  /**
   An item as the engines see it once its path has been made safe: `target` is where it goes (none if that is not
   safe), `parent` the folder that needs to be there, `mode` what to do with a file that is there already.
   */
  datatype Item = Item(
    name: string, isDir: bool, size: nat, target: Option<Path>, parent: Path, mode: OverwriteMode)

  function Slashed(s: string): string {
    seq(|s|, i requires 0 <= i < |s| => if s[i] == '\\' then '/' else s[i])
  }

  /** An item is wanted if nothing was selected, or it is, or it is inside a folder that is. */
  predicate InScope(name: string, selected: seq<string>) {
    selected == [] ||
    exists i :: 0 <= i < |selected| && (name == Slashed(selected[i]) || Slashed(selected[i]) + "/" <= name)
  }

  /** An item and what an engine makes it from. */
  datatype Listed<T> = Listed(item: Item, source: T)

  function Items<T>(all: seq<Listed<T>>): (r: seq<Item>)
    ensures |r| == |all|
  {
    seq(|all|, i requires 0 <= i < |all| => all[i].item)
  }

  /** Those that are wanted, in order. */
  function Wanted<T>(all: seq<Listed<T>>, selected: seq<string>): seq<Listed<T>> {
    if all == [] then []
    else
      Wanted(all[..|all| - 1], selected)
      + if InScope(all[|all| - 1].item.name, selected) then [all[|all| - 1]] else []
  }

  /** What became of an item. */
  datatype Fate = Skipped | Folder | Placed(path: Path, content: seq<byte>) | Lost(why: Reason)

  /** The files after some items. */
  function After(files: map<Path, seq<byte>>, fates: seq<Fate>): map<Path, seq<byte>> {
    if fates == [] then files
    else
      var before, last := After(files, fates[..|fates| - 1]), fates[|fates| - 1];
      if last.Placed? then before[last.path := last.content] else before
  }

  /** Something has that path, a file or a folder. */
  predicate Taken(p: Path, files: map<Path, seq<byte>>, folders: set<Path>) {
    p in files || p in folders
  }

  /** A fate that may pass for success: skipped as asked, a folder that is there now, or all bytes in place. */
  predicate Settled(
      item: Item, fate: Fate, before: map<Path, seq<byte>>, folders: set<Path>, rename: (Path, nat) -> Path)
  {
    item.target.Some? &&
    match fate
    case Skipped => !item.isDir && item.mode == Skip && Taken(item.target.value, before, folders)
    case Folder => item.isDir && item.target.value in folders
    case Placed(path, content) =>
      && !item.isDir && |content| == item.size
      && (path == item.target.value
          || (item.mode == Rename && Taken(item.target.value, before, folders)
              && IsFree(path, item.target.value, before, rename)))
      && (path in before ==>
            item.mode == Overwrite || (item.mode == Rename && NoneFree(item.target.value, before, folders, rename)))
    case Lost(_) => false
  }

  const MOST_NAMES := 10_000

  /** A numbered name for `target` that no file has yet. */
  predicate IsFree(path: Path, target: Path, files: map<Path, seq<byte>>, rename: (Path, nat) -> Path) {
    path !in files && exists n: nat :: 2 <= n < MOST_NAMES && path == rename(target, n)
  }

  /** Every numbered name is taken. */
  predicate NoneFree(
      target: Path, files: map<Path, seq<byte>>, folders: set<Path>, rename: (Path, nat) -> Path)
  {
    forall n: nat :: 2 <= n < MOST_NAMES ==> Taken(rename(target, n), files, folders)
  }

  /** Each of the first items has a fate: settled or lost. */
  ghost predicate Fated(
      items: seq<Item>, fates: seq<Fate>, files: map<Path, seq<byte>>, folders: set<Path>, rename: (Path, nat) -> Path)
  {
    && |fates| <= |items|
    && forall i :: 0 <= i < |fates| ==>
         fates[i].Lost? || Settled(items[i], fates[i], After(files, fates[..i]), folders, rename)
  }

  /** The items that were lost are the ones reported missing, in order. */
  function Losses(items: seq<Item>, fates: seq<Fate>): seq<Missing>
    requires |fates| <= |items|
  {
    if fates == [] then []
    else
      var n := |fates| - 1;
      Losses(items, fates[..n]) + if fates[n].Lost? then [Missing(items[n].name, fates[n].why)] else []
  }

  lemma {:induction false} NothingMissingNothingLost(items: seq<Item>, fates: seq<Fate>)
    requires |fates| <= |items| && Losses(items, fates) == []
    ensures forall i :: 0 <= i < |fates| ==> !fates[i].Lost?
    decreases |fates|
  {
    if fates != [] {
      var n := |fates| - 1;
      NothingMissingNothingLost(items, fates[..n]);
      assert forall i :: 0 <= i < n ==> fates[..n][i] == fates[i];
    }
  }

  lemma {:induction false} NothingLostNothingMissing(items: seq<Item>, fates: seq<Fate>)
    requires |fates| <= |items| && forall i :: 0 <= i < |fates| ==> !fates[i].Lost?
    ensures Losses(items, fates) == []
    decreases |fates|
  {
    if fates != [] {
      var n := |fates| - 1;
      assert forall i :: 0 <= i < n ==> fates[..n][i] == fates[i];
      NothingLostNothingMissing(items, fates[..n]);
    }
  }

  /** Some more folders do not hurt what is settled. */
  lemma MoreFolders(
      items: seq<Item>, fates: seq<Fate>, files: map<Path, seq<byte>>, a: set<Path>, b: set<Path>,
      rename: (Path, nat) -> Path)
    requires Fated(items, fates, files, a, rename) && a <= b
    ensures Fated(items, fates, files, b, rename)
  {
    forall i | 0 <= i < |fates| && !fates[i].Lost?
      ensures Settled(items[i], fates[i], After(files, fates[..i]), b, rename)
    {
      assert Settled(items[i], fates[i], After(files, fates[..i]), a, rename);
    }
  }

  lemma OneMoreFate(
      items: seq<Item>, fates: seq<Fate>, fate: Fate, files: map<Path, seq<byte>>, folders: set<Path>,
      rename: (Path, nat) -> Path)
    requires Fated(items, fates, files, folders, rename) && |fates| < |items|
    requires fate.Lost? || Settled(items[|fates|], fate, After(files, fates), folders, rename)
    ensures Fated(items, fates + [fate], files, folders, rename)
    ensures After(files, fates + [fate])
            == if fate.Placed? then After(files, fates)[fate.path := fate.content] else After(files, fates)
    ensures Losses(items, fates + [fate])
            == Losses(items, fates) + if fate.Lost? then [Missing(items[|fates|].name, fate.why)] else []
  {
    var all := fates + [fate];
    assert all[..|fates|] == fates;
    forall i | 0 <= i < |fates|
      ensures all[i].Lost? || Settled(items[i], all[i], After(files, all[..i]), folders, rename)
    {
      assert all[..i] == fates[..i];
    }
  }

  /** The folders that a path leads through. */
  function Above(p: Path): set<Path> {
    set i | 0 < i < |p| && p[i] in {'/', '\\'} :: p[..i]
  }

  /** A directory of files with the folders around them, and whether the user gave up. */
  class Disk {
    const dir: Directory
    var folders: set<Path>
    var canceled: bool

    constructor (dir: Directory, folders: set<Path>)
      ensures this.dir == dir && this.folders == folders && !canceled
    {
      this.dir, this.folders, this.canceled := dir, folders, false;
    }

    method Exists(p: Path) returns (b: bool)
      ensures b <==> Taken(p, dir.files, folders)
    {
      b := p in dir.files || p in folders;
    }

    /** Make a folder and those above it, unless a file is there; a failure may leave some of them. */
    method MakeFolder(p: Path) returns (ok: bool)
      modifies this`folders, dir`faults
      ensures old(folders) <= folders <= old(folders) + (Above(p) + {p} - dir.files.Keys)
      ensures ok ==> folders == old(folders) + Above(p) + {p} && dir.files.Keys !! Above(p) + {p}
      ensures dir.faults == old(dir.faults) + if ok then 0 else 1
    {
      ok := *;
      if !ok || !(dir.files.Keys !! Above(p) + {p}) {
        var made :| made <= Above(p) + {p} - dir.files.Keys;
        folders := folders + made;
        dir.faults := dir.faults + 1;
        return false;
      }
      folders := folders + Above(p) + {p};
    }

    /** Look whether the user gave up; that is never taken back. */
    method LookCanceled() returns (b: bool)
      modifies this`canceled
      ensures b == canceled && (old(canceled) ==> canceled)
    {
      if * {
        canceled := true;
      }
      b := canceled;
    }

    /** Write at the end of a staged file. */
    method Append(tmp: Path, d: seq<byte>) returns (ok: bool)
      requires tmp in dir.files && d != []
      modifies dir`files, dir`faults
      ensures tmp in dir.files && dir.files - {tmp} == old(dir.files) - {tmp}
      ensures ok ==> dir.files[tmp] == old(dir.files[tmp]) + d
      ensures dir.faults == old(dir.faults) + if ok then 0 else 1
    {
      var k;
      ok, k := dir.WriteAt(tmp, |dir.files[tmp]|, d);
      assert d[..|d|] == d;
    }

    /** Give a staged file its name, unless a folder has it. A failure drops it, and the target keeps what it had. */
    method CommitStaged(tmp: Path, target: Path) returns (ok: bool)
      requires tmp in dir.files
      modifies dir
      ensures dir.live == old(dir.live) - {tmp}
      ensures dir.files == if ok then (old(dir.files) - {tmp})[target := old(dir.files)[tmp]] else old(dir.files) - {tmp}
      ensures ok ==> target !in folders
      ensures dir.faults == old(dir.faults) + if ok then 0 else 1
    {
      if target in folders {
        dir.Discard(tmp);
        dir.faults := dir.faults + 1;
        return false;
      }
      ok := dir.Rename(tmp, target);
      if ok {
        dir.Forget(tmp);
      } else {
        dir.Discard(tmp);
      }
    }

    /** A name that does not replace anything, as long as one is free. */
    method UniquePath(target: Path, rename: (Path, nat) -> Path) returns (p: Path)
      ensures if Taken(target, dir.files, folders)
              then (IsFree(p, target, dir.files, rename) && p !in folders)
                   || (p == target && NoneFree(target, dir.files, folders, rename))
              else p == target
    {
      var there := Exists(target);
      if !there {
        return target;
      }
      for n := 2 to MOST_NAMES
        invariant forall k: nat :: 2 <= k < n ==> Taken(rename(target, k), dir.files, folders)
      {
        var candidate := rename(target, n);
        there := Exists(candidate);
        if !there {
          return candidate;
        }
      }
      p := target;
    }
  }
}
