/** The folder rows and the folder tree show the same folders: exactly when, and for which archives everywhere. */
module FolderAgreement {
  import opened Wrappers
  import opened PathTexts
  import opened FolderTrees
  import opened FolderViews

  /** A file whose path ends with a slash. */
  predicate EndsInSlash(e: Entry) {
    e.path != [] && e.path[|e.path| - 1] == SLASH && !e.isDir
  }

  /** An entry that makes `f` a folder: it is one, or something is in it. A slash behind a file is nothing in it. */
  predicate Makes(e: Entry, f: Text) {
    (f + [SLASH] <= e.path && (e.isDir || e.path != f + [SLASH])) || (e.isDir && e.path == f)
  }

  lemma FoldersAreMade(e: Entry, f: Text)
    requires NoEmptyPart(e.path) && f in FoldersOf(e)
    ensures Makes(e, f)
  {
    var ns := Names(e.path);
    NamesMakeThePath(e.path);
    var i :| 0 < i <= Upto(e) && i <= |ns| && f == Join(ns[..i]);
    if i < |ns| {
      OnTheWay(ns, i);
      assert f + [SLASH] <= e.path;
      NotTheWhole(ns, i);
    } else {
      assert ns[..i] == ns;
    }
  }

  /** A path on the way with its slash is not the whole. */
  lemma NotTheWhole(ns: seq<Text>, i: nat)
    requires GoodNames(ns) && 0 < i < |ns|
    ensures Join(ns[..i]) + [SLASH] != Join(ns)
  {
    JoinIsProper(ns);
  }

  lemma AllNames(e: Entry)
    requires e.isDir && Names(e.path) != []
    ensures Join(Names(e.path)) in FoldersOf(e)
  {
    var ns := Names(e.path);
    assert Join(ns[..|ns|]) in Ways(ns, Upto(e));
    assert ns[..|ns|] == ns;
  }

  lemma InsideIsFolder(e: Entry, f: Text)
    requires NoEmptyPart(e.path) && f != [] && f + [SLASH] <= e.path && (e.isDir || e.path != f + [SLASH])
    ensures f in FoldersOf(e)
  {
    var ns, path := Names(e.path), e.path;
    NamesMakeThePath(path);
    assert path[|f|] == (f + [SLASH])[|f|] == SLASH && path[..|f|] == f;
    if |f| < |Join(ns)| {
      var i := EverySlash(ns, |f|);
      assert Join(ns)[..|f|] == path[..|f|];
      assert Join(ns[..i]) in Ways(ns, Upto(e));
    } else {
      assert path[..|f|] == Join(ns);
      AllNames(e);
    }
  }

  lemma FoldersByMaking(e: Entry, f: Text)
    requires NoEmptyPart(e.path) && f != [] && f[|f| - 1] != SLASH
    ensures f in FoldersOf(e) <==> Makes(e, f)
  {
    if f in FoldersOf(e) {
      FoldersAreMade(e, f);
    }
    if f + [SLASH] <= e.path && (e.isDir || e.path != f + [SLASH]) {
      InsideIsFolder(e, f);
    } else if e.isDir && e.path == f {
      NamesMakeThePath(f);
      AllNames(e);
    }
  }

  lemma UpToTheSlash(prefix: Text, rel: Text)
    requires IndexOf(rel) != -1
    ensures prefix + rel[..IndexOf(rel)] + [SLASH] <= prefix + rel
  {
    var slash := IndexOf(rel);
    assert rel == rel[..slash] + [SLASH] + rel[slash + 1..];
    assert prefix + rel == prefix + rel[..slash] + [SLASH] + rel[slash + 1..];
  }

  /** An entry shows up under a name if it is there itself or below. */
  lemma KeyMeans(e: Entry, prefix: Text, key: Text)
    requires key != [] && SlashFree(key)
    ensures Key(e, prefix) == Some(key) <==> Direct(e, prefix, key) || prefix + key + [SLASH] <= e.path
  {
    DirectHasKey(e, prefix, key);
    var path := e.path;
    if prefix + key + [SLASH] <= path {
      var rest := path[|prefix + key| + 1..];
      assert path == prefix + (key + [SLASH] + rest);
      FirstIndexIs(key, rest);
      assert path[|prefix|..] == key + [SLASH] + rest;
      assert (key + [SLASH] + rest)[..|key|] == key;
    } else if Rel(e, prefix).Some? {
      var rel := Rel(e, prefix).value;
      if IndexOf(rel) != -1 {
        UpToTheSlash(prefix, rel);
        assert path == prefix + rel;
      }
    }
  }

  /** No name is empty. */
  lemma KeysArePlain(e: Entry, prefix: Text, key: Text)
    requires Key(e, prefix) == Some(key) && NoEmptyPart(e.path)
    requires prefix == [] || prefix[|prefix| - 1] == SLASH
    ensures key != [] && SlashFree(key)
  {
    var rel := e.path[|prefix|..];
    assert rel[0] == e.path[|prefix|];
    assert rel[0] != SLASH;
  }

  /** The last entry with that path is a file. */
  predicate ListedAsFile(all: seq<Entry>, f: Text) {
    exists i :: 0 <= i < |all| && all[i].path == f && !all[i].isDir && forall j :: i < j < |all| ==> all[j].path != f
  }

  lemma {:induction false} RowIsFile(all: seq<Entry>, prefix: Text, key: Text)
    requires key != [] && SlashFree(key)
    ensures !RowOf(all, prefix, key).isDir <==> ListedAsFile(all, prefix + key)
    ensures RowOf(all, prefix, key).path == prefix + key
    ensures (exists i :: 0 <= i < |all| && Direct(all[i], prefix, key)) && RowOf(all, prefix, key).isDir ==>
              exists i :: 0 <= i < |all| && all[i].path == prefix + key && all[i].isDir
  {
    if all != [] {
      var init, last := all[..|all| - 1], all[|all| - 1];
      RowIsFile(init, prefix, key);
      assert forall i :: 0 <= i < |init| ==> init[i] == all[i];
      assert all[|init|] == last;
    }
  }

  /** The paths of the folder rows, and those of the children in the tree. */
  function ShownFolders(all: seq<Entry>, p: Text): set<Text> {
    var rows := Rows(all, Prefix(p));
    set i | 0 <= i < |rows| && rows[i].isDir :: rows[i].path
  }

  function TreeFolders(all: seq<Entry>, p: Text): set<Text> {
    set f | f in Folders(all) && Parent(f) == p
  }

  /** Such a path has a name. */
  predicate Named(f: Text) {
    f != [] && f[|f| - 1] != SLASH
  }

  /** Some entry makes it a folder. */
  predicate Made(all: seq<Entry>, f: Text) {
    exists i :: 0 <= i < |all| && Makes(all[i], f)
  }

  /** Some file has that path with a slash behind it. */
  predicate Slashed(all: seq<Entry>, f: Text) {
    exists i :: 0 <= i < |all| && !all[i].isDir && all[i].path == f + [SLASH]
  }

  /** The folders of the tree are those that are made. */
  lemma FolderByEntries(all: seq<Entry>, f: Text)
    requires f != [] && f[|f| - 1] != SLASH && forall e :: e in all ==> NoEmptyPart(e.path)
    ensures f in Folders(all) <==> Made(all, f)
  {
    FoldersComeFromEntries(all, f);
    forall i | 0 <= i < |all|
      ensures f in FoldersOf(all[i]) <==> Makes(all[i], f)
    {
      FoldersByMaking(all[i], f);
    }
  }

  /** Name by name: what is made or slashed is a folder row, unless it is listed as a file. */
  lemma NameAgrees(all: seq<Entry>, prefix: Text, key: Text)
    requires key != [] && SlashFree(key)
    ensures key in Keys(all, prefix) && RowOf(all, prefix, key).isDir
            <==> (Made(all, prefix + key) || Slashed(all, prefix + key)) && !ListedAsFile(all, prefix + key)
  {
    var f := prefix + key;
    RowIsFile(all, prefix, key);
    KeysAreDistinct(all, prefix);
    forall i | 0 <= i < |all|
      ensures Key(all[i], prefix) == Some(key) <==> Direct(all[i], prefix, key) || f + [SLASH] <= all[i].path
    {
      KeyMeans(all[i], prefix, key);
    }
    if key in Keys(all, prefix) && RowOf(all, prefix, key).isDir {
      var i :| 0 <= i < |all| && Key(all[i], prefix) == Some(key);
      if Direct(all[i], prefix, key) {
        var j :| 0 <= j < |all| && all[j].path == f && all[j].isDir;
        assert Makes(all[j], f);
      } else {
        assert Makes(all[i], f) || (!all[i].isDir && all[i].path == f + [SLASH]);
      }
    } else if Made(all, f) || Slashed(all, f) {
      var i :| 0 <= i < |all| && (Makes(all[i], f) || (!all[i].isDir && all[i].path == f + [SLASH]));
      assert Direct(all[i], prefix, key) || f + [SLASH] <= all[i].path;
    }
  }

  /** A folder row comes from its name. */
  lemma ShownByName(all: seq<Entry>, p: Text, f: Text) returns (key: Text)
    requires f in ShownFolders(all, p) && forall e :: e in all ==> NoEmptyPart(e.path)
    ensures key != [] && SlashFree(key) && f == Prefix(p) + key
    ensures key in Keys(all, Prefix(p)) && RowOf(all, Prefix(p), key).isDir
  {
    var prefix := Prefix(p);
    var i :| 0 <= i < |Rows(all, prefix)| && Rows(all, prefix)[i].isDir && Rows(all, prefix)[i].path == f;
    key := Keys(all, prefix)[i];
    KeysAreDistinct(all, prefix);
    var j :| 0 <= j < |all| && Key(all[j], prefix) == Some(key);
    KeysArePlain(all[j], prefix, key);
    RowIsFile(all, prefix, key);
  }

  lemma NameIsShown(all: seq<Entry>, p: Text, key: Text)
    requires key != [] && SlashFree(key)
    requires key in Keys(all, Prefix(p)) && RowOf(all, Prefix(p), key).isDir
    ensures Prefix(p) + key in ShownFolders(all, p)
  {
    var prefix := Prefix(p);
    RowIsFile(all, prefix, key);
    var i :| 0 <= i < |Keys(all, prefix)| && Keys(all, prefix)[i] == key;
    assert Rows(all, prefix)[i].path == prefix + key;
  }

  lemma NameTakenOff(f: Text)
    requires Named(f) && f[0] != SLASH
    ensures f == Prefix(Parent(f)) + NameOf(f) && NameOf(f) != [] && SlashFree(NameOf(f))
  {
    var at := LastIndexOf(f);
    assert at > 0 ==> f == f[..at] + [SLASH] + f[at + 1..];
  }

  /** What is made or slashed is in front of a path. */
  lemma MadeInFront(all: seq<Entry>, f: Text)
    requires (forall e :: e in all ==> NoEmptyPart(e.path)) && Named(f) && (Made(all, f) || Slashed(all, f))
    ensures f == Prefix(Parent(f)) + NameOf(f) && NameOf(f) != [] && SlashFree(NameOf(f))
  {
    var i :| 0 <= i < |all| && (Makes(all[i], f) || (!all[i].isDir && all[i].path == f + [SLASH]));
    assert NoEmptyPart(all[i].path) && f <= all[i].path;
    assert f[0] == all[i].path[0];
    NameTakenOff(f);
  }

  /** The folder rows: what is made or slashed right below `p`, unless it is listed as a file. */
  lemma ShownMeans(all: seq<Entry>, p: Text, f: Text)
    requires forall e :: e in all ==> NoEmptyPart(e.path)
    ensures f in ShownFolders(all, p)
            <==> Named(f) && Parent(f) == p && (Made(all, f) || Slashed(all, f)) && !ListedAsFile(all, f)
  {
    var prefix := Prefix(p);
    if f in ShownFolders(all, p) {
      var key := ShownByName(all, p, f);
      NameAgrees(all, prefix, key);
      LongerTakenApart(p, key);
      assert f == Longer(p, key);
    }
    if Named(f) && Parent(f) == p && (Made(all, f) || Slashed(all, f)) && !ListedAsFile(all, f) {
      MadeInFront(all, f);
      NameAgrees(all, prefix, NameOf(f));
      NameIsShown(all, p, NameOf(f));
    }
  }

  /** The tree: what is made right below `p`. */
  lemma TreeMeans(all: seq<Entry>, p: Text, f: Text)
    requires forall e :: e in all ==> NoEmptyPart(e.path)
    ensures f in TreeFolders(all, p) <==> Named(f) && Parent(f) == p && Made(all, f)
  {
    if f in Folders(all) {
      FoldersComeFromEntries(all, f);
      var i :| 0 <= i < |all| && f in FoldersOf(all[i]);
      FolderOfEntry(all[i], f);
    }
    if Named(f) {
      FolderByEntries(all, f);
    }
  }

  /** An empty part makes an entry show up without a name. */
  lemma EmptyPartHasEmptyKey(e: Entry) returns (p: Text)
    requires !NoEmptyPart(e.path)
    ensures Key(e, Prefix(p)) == Some([])
  {
    var path := e.path;
    var at := 0;
    if path[0] == SLASH {
      p := [];
    } else {
      at :| 0 < at < |path| && path[at] == SLASH && path[at - 1] == SLASH;
      p := path[..at - 1];
    }
    assert Prefix(p) == path[..at];
    assert path[at..][0] == SLASH;
  }

  /** And so shows a folder without a name, which the tree does not have. */
  lemma EmptyPartDisagrees(all: seq<Entry>, e: Entry) returns (p: Text)
    requires e in all && !NoEmptyPart(e.path)
    ensures ShownFolders(all, p) != TreeFolders(all, p)
  {
    p := EmptyPartHasEmptyKey(e);
    var prefix := Prefix(p);
    KeysAreDistinct(all, prefix);
    var i :| 0 <= i < |all| && all[i] == e;
    assert Key(all[i], prefix) == Some([]);
    var k :| 0 <= k < |Keys(all, prefix)| && Keys(all, prefix)[k] == [];
    NamelessIsDerived(all, prefix);
    assert prefix + [] == prefix;
    assert Rows(all, prefix)[k].path == prefix;
    assert prefix in ShownFolders(all, p);
    assert prefix !in Folders(all) by {
      FoldersComeFromEntries(all, prefix);
      if j :| 0 <= j < |all| && prefix in FoldersOf(all[j]) {
        FolderOfEntry(all[j], prefix);
      }
    }
  }

  lemma {:induction false} NamelessIsDerived(all: seq<Entry>, prefix: Text)
    ensures RowOf(all, prefix, []) == DerivedRow(prefix, [])
  {
    if all != [] {
      NamelessIsDerived(all[..|all| - 1], prefix);
    }
  }

  lemma OneRow(e: Entry, name: Text)
    requires name != [] && SlashFree(name) && e.path == name + [SLASH]
    ensures Rows([e], []) == [DerivedRow([], name)]
  {
    KeyMeans(e, [], name);
    assert [] + name + [SLASH] == e.path;
    assert [e][..0] == [];
    assert Keys([e], []) == [name];
    assert RowOf([e], [], name) == DerivedRow([], name);
  }

  lemma OneName(e: Entry, name: Text)
    requires name != [] && SlashFree(name) && e.path == name + [SLASH] && !e.isDir
    ensures Folders([e]) == {}
  {
    assert e.path == name + [SLASH] + [];
    NamesOfMore(name, []);
    NamesOfOne([]);
    assert Upto(e) == 0;
    assert [e][..0] == [];
  }

  /** With a slash behind the path of a file they may differ: the row is a folder, the tree has none. */
  lemma SlashBehindAFile(e: Entry, name: Text)
    requires name != [] && SlashFree(name) && e.path == name + [SLASH] && !e.isDir
    ensures EndsInSlash(e) && ShownFolders([e], []) == {name} && TreeFolders([e], []) == {}
  {
    OneRow(e, name);
    OneName(e, name);
    assert Rows([e], Prefix([]))[0].path == name;
  }

  /** No path is listed as a file and made a folder at once. */
  predicate NoneShadowed(all: seq<Entry>) {
    forall e :: e in all && Named(e.path) ==> !(ListedAsFile(all, e.path) && Made(all, e.path))
  }

  /** Without the slash, the path of every file that has one behind it is listed as a file or made a folder anyway. */
  predicate SlashesCovered(all: seq<Entry>) {
    forall e :: e in all && EndsInSlash(e) ==>
      var f := e.path[..|e.path| - 1]; ListedAsFile(all, f) || Made(all, f)
  }

  lemma SlashTakenOff(all: seq<Entry>, f: Text)
    requires forall e :: e in all ==> NoEmptyPart(e.path)
    ensures Slashed(all, f) ==> exists e :: e in all && EndsInSlash(e) && e.path[..|e.path| - 1] == f
    ensures (exists e :: e in all && EndsInSlash(e) && e.path[..|e.path| - 1] == f) ==> Slashed(all, f) && Named(f)
  {
    if i :| 0 <= i < |all| && !all[i].isDir && all[i].path == f + [SLASH] {
      assert all[i] in all && EndsInSlash(all[i]) && all[i].path[..|all[i].path| - 1] == f;
    }
    if e :| e in all && EndsInSlash(e) && e.path[..|e.path| - 1] == f {
      var i :| 0 <= i < |all| && all[i] == e;
      assert e.path == f + [SLASH];
      assert NoEmptyPart(e.path) && e.path[|f|] == SLASH;
    }
  }

  /** Neither view misses a folder of the other. */
  ghost predicate SameFolders(all: seq<Entry>) {
    forall f :: Named(f) ==> (Made(all, f) <==> (Made(all, f) || Slashed(all, f)) && !ListedAsFile(all, f))
  }

  lemma SameFoldersByEntries(all: seq<Entry>)
    requires forall e :: e in all ==> NoEmptyPart(e.path)
    ensures SameFolders(all) <==> NoneShadowed(all) && SlashesCovered(all)
  {
    if SameFolders(all) {
      forall e | e in all && EndsInSlash(e)
        ensures var f := e.path[..|e.path| - 1]; ListedAsFile(all, f) || Made(all, f)
      {
        SlashTakenOff(all, e.path[..|e.path| - 1]);
      }
    } else {
      var f :| Named(f) && !(Made(all, f) <==> (Made(all, f) || Slashed(all, f)) && !ListedAsFile(all, f));
      SlashTakenOff(all, f);
    }
  }

  lemma SameFoldersInAllViews(all: seq<Entry>)
    requires forall e :: e in all ==> NoEmptyPart(e.path)
    ensures (forall p :: ShownFolders(all, p) == TreeFolders(all, p)) <==> SameFolders(all)
  {
    if forall p :: ShownFolders(all, p) == TreeFolders(all, p) {
      forall f | Named(f)
        ensures Made(all, f) <==> (Made(all, f) || Slashed(all, f)) && !ListedAsFile(all, f)
      {
        ShownMeans(all, Parent(f), f);
        TreeMeans(all, Parent(f), f);
        assert ShownFolders(all, Parent(f)) == TreeFolders(all, Parent(f));
      }
    } else {
      var p :| ShownFolders(all, p) != TreeFolders(all, p);
      var f :| f in ShownFolders(all, p) <==> f !in TreeFolders(all, p);
      ShownMeans(all, p, f);
      TreeMeans(all, p, f);
    }
  }

  /**
   The two views of an archive agree on every folder exactly when no path has an empty part, none is listed as a file
   and made a folder at once, and no slash behind the path of a file makes up a folder.
   */
  lemma AgreeEverywhereExactlyWhen(all: seq<Entry>)
    ensures (forall p :: ShownFolders(all, p) == TreeFolders(all, p))
            <==> (forall e :: e in all ==> NoEmptyPart(e.path)) && NoneShadowed(all) && SlashesCovered(all)
  {
    if forall e :: e in all ==> NoEmptyPart(e.path) {
      SameFoldersInAllViews(all);
      SameFoldersByEntries(all);
    } else {
      var e :| e in all && !NoEmptyPart(e.path);
      var p := EmptyPartDisagrees(all, e);
    }
  }
}
