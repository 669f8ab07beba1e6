/**
 The rows shown for one folder of an archive, and how they agree with the folder tree: both work out folders that are
 only implied by a path, each in its own way.
 */
module FolderViews {
  import opened Wrappers
  import opened PathTexts
  import opened FolderTrees

  datatype Row = Row(
    name: Text, path: Text, isDir: bool, size: Option<nat>, packedSize: Option<nat>, modified: Option<Text>,
    crc: Option<nat>, derived: bool)

  /** What the paths of everything in a folder start with. */
  function Prefix(currentPath: Text): Text {
    if currentPath != [] then currentPath + [SLASH] else []
  }

  /** The rest of a path below the folder, if the entry is below it. */
  function Rel(e: Entry, prefix: Text): (r: Option<Text>)
    ensures r.Some? ==> r.value != [] && e.path == prefix + r.value
  {
    if prefix <= e.path && prefix != e.path then Some(e.path[|prefix|..]) else None
  }

  /** The name an entry gives rise to in the folder. */
  function Key(e: Entry, prefix: Text): Option<Text> {
    match Rel(e, prefix)
    case None => None
    case Some(rel) => Some(if IndexOf(rel) == -1 then rel else rel[..IndexOf(rel)])
  }

  /** The entry is itself in the folder, under that name. */
  predicate Direct(e: Entry, prefix: Text, key: Text) {
    e.path == prefix + key && key != [] && SlashFree(key)
  }

  function DirectRow(e: Entry, key: Text): Row {
    Row(key, e.path, e.isDir, e.size, e.packedSize, e.modified, e.crc, false)
  }

  function DerivedRow(prefix: Text, key: Text): Row {
    Row(key, prefix + key, true, None, None, None, None, true)
  }

  /** The names in the folder, each where it comes up first. */
  function Keys(all: seq<Entry>, prefix: Text): seq<Text> {
    if all == [] then []
    else
      var before, key := Keys(all[..|all| - 1], prefix), Key(all[|all| - 1], prefix);
      if key.None? || key.value in before then before else before + [key.value]
  }

  /** The row of a name: of the last entry that is there itself, or else derived. */
  function RowOf(all: seq<Entry>, prefix: Text, key: Text): Row {
    if all == [] then DerivedRow(prefix, key)
    else
      var last := all[|all| - 1];
      if Direct(last, prefix, key) then DirectRow(last, key) else RowOf(all[..|all| - 1], prefix, key)
  }

  function Rows(all: seq<Entry>, prefix: Text): (r: seq<Row>)
    ensures |r| == |Keys(all, prefix)|
  {
    var keys := Keys(all, prefix);
    seq(|keys|, i requires 0 <= i < |keys| => RowOf(all, prefix, keys[i]))
  }

  lemma {:induction false} KeysAreDistinct(all: seq<Entry>, prefix: Text)
    ensures forall i, j :: 0 <= i < j < |Keys(all, prefix)| ==> Keys(all, prefix)[i] != Keys(all, prefix)[j]
    ensures forall k :: k in Keys(all, prefix) <==> exists i :: 0 <= i < |all| && Key(all[i], prefix) == Some(k)
  {
    if all != [] {
      var init, last := all[..|all| - 1], all[|all| - 1];
      KeysAreDistinct(init, prefix);
      assert forall i :: 0 <= i < |init| ==> init[i] == all[i];
      assert all[|init|] == last;
    }
  }

  /** A JavaScript map from names to rows, which keeps the place of a name that is set again. */
  class RowMap {
    var keys: seq<Text>
    var rows: map<Text, Row>

    ghost predicate Valid()
      reads this
    {
      forall k :: k in keys <==> k in rows
    }

    constructor ()
      ensures keys == [] && rows == map[] && Valid()
    {
      keys, rows := [], map[];
    }

    method Set(key: Text, row: Row)
      requires Valid()
      modifies this
      ensures Valid() && rows == old(rows)[key := row]
      ensures keys == if key in old(keys) then old(keys) else old(keys) + [key]
    {
      if key !in rows {
        keys := keys + [key];
      }
      rows := rows[key := row];
    }

    method Values() returns (r: seq<Row>)
      requires Valid()
      ensures |r| == |keys| && forall i :: 0 <= i < |r| ==> r[i] == rows[keys[i]]
    {
      r := [];
      for i := 0 to |keys|
        invariant |r| == i && forall j :: 0 <= j < i ==> r[j] == rows[keys[j]]
      {
        r := r + [rows[keys[i]]];
      }
    }
  }

  /** The map holds the rows for the entries so far. */
  ghost predicate Shows(m: RowMap, all: seq<Entry>, prefix: Text)
    reads m
  {
    && m.Valid() && m.keys == Keys(all, prefix)
    && forall k :: k in m.rows ==> m.rows[k] == RowOf(all, prefix, k)
  }

  lemma DirectHasKey(e: Entry, prefix: Text, key: Text)
    ensures Direct(e, prefix, key) <==> Rel(e, prefix) == Some(key) && IndexOf(key) == -1
    ensures Direct(e, prefix, key) ==> Key(e, prefix) == Some(key)
  {
    assert (prefix + key)[|prefix|..] == key;
  }

  lemma {:induction false} NoEntryNoRow(all: seq<Entry>, prefix: Text, key: Text)
    requires key !in Keys(all, prefix)
    ensures RowOf(all, prefix, key) == DerivedRow(prefix, key)
  {
    if all != [] {
      DirectHasKey(all[|all| - 1], prefix, key);
      NoEntryNoRow(all[..|all| - 1], prefix, key);
    }
  }

  lemma OneMoreEntry(all: seq<Entry>, prefix: Text, e: Entry)
    ensures Keys(all + [e], prefix)
            == if Key(e, prefix).None? || Key(e, prefix).value in Keys(all, prefix) then Keys(all, prefix)
               else Keys(all, prefix) + [Key(e, prefix).value]
    ensures forall k :: RowOf(all + [e], prefix, k)
                        == if Rel(e, prefix) == Some(k) && IndexOf(k) == -1 then DirectRow(e, k) else RowOf(all, prefix, k)
  {
    assert (all + [e])[..|all|] == all;
    forall k
      ensures RowOf(all + [e], prefix, k)
              == if Rel(e, prefix) == Some(k) && IndexOf(k) == -1 then DirectRow(e, k) else RowOf(all, prefix, k)
    {
      DirectHasKey(e, prefix, k);
    }
  }

  /** Take in one more entry. */
  method AddRow(m: RowMap, e: Entry, prefix: Text, ghost all: seq<Entry>)
    requires Shows(m, all, prefix)
    modifies m
    ensures Shows(m, all + [e], prefix)
  {
    OneMoreEntry(all, prefix, e);
    if !(prefix <= e.path) {
      return;
    }
    var rel := e.path[|prefix|..];
    if rel == [] {
      return;
    }
    var slash := IndexOf(rel);
    if slash == -1 {
      m.Set(rel, DirectRow(e, rel));
    } else {
      var folderName := rel[..slash];
      if folderName !in m.rows {
        NoEntryNoRow(all, prefix, folderName);
        m.Set(folderName, DerivedRow(prefix, folderName));
      }
    }
  }

  /** The rows of one folder. */
  method ChildrenOf(all: seq<Entry>, currentPath: Text) returns (r: seq<Row>)
    ensures r == Rows(all, Prefix(currentPath))
  {
    var prefix := Prefix(currentPath);
    var m := new RowMap();
    for n := 0 to |all|
      invariant fresh(m) && Shows(m, all[..n], prefix)
    {
      AddRow(m, all[n], prefix, all[..n]);
      assert all[..n] + [all[n]] == all[..n + 1];
    }
    assert all[..|all|] == all;
    r := m.Values();
  }
}
