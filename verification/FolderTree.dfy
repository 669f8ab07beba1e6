/** The tree of folders beside the list: every folder named in an archive or implied by a path, under its parent. */
module FolderTrees {
  import opened Wrappers
  import opened PathTexts
  import opened Trees

  datatype Entry = Entry(
    path: Text, isDir: bool, size: Option<nat>, packedSize: Option<nat>, modified: Option<Text>, crc: Option<nat>)

  /** The name of the root when there is none. */
  const ARCHIVE: Text := [0xc544, 0xce74, 0xc774, 0xbe0c]

  /** How many of its names lead to folders: all but that of a file. */
  function Upto(e: Entry): int {
    |Names(e.path)| - if e.isDir then 0 else 1
  }

  /** The paths that the first names lead through. */
  function Ways(ns: seq<Text>, upto: int): set<Text> {
    set i | 0 < i <= upto && i <= |ns| :: Join(ns[..i])
  }

  /** The folders an entry names or implies. */
  function FoldersOf(e: Entry): set<Text> {
    Ways(Names(e.path), Upto(e))
  }

  function Folders(all: seq<Entry>): set<Text> {
    if all == [] then {} else Folders(all[..|all| - 1]) + FoldersOf(all[|all| - 1])
  }

  lemma {:induction false} FoldersComeFromEntries(all: seq<Entry>, f: Text)
    ensures f in Folders(all) <==> exists i :: 0 <= i < |all| && f in FoldersOf(all[i])
  {
    if all != [] {
      var init := all[..|all| - 1];
      FoldersComeFromEntries(init, f);
      assert forall i :: 0 <= i < |init| ==> init[i] == all[i];
    }
  }

  lemma FolderOfEntry(e: Entry, f: Text)
    requires f in FoldersOf(e)
    ensures f != [] && f[0] != SLASH && f[|f| - 1] != SLASH
    ensures Parent(f) == [] || Parent(f) in FoldersOf(e)
  {
    var ns := Names(e.path);
    var i :| 0 < i <= Upto(e) && i <= |ns| && f == Join(ns[..i]);
    JoinIsProper(ns[..i]);
    assert ns[..i][..i - 1] == ns[..i - 1];
    assert Parent(f) == Join(ns[..i - 1]);
    if i > 1 {
      assert Parent(f) in Ways(ns, Upto(e));
    } else {
      assert ns[..0] == [];
    }
  }

  /** The parent of a folder is a folder, and comes first in sorted order. */
  lemma ParentsAreFolders(all: seq<Entry>, f: Text)
    requires f in Folders(all)
    ensures f != [] && (Parent(f) == [] || Parent(f) in Folders(all))
    ensures Before(Parent(f), f)
  {
    FoldersComeFromEntries(all, f);
    var i :| 0 <= i < |all| && f in FoldersOf(all[i]);
    FolderOfEntry(all[i], f);
    FoldersComeFromEntries(all, Parent(f));
    PrefixesComeFirst(Parent(f), f);
  }

  lemma OneMoreWay(ns: seq<Text>, i: nat)
    requires i < |ns|
    ensures Join(ns[..i + 1]) == Longer(Join(ns[..i]), ns[i])
    ensures Ways(ns, i + 1) == Ways(ns, i) + {Join(ns[..i + 1])}
  {
    assert ns[..i + 1] == ns[..i] + [ns[i]];
    JoinOfMore(ns[..i], ns[i]);
    forall f | f in Ways(ns, i + 1)
      ensures f in Ways(ns, i) || f == Join(ns[..i + 1])
    {
      var k :| 0 < k <= i + 1 && k <= |ns| && f == Join(ns[..k]);
    }
  }

  /** Add the folders of one entry. */
  method AddFolders(e: Entry, folderSet: set<Text>) returns (r: set<Text>)
    ensures r == folderSet + FoldersOf(e)
  {
    r := folderSet;
    var parts, upto := Names(e.path), Upto(e);
    var acc, i := [], 0;
    while i < upto
      invariant 0 <= i <= |parts| && (i <= upto || i == 0) && acc == Join(parts[..i])
      invariant r == folderSet + Ways(parts, i)
    {
      OneMoreWay(parts, i);
      acc := Longer(acc, parts[i]);
      r := r + {acc};
      i := i + 1;
    }
  }

  /** Collect the folders of all entries. */
  method CollectFolders(all: seq<Entry>) returns (folderSet: set<Text>)
    ensures folderSet == Folders(all)
  {
    folderSet := {};
    for n := 0 to |all|
      invariant folderSet == Folders(all[..n])
    {
      folderSet := AddFolders(all[n], folderSet);
      assert all[..n + 1][..n] == all[..n];
    }
    assert all[..|all|] == all;
  }

  class Node {
    const name: Text
    const path: Text
    var children: seq<Node>

    constructor (name: Text, path: Text)
      ensures this.name == name && this.path == path && children == []
    {
      this.name, this.path, this.children := name, path, [];
    }
  }

  function PathOf(n: Node): Text {
    n.path
  }

  /** The children of each node. */
  ghost function Kids(nodes: map<Text, Node>): map<Text, seq<Node>>
    reads nodes.Values
  {
    map p | p in nodes :: nodes[p].children
  }

  /** Every folder is a child of the one its path is in, once, and nothing else is a child of anything. */
  ghost predicate FolderTree(nodes: map<Text, Node>, kids: map<Text, seq<Node>>) {
    && IsTree(nodes, kids, [], Parent, PathOf)
    && forall f :: f in nodes && f != [] ==> nodes[f].name == NameOf(f)
  }

  lemma PathsApart(nodes: map<Text, Node>, kids: map<Text, seq<Node>>)
    requires IsTree(nodes, kids, [], Parent, PathOf)
    ensures forall p :: p in nodes ==> nodes[p].path == p
  {
    AllApart(nodes, kids, [], Parent, PathOf);
    forall p | p in nodes
      ensures nodes[p].path == p
    {
      assert PathOf(nodes[p]) == p;
    }
  }

  lemma OneMoreFolder(nodes: map<Text, Node>, kids: map<Text, seq<Node>>, node: Node)
    requires FolderTree(nodes, kids) && node.path !in nodes && Parent(node.path) in nodes && node.name == NameOf(node.path)
    ensures FolderTree(nodes[node.path := node],
                       kids[Parent(node.path) := kids[Parent(node.path)] + [node]][node.path := []])
    ensures nodes[node.path := node].Values == nodes.Values + {node}
  {
    OneMoreNode(nodes, kids, [], Parent, PathOf, node);
    MoreValues(nodes, node.path, node);
  }

  /** Make the node of one folder and hang it below its parent. */
  method AddNode(fp: Text, nodes: map<Text, Node>, root: Node) returns (r: map<Text, Node>)
    requires FolderTree(nodes, Kids(nodes)) && fp !in nodes && Parent(fp) in nodes
    modifies nodes.Values
    ensures fresh(r.Values - nodes.Values) && nodes.Values <= r.Values
    ensures FolderTree(r, Kids(r)) && r.Keys == nodes.Keys + {fp} && r[[]] == nodes[[]]
  {
    ghost var was := Kids(nodes);
    var slash := LastIndexOf(fp);
    var parentPath := if slash >= 0 then fp[..slash] else [];
    var node := new Node(if slash >= 0 then fp[slash + 1..] else fp, fp);
    r := nodes[fp := node];
    var parent := if parentPath in nodes then nodes[parentPath] else root;
    PathsApart(nodes, was);
    OneMoreFolder(nodes, was, node);
    parent.children := parent.children + [node];
    assert Kids(r) == was[parentPath := was[parentPath] + [node]][fp := []] by {
      assert forall q :: q in nodes && q != parentPath ==> nodes[q] != parent;
    }
  }

  function Elements(s: seq<Text>): set<Text> {
    set x | x in s
  }

  /** In sorted order, the parent of a folder is there before the folder itself. */
  lemma ParentIsThere(all: seq<Entry>, sorted: seq<Text>, i: nat)
    requires Ascending(sorted) && Elements(sorted) == Folders(all) && i < |sorted|
    ensures Parent(sorted[i]) in {[]} + Elements(sorted[..i])
    ensures sorted[i] !in {[]} + Elements(sorted[..i])
    ensures Elements(sorted[..i + 1]) == Elements(sorted[..i]) + {sorted[i]}
  {
    var f := sorted[i];
    assert f in Elements(sorted);
    ParentsAreFolders(all, f);
    BeforeIsTotal(f, f);
    assert forall j :: 0 <= j < i ==> Before(sorted[j], f);
    if Parent(f) != [] {
      assert Parent(f) in Elements(sorted);
      var j :| 0 <= j < |sorted| && sorted[j] == Parent(f);
      BeforeIsTotal(f, Parent(f));
      assert j < i;
      assert sorted[..i][j] == Parent(f);
    }
  }

  /** Hang all folders below their parents, in sorted order. */
  method LinkNodes(all: seq<Entry>, sorted: seq<Text>, root: Node) returns (nodes: map<Text, Node>)
    requires Ascending(sorted) && Elements(sorted) == Folders(all)
    requires root.path == [] && root.children == []
    modifies root
    ensures fresh(nodes.Values - {root}) && [] in nodes && nodes[[]] == root
    ensures FolderTree(nodes, Kids(nodes)) && nodes.Keys == Folders(all) + {[]}
  {
    nodes := map[[] := root];
    JustTheRoot(root, Parent, PathOf);
    assert Kids(nodes) == map[[] := []];
    ghost var done := {[]};
    for i := 0 to |sorted|
      invariant fresh(nodes.Values - {root}) && [] in nodes && nodes[[]] == root
      invariant done == {[]} + Elements(sorted[..i]) && nodes.Keys == done
      invariant FolderTree(nodes, Kids(nodes))
    {
      ParentIsThere(all, sorted, i);
      nodes := AddNode(sorted[i], nodes, root);
      done := done + {sorted[i]};
    }
    assert sorted[..|sorted|] == sorted;
  }

  /** `p` is `a` or somewhere below it. */
  predicate IsBelow(a: Text, p: Text)
    decreases |p|
  {
    p == a || (p != [] && IsBelow(a, Parent(p)))
  }

  lemma {:induction false} BelowIsLonger(a: Text, p: Text)
    requires IsBelow(a, p)
    ensures |a| <= |p|
    decreases |p|
  {
    if p != a {
      BelowIsLonger(a, Parent(p));
    }
  }

  lemma {:induction false} AllBelowTheRoot(p: Text)
    ensures IsBelow([], p)
    decreases |p|
  {
    if p != [] {
      AllBelowTheRoot(Parent(p));
    }
  }

  lemma {:induction false} BelowItsParent(a: Text, p: Text)
    requires IsBelow(a, p) && a != []
    ensures IsBelow(Parent(a), p)
    decreases |p|
  {
    if p != a {
      BelowItsParent(a, Parent(p));
    }
  }

  lemma {:induction false} BelowAChild(nodes: map<Text, Node>, kids: map<Text, seq<Node>>, a: Text, p: Text)
    requires IsTree(nodes, kids, [], Parent, PathOf) && p in nodes && a in nodes && IsBelow(a, p) && p != a
    ensures exists k :: 0 <= k < |kids[a]| && IsBelow(kids[a][k].path, p)
    decreases |p|
  {
    assert InPlace(nodes, kids, Parent, PathOf, p);
    if Parent(p) == a {
      assert nodes[p] in kids[a];
    } else {
      BelowAChild(nodes, kids, a, Parent(p));
      var k :| 0 <= k < |kids[a]| && IsBelow(kids[a][k].path, Parent(p));
    }
  }

  function Title(n: Node): Text {
    n.name
  }

  /** The lists of all nodes below `a` are sorted now and the others are as they were. */
  ghost predicate SortedBelow(a: Text, was: map<Text, seq<Node>>, now: map<Text, seq<Node>>, before: (Text, Text) -> bool) {
    && Reordered(was, now)
    && forall p :: p in was ==> if IsBelow(a, p) then InOrder(now[p], Title, before) else now[p] == was[p]
  }

  /** The same for the first `n` children of `a`, with the list of `a` itself sorted. */
  ghost predicate PartlySorted(
      a: Text, n: nat, was: map<Text, seq<Node>>, now: map<Text, seq<Node>>, before: (Text, Text) -> bool)
  {
    && Reordered(was, now) && a in now && InOrder(now[a], Title, before) && n <= |now[a]|
    && (forall p :: p in was && !IsBelow(a, p) ==> now[p] == was[p])
    && forall p, k :: p in was && 0 <= k < n && IsBelow(now[a][k].path, p) ==> InOrder(now[p], Title, before)
  }

  lemma FirstSorted(a: Text, was: map<Text, seq<Node>>, before: (Text, Text) -> bool)
    requires Compares(before) && a in was
    ensures PartlySorted(a, 0, was, was[a := Sorted(was[a], Title, before)], before)
  {
    SortedInOrder(was[a], Title, before);
  }

  lemma ChildIsLonger(nodes: map<Text, Node>, kids: map<Text, seq<Node>>, a: Text, k: nat)
    requires IsTree(nodes, kids, [], Parent, PathOf) && a in nodes && k < |kids[a]|
    ensures var c := kids[a][k]; c.path in nodes && nodes[c.path] == c && |a| < |c.path|
  {
    assert ChildrenOf(nodes, [], Parent, PathOf, a, kids[a]);
    assert ChildOf(nodes, [], Parent, PathOf, a, kids[a][k]);
  }

  lemma OneMoreSorted(
      nodes: map<Text, Node>, a: Text, n: nat, was: map<Text, seq<Node>>, mid: map<Text, seq<Node>>,
      now: map<Text, seq<Node>>, before: (Text, Text) -> bool)
    requires IsTree(nodes, was, [], Parent, PathOf) && PartlySorted(a, n, was, mid, before) && n < |mid[a]|
    requires SortedBelow(mid[a][n].path, mid, now, before)
    ensures PartlySorted(a, n + 1, was, now, before) && now[a] == mid[a]
  {
    var c := mid[a][n];
    StillATree(nodes, was, mid, [], Parent, PathOf);
    assert ChildrenOf(nodes, [], Parent, PathOf, a, mid[a]);
    assert ChildOf(nodes, [], Parent, PathOf, a, c);
    assert !IsBelow(c.path, a) by {
      if IsBelow(c.path, a) {
        BelowIsLonger(c.path, a);
      }
    }
    forall p | p in was && !IsBelow(a, p)
      ensures now[p] == was[p]
    {
      if IsBelow(c.path, p) {
        BelowItsParent(c.path, p);
      }
    }
  }

  lemma AllSorted(
      nodes: map<Text, Node>, a: Text, was: map<Text, seq<Node>>, now: map<Text, seq<Node>>, before: (Text, Text) -> bool)
    requires IsTree(nodes, was, [], Parent, PathOf) && a in now && PartlySorted(a, |now[a]|, was, now, before)
    ensures SortedBelow(a, was, now, before)
  {
    StillATree(nodes, was, now, [], Parent, PathOf);
    forall p | p in was && IsBelow(a, p)
      ensures InOrder(now[p], Title, before)
    {
      if p != a {
        BelowAChild(nodes, now, a, p);
      }
    }
  }

  /** Sort the lists of children from a node downwards. */
  method SortRec(n: Node, before: (Text, Text) -> bool, ghost nodes: map<Text, Node>, ghost longest: nat)
    requires IsTree(nodes, Kids(nodes), [], Parent, PathOf) && n.path in nodes && nodes[n.path] == n
    requires Compares(before) && forall p :: p in nodes ==> |p| <= longest
    modifies nodes.Values
    ensures SortedBelow(n.path, old(Kids(nodes)), Kids(nodes), before)
    decreases longest - |n.path|
  {
    ghost var was := Kids(nodes);
    PathsApart(nodes, was);
    n.children := Sorted(n.children, Title, before);
    assert Kids(nodes) == was[n.path := Sorted(was[n.path], Title, before)];
    FirstSorted(n.path, was, before);
    for i := 0 to |n.children|
      invariant PartlySorted(n.path, i, was, Kids(nodes), before)
    {
      ghost var mid := Kids(nodes);
      StillATree(nodes, was, mid, [], Parent, PathOf);
      ChildIsLonger(nodes, mid, n.path, i);
      assert mid[n.path] == n.children;
      SortRec(n.children[i], before, nodes, longest);
      OneMoreSorted(nodes, n.path, i, was, mid, Kids(nodes), before);
    }
    AllSorted(nodes, n.path, was, Kids(nodes), before);
  }

  lemma Longest(all: set<Text>) returns (n: nat)
    ensures forall p :: p in all ==> |p| <= n
  {
    if all == {} {
      return 0;
    }
    var p :| p in all;
    var rest := Longest(all - {p});
    n := if |p| > rest then |p| else rest;
  }

  /**
   The tree of all folders. Each one named or implied is in it once, below the folder its path is in, so that no folder
   falls back to the root; the children of each are in the order of their names.
   */
  method BuildFolderTree(all: seq<Entry>, rootName: Text, before: (Text, Text) -> bool)
    returns (root: Node, ghost nodes: map<Text, Node>)
    requires Compares(before)
    ensures [] in nodes && nodes[[]] == root && root.path == []
    ensures root.name == if rootName == [] then ARCHIVE else rootName
    ensures nodes.Keys == Folders(all) + {[]} && fresh(nodes.Values)
    ensures FolderTree(nodes, Kids(nodes))
    ensures forall p :: p in nodes ==> InOrder(nodes[p].children, Title, before)
  {
    var folderSet := CollectFolders(all);
    ghost var sortable := CanBeSorted(folderSet);
    assert Elements(sortable) == folderSet;
    var sorted :| Ascending(sorted) && Elements(sorted) == folderSet;
    root := new Node(if rootName == [] then ARCHIVE else rootName, []);
    nodes := LinkNodes(all, sorted, root);
    ghost var longest := Longest(nodes.Keys);
    ghost var was := Kids(nodes);
    SortRec(root, before, nodes, longest);
    StillATree(nodes, was, Kids(nodes), [], Parent, PathOf);
    forall p | p in nodes
      ensures InOrder(nodes[p].children, Title, before)
    {
      AllBelowTheRoot(p);
      assert Kids(nodes)[p] == nodes[p].children;
    }
  }
}
