/** Trees of nodes found by their path, for any paths with a way up. */
module Trees {
  /** A node of the tree that belongs below `p`. */
  ghost predicate ChildOf<P, N>(nodes: map<P, N>, root: P, up: P -> P, at: N -> P, p: P, c: N) {
    at(c) in nodes && nodes[at(c)] == c && at(c) != root && up(at(c)) == p
  }

  ghost predicate ChildrenOf<P, N>(nodes: map<P, N>, root: P, up: P -> P, at: N -> P, p: P, list: seq<N>) {
    forall i :: 0 <= i < |list| ==> ChildOf(nodes, root, up, at, p, list[i])
  }

  /** The node has its path and is in the list of its parent, once. */
  ghost predicate InPlace<P, N>(nodes: map<P, N>, kids: map<P, seq<N>>, up: P -> P, at: N -> P, f: P)
    requires f in nodes
  {
    at(nodes[f]) == f && up(f) in nodes && up(f) in kids && multiset(kids[up(f)])[nodes[f]] == 1
  }

  /** Every node but the root is a child of its parent, once, and there are no other children. */
  ghost predicate IsTree<P(!new), N>(nodes: map<P, N>, kids: map<P, seq<N>>, root: P, up: P -> P, at: N -> P) {
    && root in nodes && at(nodes[root]) == root && kids.Keys == nodes.Keys
    && (forall p {:trigger ChildrenOf(nodes, root, up, at, p, kids[p])} :: p in nodes ==>
          ChildrenOf(nodes, root, up, at, p, kids[p]))
    && forall f {:trigger InPlace(nodes, kids, up, at, f)} :: f in nodes && f != root ==> InPlace(nodes, kids, up, at, f)
  }

  /** A tree of one node. */
  lemma JustTheRoot<P(!new), N>(node: N, up: P -> P, at: N -> P)
    ensures IsTree(map[at(node) := node], map[at(node) := []], at(node), up, at)
  {
  }

  lemma ChildrenStay<P, N>(nodes: map<P, N>, root: P, up: P -> P, at: N -> P, p: P, list: seq<N>, node: N)
    requires ChildrenOf(nodes, root, up, at, p, list) && at(node) !in nodes
    ensures ChildrenOf(nodes[at(node) := node], root, up, at, p, list)
    ensures at(node) != root && up(at(node)) == p ==>
              ChildrenOf(nodes[at(node) := node], root, up, at, p, list + [node])
  {
    var nodes' := nodes[at(node) := node];
    forall i | 0 <= i < |list|
      ensures ChildOf(nodes', root, up, at, p, list[i])
    {
      assert ChildOf(nodes, root, up, at, p, list[i]);
    }
  }

  /** A new node at the end of its parent's list. */
  lemma OneMoreNode<P(!new), N>(nodes: map<P, N>, kids: map<P, seq<N>>, root: P, up: P -> P, at: N -> P, node: N)
    requires IsTree(nodes, kids, root, up, at) && at(node) !in nodes && up(at(node)) in nodes
    ensures IsTree(nodes[at(node) := node], kids[up(at(node)) := kids[up(at(node))] + [node]][at(node) := []],
                   root, up, at)
  {
    var p, nodes' := up(at(node)), nodes[at(node) := node];
    var list := kids[p] + [node];
    var kids' := kids[p := list][at(node) := []];
    assert multiset(list) == multiset(kids[p]) + multiset{node};
    assert ChildrenOf(nodes, root, up, at, p, kids[p]);
    assert node !in kids[p];
    forall f | f in nodes' && f != root
      ensures InPlace(nodes', kids', up, at, f)
    {
      assert f in nodes ==> InPlace(nodes, kids, up, at, f);
    }
    forall q | q in nodes'
      ensures ChildrenOf(nodes', root, up, at, q, kids'[q])
    {
      if q in nodes {
        assert ChildrenOf(nodes, root, up, at, q, kids[q]);
        ChildrenStay(nodes, root, up, at, q, kids[q], node);
      }
    }
  }

  lemma AllApart<P(!new), N>(nodes: map<P, N>, kids: map<P, seq<N>>, root: P, up: P -> P, at: N -> P)
    requires IsTree(nodes, kids, root, up, at)
    ensures forall p :: p in nodes ==> at(nodes[p]) == p
  {
    forall p | p in nodes
      ensures at(nodes[p]) == p
    {
      assert p == root || InPlace(nodes, kids, up, at, p);
    }
  }

  /** The same children, in another order perhaps. */
  ghost predicate Reordered<P(!new), N>(was: map<P, seq<N>>, now: map<P, seq<N>>) {
    was.Keys == now.Keys && forall p :: p in was ==> multiset(was[p]) == multiset(now[p])
  }

  lemma StillATree<P(!new), N>(
      nodes: map<P, N>, was: map<P, seq<N>>, now: map<P, seq<N>>, root: P, up: P -> P, at: N -> P)
    requires IsTree(nodes, was, root, up, at) && Reordered(was, now)
    ensures IsTree(nodes, now, root, up, at)
  {
    forall p | p in nodes
      ensures ChildrenOf(nodes, root, up, at, p, now[p])
    {
      assert ChildrenOf(nodes, root, up, at, p, was[p]);
      forall i | 0 <= i < |now[p]|
        ensures ChildOf(nodes, root, up, at, p, now[p][i])
      {
        assert now[p][i] in multiset(was[p]);
      }
    }
    forall f | f in nodes && f != root
      ensures InPlace(nodes, now, up, at, f)
    {
      assert InPlace(nodes, was, up, at, f);
    }
  }

  lemma MoreValues<P, N>(nodes: map<P, N>, p: P, node: N)
    requires p !in nodes
    ensures nodes[p := node].Values == nodes.Values + {node}
  {
    var more := nodes[p := node];
    forall n | n in nodes.Values + {node}
      ensures n in more.Values
    {
      if n in nodes.Values {
        var q :| q in nodes && nodes[q] == n;
        assert more[q] == n;
      } else {
        assert more[p] == n;
      }
    }
  }

  /** `before` compares any two, and without a circle. */
  ghost predicate Compares<K(!new)>(before: (K, K) -> bool) {
    && (forall a, b :: before(a, b) || before(b, a))
    && forall a, b, c :: before(a, b) && before(b, c) ==> before(a, c)
  }

  predicate InOrder<N, K>(s: seq<N>, key: N -> K, before: (K, K) -> bool) {
    forall i, j :: 0 <= i < j < |s| ==> before(key(s[i]), key(s[j]))
  }

  function Inserted<N, K>(x: N, s: seq<N>, key: N -> K, before: (K, K) -> bool): (r: seq<N>)
    ensures multiset(r) == multiset{x} + multiset(s)
  {
    if s == [] then [x]
    else
      assert s == [s[0]] + s[1..];
      if before(key(x), key(s[0])) then [x] + s else [s[0]] + Inserted(x, s[1..], key, before)
  }

  /** A stable sort. */
  function Sorted<N, K>(s: seq<N>, key: N -> K, before: (K, K) -> bool): (r: seq<N>)
    ensures multiset(r) == multiset(s)
  {
    if s == [] then []
    else
      assert s == [s[0]] + s[1..];
      Inserted(s[0], Sorted(s[1..], key, before), key, before)
  }

  lemma {:induction false} InsertedInOrder<N, K(!new)>(x: N, s: seq<N>, key: N -> K, before: (K, K) -> bool)
    requires Compares(before) && InOrder(s, key, before)
    ensures InOrder(Inserted(x, s, key, before), key, before)
  {
    if s != [] && !before(key(x), key(s[0])) {
      InsertedInOrder(x, s[1..], key, before);
      var rest := Inserted(x, s[1..], key, before);
      forall i | 0 <= i < |rest|
        ensures before(key(s[0]), key(rest[i]))
      {
        assert rest[i] in multiset(rest);
        assert rest[i] == x || rest[i] in s[1..];
      }
    }
  }

  lemma {:induction false} SortedInOrder<N, K(!new)>(s: seq<N>, key: N -> K, before: (K, K) -> bool)
    requires Compares(before)
    ensures InOrder(Sorted(s, key, before), key, before)
  {
    if s != [] {
      SortedInOrder(s[1..], key, before);
      InsertedInOrder(s[0], Sorted(s[1..], key, before), key, before);
    }
  }
}
