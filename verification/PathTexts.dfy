/** Paths inside an archive as JavaScript strings, taken apart at their slashes. */
module PathTexts {
  /** A UTF-16 code unit. */
  newtype Unit = x: int | 0 <= x < 0x1_0000

  type Text = seq<Unit>

  const SLASH: Unit := 0x2f

  predicate SlashFree(s: Text) {
    forall i :: 0 <= i < |s| ==> s[i] != SLASH
  }

  /** The first slash, or -1. */
  function IndexOf(s: Text): (r: int)
    ensures -1 <= r < |s|
    ensures r == -1 ==> SlashFree(s)
    ensures r >= 0 ==> s[r] == SLASH && forall i :: 0 <= i < r ==> s[i] != SLASH
  {
    FirstFrom(s, 0)
  }

  function FirstFrom(s: Text, n: nat): (r: int)
    requires n <= |s|
    ensures r == -1 ==> forall i :: n <= i < |s| ==> s[i] != SLASH
    ensures r != -1 ==> n <= r < |s| && s[r] == SLASH && forall i :: n <= i < r ==> s[i] != SLASH
    decreases |s| - n
  {
    if n == |s| then -1 else if s[n] == SLASH then n else FirstFrom(s, n + 1)
  }

  /** The last slash, or -1. */
  function LastIndexOf(s: Text): (r: int)
    ensures -1 <= r < |s|
    ensures r == -1 ==> SlashFree(s)
    ensures r >= 0 ==> s[r] == SLASH && forall i :: r < i < |s| ==> s[i] != SLASH
  {
    LastBefore(s, |s|)
  }

  function LastBefore(s: Text, n: nat): (r: int)
    requires n <= |s|
    ensures -1 <= r < n
    ensures r >= 0 ==> s[r] == SLASH
    ensures forall i :: r < i < n ==> s[i] != SLASH
  {
    if n == 0 then -1 else if s[n - 1] == SLASH then n - 1 else LastBefore(s, n - 1)
  }

  lemma FirstIndexIs(a: Text, b: Text)
    requires SlashFree(a)
    ensures IndexOf(a + [SLASH] + b) == |a|
  {
    var s := a + [SLASH] + b;
    assert s[|a|] == SLASH && s[..|a|] == a;
  }

  lemma LastIndexIs(a: Text, b: Text)
    requires SlashFree(b)
    ensures LastIndexOf(a + [SLASH] + b) == |a|
  {
    var s := a + [SLASH] + b;
    assert s[|a|] == SLASH && s[|a| + 1..] == b;
  }

  /** All parts, the empty ones too. */
  function Split(s: Text): (r: seq<Text>)
    ensures |r| > 0 && forall i :: 0 <= i < |r| ==> SlashFree(r[i])
    decreases |s|
  {
    var i := IndexOf(s);
    if i == -1 then [s] else [s[..i]] + Split(s[i + 1..])
  }

  function NonEmpty(parts: seq<Text>): (r: seq<Text>)
    ensures forall i :: 0 <= i < |r| ==> r[i] != [] && r[i] in parts
  {
    if parts == [] then [] else (if parts[0] != [] then [parts[0]] else []) + NonEmpty(parts[1..])
  }

  predicate GoodNames(ns: seq<Text>) {
    forall i :: 0 <= i < |ns| ==> ns[i] != [] && SlashFree(ns[i])
  }

  function Names(path: Text): (r: seq<Text>)
    ensures GoodNames(r)
  {
    NonEmpty(Split(path))
  }

  function Longer(path: Text, name: Text): Text {
    if path != [] then path + [SLASH] + name else name
  }

  /** The path that leads through some names. */
  function Join(ns: seq<Text>): Text {
    if ns == [] then [] else Longer(Join(ns[..|ns| - 1]), ns[|ns| - 1])
  }

  function Parent(path: Text): (r: Text)
    ensures path != [] ==> |r| < |path|
  {
    var slash := LastIndexOf(path);
    if slash >= 0 then path[..slash] else []
  }

  function NameOf(path: Text): Text {
    var slash := LastIndexOf(path);
    if slash >= 0 then path[slash + 1..] else path
  }

  /** The only way to take off a name that holds no slash. */
  lemma LongerTakenApart(path: Text, name: Text)
    requires SlashFree(name)
    ensures Parent(Longer(path, name)) == path && NameOf(Longer(path, name)) == name
  {
    if path != [] {
      LastIndexIs(path, name);
    }
  }

  lemma JoinOfMore(ns: seq<Text>, name: Text)
    ensures Join(ns + [name]) == Longer(Join(ns), name)
  {
    assert (ns + [name])[..|ns|] == ns;
  }

  lemma {:induction false} JoinIsProper(ns: seq<Text>)
    requires GoodNames(ns) && ns != []
    ensures Join(ns) != [] && Join(ns)[0] != SLASH && Join(ns)[|Join(ns)| - 1] != SLASH
    ensures Parent(Join(ns)) == Join(ns[..|ns| - 1]) && NameOf(Join(ns)) == ns[|ns| - 1]
  {
    var init, last := ns[..|ns| - 1], ns[|ns| - 1];
    LongerTakenApart(Join(init), last);
    if init != [] {
      JoinIsProper(init);
    }
  }

  /** The paths on the way stand in front, each with a slash behind it. */
  lemma {:induction false} OnTheWay(ns: seq<Text>, i: nat)
    requires GoodNames(ns) && 0 < i < |ns|
    ensures Join(ns[..i]) + [SLASH] <= Join(ns)
  {
    var init := ns[..|ns| - 1];
    JoinIsProper(init);
    if i < |init| {
      assert init[..i] == ns[..i];
      OnTheWay(init, i);
    }
  }

  /** Every slash is behind one of them. */
  lemma {:induction false} EverySlash(ns: seq<Text>, at: nat) returns (i: nat)
    requires GoodNames(ns) && at < |Join(ns)| && Join(ns)[at] == SLASH
    ensures 0 < i < |ns| && Join(ns)[..at] == Join(ns[..i])
  {
    var init, last := ns[..|ns| - 1], ns[|ns| - 1];
    var way := Join(init);
    assert Join(ns) == Longer(way, last);
    assert way != [] ==> init != [];
    if at < |way| {
      i := EverySlash(init, at);
      assert init[..i] == ns[..i];
      assert Join(ns)[..at] == way[..at];
    } else {
      i := |ns| - 1;
      assert way != [] && at == |way|;
      assert Join(ns)[..at] == way;
    }
  }

  lemma LongerBehind(name: Text, path: Text, last: Text)
    requires path != []
    ensures Longer(name + [SLASH] + path, last) == name + [SLASH] + Longer(path, last)
  {
    assert name + [SLASH] + (path + [SLASH] + last) == (name + [SLASH] + path) + [SLASH] + last;
  }

  /** A name put in front. */
  lemma {:induction false} NameInFront(name: Text, ns: seq<Text>)
    requires GoodNames(ns) && ns != [] && name != []
    ensures Join([name] + ns) == name + [SLASH] + Join(ns)
  {
    var init, last := ns[..|ns| - 1], ns[|ns| - 1];
    assert [name] + ns == ([name] + init) + [last];
    JoinOfMore([name] + init, last);
    if init == [] {
      assert [name] + init == [] + [name];
      JoinOfMore([], name);
    } else {
      NameInFront(name, init);
      JoinIsProper(init);
      LongerBehind(name, Join(init), last);
    }
  }

  /** No empty part, except that the path may end with a slash. */
  predicate NoEmptyPart(s: Text) {
    && (s != [] ==> s[0] != SLASH)
    && forall i :: 0 < i < |s| && s[i] == SLASH ==> s[i - 1] != SLASH
  }

  lemma NamesOfOne(s: Text)
    requires SlashFree(s)
    ensures Names(s) == if s == [] then [] else [s]
    ensures Join(Names(s)) == s
  {
    NonEmptyInFront(s, []);
    assert [s] + [] == [s];
    JoinOfMore([], s);
    assert [] + [s] == [s];
  }

  lemma NonEmptyInFront(part: Text, parts: seq<Text>)
    ensures NonEmpty([part] + parts) == (if part != [] then [part] else []) + NonEmpty(parts)
  {
    assert ([part] + parts)[1..] == parts;
  }

  lemma NamesOfMore(name: Text, rest: Text)
    requires SlashFree(name) && name != []
    ensures Names(name + [SLASH] + rest) == [name] + Names(rest)
  {
    var s := name + [SLASH] + rest;
    FirstIndexIs(name, rest);
    assert s[..|name|] == name && s[|name| + 1..] == rest;
    assert Split(s) == [name] + Split(rest);
    NonEmptyInFront(name, Split(rest));
  }

  /** Such a path is what its names make, perhaps with that slash. */
  lemma {:induction false} NamesMakeThePath(s: Text)
    requires NoEmptyPart(s)
    ensures s == Join(Names(s)) || (Names(s) != [] && s == Join(Names(s)) + [SLASH])
    ensures s != [] ==> Names(s) != []
    decreases |s|
  {
    var i := IndexOf(s);
    if i == -1 {
      NamesOfOne(s);
    } else {
      var name, rest := s[..i], s[i + 1..];
      assert s == name + [SLASH] + rest;
      NamesOfMore(name, rest);
      NoEmptyPartBehind(name, rest);
      NamesMakeThePath(rest);
      if rest == [] {
        NamesOfOne(rest);
        NamesOfOne(name);
        assert [name] + [] == [name];
      } else {
        NameInFront(name, Names(rest));
      }
    }
  }

  lemma NoEmptyPartBehind(name: Text, rest: Text)
    requires NoEmptyPart(name + [SLASH] + rest)
    ensures NoEmptyPart(rest)
  {
    var s := name + [SLASH] + rest;
    assert forall j :: 0 <= j < |rest| ==> rest[j] == s[|name| + 1 + j];
    forall j | 0 <= j < |rest| && rest[j] == SLASH
      ensures j > 0 && rest[j - 1] != SLASH
    {
      assert s[|name| + 1 + j - 1] != SLASH;
    }
  }

  /** The order in which JavaScript sorts strings. */
  predicate Before(a: Text, b: Text) {
    b != [] && (a == [] || a[0] < b[0] || (a[0] == b[0] && Before(a[1..], b[1..])))
  }

  lemma {:induction false} BeforeIsTotal(a: Text, b: Text)
    ensures Before(a, b) || Before(b, a) || a == b
    ensures !(Before(a, b) && Before(b, a)) && !Before(a, a)
    decreases |a|
  {
    if a != [] {
      BeforeIsTotal(a[1..], a[1..]);
      if b != [] && a[0] == b[0] {
        BeforeIsTotal(a[1..], b[1..]);
        assert a == [a[0]] + a[1..] && b == [b[0]] + b[1..];
      }
    }
  }

  lemma {:induction false} BeforeIsTransitive(a: Text, b: Text, c: Text)
    requires Before(a, b) && Before(b, c)
    ensures Before(a, c)
    decreases |a|
  {
    if a != [] && a[0] == b[0] == c[0] {
      BeforeIsTransitive(a[1..], b[1..], c[1..]);
    }
  }

  lemma {:induction false} PrefixesComeFirst(a: Text, b: Text)
    requires a <= b && a != b
    ensures Before(a, b)
  {
    if a != [] {
      PrefixesComeFirst(a[1..], b[1..]);
    }
  }

  predicate Ascending(s: seq<Text>) {
    forall i, j :: 0 <= i < j < |s| ==> Before(s[i], s[j])
  }

  lemma {:induction false} InsertedIn(x: Text, s: seq<Text>) returns (r: seq<Text>)
    requires Ascending(s) && x !in s
    ensures Ascending(r) && forall y :: y in r <==> y == x || y in s
  {
    if s == [] {
      return [x];
    }
    BeforeIsTotal(x, s[0]);
    if Before(x, s[0]) {
      r := [x] + s;
      forall j | 0 < j < |s|
        ensures Before(x, s[j])
      {
        BeforeIsTransitive(x, s[0], s[j]);
      }
    } else {
      var rest := InsertedIn(x, s[1..]);
      r := [s[0]] + rest;
      forall j | 0 <= j < |rest|
        ensures Before(s[0], rest[j])
      {
        assert rest[j] == x || rest[j] in s[1..];
      }
    }
  }

  /** Any set of strings can be sorted. */
  lemma {:induction false} CanBeSorted(all: set<Text>) returns (s: seq<Text>)
    ensures Ascending(s) && forall x :: x in s <==> x in all
  {
    if all == {} {
      return [];
    }
    var x :| x in all;
    var rest := CanBeSorted(all - {x});
    s := InsertedIn(x, rest);
  }
}
