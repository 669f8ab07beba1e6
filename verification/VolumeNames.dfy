/** The names of split volumes: `<target>.001`, `<target>.002` and so on, at least three digits. */
module VolumeNames {
  import opened Wrappers
  import opened Decimals
  import opened Files

  function VolumeName(target: Path, index: nat): Path {
    target + "." + Show3(index)
  }

  /** Where the last dot is. */
  function LastDot(s: string): Option<nat> {
    if s == [] then None
    else if s[|s| - 1] == '.' then Some(|s| - 1)
    else LastDot(s[..|s| - 1])
  }

  /** The target of a first volume; anything else is not one. */
  function SplitBase(name: Path): Option<Path> {
    match LastDot(name)
    case None => None
    case Some(dot) =>
      if dot >= |name| then None
      else
        var base, num := name[..dot], name[dot + 1..];
        if base == "" || |num| < 3 || !AllDigits(num) || Value(num) != 1 then None else Some(base)
  }

  lemma {:induction false} LastDotOf(a: string, x: string)
    requires '.' !in x
    ensures LastDot(a + "." + x) == Some(|a|)
  {
    var s := a + "." + x;
    if x != "" {
      assert s[..|s| - 1] == a + "." + x[..|x| - 1];
      LastDotOf(a, x[..|x| - 1]);
    }
  }

  lemma {:induction false} LastDotIsLast(s: string)
    ensures match LastDot(s)
            case None => '.' !in s
            case Some(d) => d < |s| && s[d] == '.' && '.' !in s[d + 1..]
  {
    if s != [] && s[|s| - 1] != '.' {
      LastDotIsLast(s[..|s| - 1]);
      assert s == s[..|s| - 1] + [s[|s| - 1]];
    }
  }

  /** A volume name tells its target and its number. */
  lemma VolumeNamesAreDistinct(t: Path, i: nat, t': Path, i': nat)
    requires VolumeName(t, i) == VolumeName(t', i')
    ensures t == t' && i == i'
  {
    LastCutIsUnique(t, Show3(i), t', Show3(i'), '.');
    ValueOfShow3(i);
    ValueOfShow3(i');
  }

  /** `SplitBase` takes back `VolumeName` for the first volume of a named target, and for nothing else. */
  lemma SplitBaseInvertsFirst(target: Path, i: nat)
    ensures SplitBase(VolumeName(target, i)) == if i == 1 && target != "" then Some(target) else None
  {
    var name := VolumeName(target, i);
    LastDotOf(target, Show3(i));
    ValueOfShow3(i);
    assert name[..|target|] == target && name[|target| + 1..] == Show3(i);
  }

  /** What counts as a first volume: a named target, a dot, and a number of at least three digits that means one. */
  lemma SplitBaseMeaning(name: Path, base: Path)
    ensures SplitBase(name) == Some(base) <==>
              && base != ""
              && exists num :: AllDigits(num) && |num| >= 3 && Value(num) == 1 && name == base + "." + num
  {
    LastDotIsLast(name);
    if SplitBase(name) == Some(base) {
      var num := name[|base| + 1..];
      assert name == base + "." + num;
    }
    if num :| AllDigits(num) && |num| >= 3 && Value(num) == 1 && name == base + "." + num {
      LastDotOf(base, num);
      assert name[..|base|] == base && name[|base| + 1..] == num;
    }
  }

  /** A temporary name for a volume is the name of no volume of the target, nor the target itself. */
  lemma TmpIsNoVolume(tmp: Path, target: Path, i: nat, j: nat)
    requires IsTmpOf(tmp, VolumeName(target, i))
    ensures tmp != VolumeName(target, j) && tmp != target
  {
    var at := |VolumeName(target, i)| + 1;
    assert tmp[at] == TMP_MARK[1];
    assert forall k :: |target| < k < |VolumeName(target, j)| ==> IsDigit(VolumeName(target, j)[k]);
  }
}
