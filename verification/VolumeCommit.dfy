/**
 Giving the volumes of a finished set their final names, all of them or none. A rename replaces what had the name
 before, and taking it back does not bring that back.
 */
module VolumeCommits {
  import opened Wrappers
  import opened FlatFile
  import opened Files
  import opened VolumeNames
  import opened VolumeSets

  datatype CommitError = NothingWritten | StaleVolume(path: Path) | RenameFailed

  /** One volume takes the bare name of the target. */
  function Finals(target: Path, n: nat): (r: seq<Path>)
    ensures |r| == n
  {
    if n == 1 then [target] else seq(n, i requires 0 <= i < n => VolumeName(target, i + 1))
  }

  /** The file that must not be there: it would be taken for a part of the new set. */
  function StaleName(target: Path, n: nat): Path {
    if n == 1 then VolumeName(target, 1) else VolumeName(target, n + 1)
  }

  ghost predicate Apart(vols: seq<Path>, finals: seq<Path>) {
    && |vols| == |finals| && Distinct(vols) && Distinct(finals)
    && forall i, j :: 0 <= i < |vols| && 0 <= j < |finals| ==> vols[i] != finals[j]
  }

  lemma VolumeNamesDiffer(target: Path, i: nat, j: nat)
    requires i != j
    ensures VolumeName(target, i) != VolumeName(target, j)
  {
    if VolumeName(target, i) == VolumeName(target, j) {
      VolumeNamesAreDistinct(target, i, target, j);
    }
  }

  lemma FinalsAreDistinct(target: Path, n: nat)
    ensures Distinct(Finals(target, n)) && StaleName(target, n) !in Finals(target, n)
  {
    var finals := Finals(target, n);
    if n == 1 {
      assert |StaleName(target, n)| > |target|;
    } else {
      forall i, j | 0 <= i < j < n
        ensures finals[i] != finals[j]
      {
        VolumeNamesDiffer(target, i + 1, j + 1);
      }
      forall i | 0 <= i < n
        ensures finals[i] != StaleName(target, n)
      {
        VolumeNamesDiffer(target, i + 1, n + 1);
      }
    }
  }

  lemma TmpsAreApart(files: map<Path, seq<byte>>, live: set<Path>, vols: seq<Path>, target: Path, size: nat, i: nat)
    requires GoodVolumes(files, live, vols, target, size) && i < |vols|
    ensures vols[i] !in Finals(target, |vols|) && vols[i] != StaleName(target, |vols|)
  {
    var n := |vols|;
    TmpIsNoVolume(vols[i], target, i + 1, if n == 1 then 1 else n + 1);
    forall j | 0 <= j < n
      ensures vols[i] != Finals(target, n)[j]
    {
      TmpIsNoVolume(vols[i], target, i + 1, j + 1);
    }
  }

  lemma FinalsAreApart(files: map<Path, seq<byte>>, live: set<Path>, vols: seq<Path>, target: Path, size: nat)
    requires GoodVolumes(files, live, vols, target, size)
    ensures Apart(vols, Finals(target, |vols|))
    ensures StaleName(target, |vols|) !in vols && StaleName(target, |vols|) !in Finals(target, |vols|)
  {
    FinalsAreDistinct(target, |vols|);
    forall i | 0 <= i < |vols|
      ensures vols[i] !in Finals(target, |vols|) && vols[i] != StaleName(target, |vols|)
    {
      TmpsAreApart(files, live, vols, target, size, i);
    }
  }

  predicate SameAt(a: map<Path, seq<byte>>, b: map<Path, seq<byte>>, p: Path) {
    (p in a <==> p in b) && (p in a ==> a[p] == b[p])
  }

  predicate Has(files: map<Path, seq<byte>>, p: Path, c: seq<byte>) {
    p in files && files[p] == c
  }

  /** The directory in the middle of the renames: the first `moved` volumes have their final names. */
  ghost predicate Moving(
      before: map<Path, seq<byte>>, now: map<Path, seq<byte>>, vols: seq<Path>, finals: seq<Path>, moved: nat)
    requires |vols| == |finals| && moved <= |vols| && forall i :: 0 <= i < |vols| ==> vols[i] in before
  {
    && (forall i :: 0 <= i < moved ==> vols[i] !in now && Has(now, finals[i], before[vols[i]]))
    && (forall i :: moved <= i < |vols| ==> Has(now, vols[i], before[vols[i]]))
    && (forall p :: p !in vols && p !in finals[..moved] ==> SameAt(before, now, p))
  }

  /** In the middle of taking `moved` renames back: of the first `|kept|`, those `kept` could not be. */
  ghost predicate TakingBack(
      before: map<Path, seq<byte>>, now: map<Path, seq<byte>>, vols: seq<Path>, finals: seq<Path>, moved: nat,
      kept: seq<bool>)
    requires |vols| == |finals| && |kept| <= moved <= |vols| && forall i :: 0 <= i < |vols| ==> vols[i] in before
  {
    && (forall i :: 0 <= i < |kept| && !kept[i] ==> Has(now, vols[i], before[vols[i]]) && finals[i] !in now)
    && (forall i :: 0 <= i < moved && (i < |kept| ==> kept[i]) ==>
          vols[i] !in now && Has(now, finals[i], before[vols[i]]))
    && (forall i :: moved <= i < |vols| ==> vols[i] in now)
    && (forall p :: p !in vols && p !in finals[..moved] ==> SameAt(before, now, p))
  }

  /**
   What a commit that got as far as `moved` volumes leaves behind: no temporary file, the final names of those it
   moved and could not take back, and otherwise every file as it was.
   */
  ghost predicate Leaves(
      before: map<Path, seq<byte>>, after: map<Path, seq<byte>>, vols: seq<Path>, finals: seq<Path>, moved: nat,
      kept: seq<bool>)
    requires |vols| == |finals| && |kept| == moved <= |vols| && forall i :: 0 <= i < |vols| ==> vols[i] in before
  {
    && (forall i :: 0 <= i < |vols| ==> vols[i] !in after)
    && (forall i :: 0 <= i < moved ==>
          if kept[i] then Has(after, finals[i], before[vols[i]]) else finals[i] !in after)
    && (forall p :: p !in vols && p !in finals[..moved] ==> SameAt(before, after, p))
  }

  function AllKept(n: nat): seq<bool> {
    seq(n, _ => true)
  }

  /** What a failed rollback leaves is what it would leave, less the temporary files. */
  lemma DroppedLeaves(
      before: map<Path, seq<byte>>, now: map<Path, seq<byte>>, vols: seq<Path>, finals: seq<Path>, moved: nat,
      kept: seq<bool>)
    requires |kept| == moved <= |vols| && (forall i :: 0 <= i < |vols| ==> vols[i] in before) && Apart(vols, finals)
    requires TakingBack(before, now, vols, finals, moved, kept)
    ensures Leaves(before, Rest(now, vols), vols, finals, moved, kept)
  {
    var after := Rest(now, vols);
    assert forall p :: p !in vols ==> p !in Elements(vols) && SameAt(now, after, p);
    assert forall i :: 0 <= i < |vols| ==> vols[i] in Elements(vols);
    assert forall i :: 0 <= i < |finals| ==> finals[i] !in vols;
  }

  /** One more volume takes its final name. */
  lemma MovedOn(
      before: map<Path, seq<byte>>, now: map<Path, seq<byte>>, vols: seq<Path>, finals: seq<Path>, moved: nat)
    requires moved < |vols| && (forall i :: 0 <= i < |vols| ==> vols[i] in before) && Apart(vols, finals)
    requires Moving(before, now, vols, finals, moved)
    ensures var next := (now - {vols[moved]})[finals[moved] := before[vols[moved]]];
      Moving(before, next, vols, finals, moved + 1)
  {
    assert finals[..moved + 1] == finals[..moved] + [finals[moved]];
    assert finals[moved] in finals[..moved + 1];
  }

  /** One more of them is taken back. */
  lemma TookBack(
      before: map<Path, seq<byte>>, now: map<Path, seq<byte>>, vols: seq<Path>, finals: seq<Path>, moved: nat,
      kept: seq<bool>)
    requires |kept| < moved <= |vols| && (forall i :: 0 <= i < |vols| ==> vols[i] in before) && Apart(vols, finals)
    requires TakingBack(before, now, vols, finals, moved, kept)
    ensures var i := |kept|; var next := (now - {finals[i]})[vols[i] := before[vols[i]]];
      TakingBack(before, next, vols, finals, moved, kept + [false])
  {
    var i := |kept|;
    assert finals[i] in finals[..moved];
    assert vols[i] in vols;
  }

  /** Drop the temporary files that are left. */
  method DropAll(dir: Directory, vols: seq<Path>)
    modifies dir`files, dir`live
    ensures dir.files == Rest(old(dir.files), vols) && dir.live == old(dir.live) - Elements(vols)
  {
    for i := 0 to |vols|
      invariant dir.files == Rest(old(dir.files), vols[..i]) && dir.live == old(dir.live) - Elements(vols[..i])
    {
      dir.Discard(vols[i]);
      assert Elements(vols[..i + 1]) == Elements(vols[..i]) + {vols[i]} by {
        assert forall k :: 0 <= k < i ==> vols[..i + 1][k] == vols[..i][k];
        assert vols[..i + 1][i] == vols[i];
      }
    }
    assert vols[..|vols|] == vols;
  }

  /** Rename the volumes one after the other, up to the first failure. */
  method MoveAll(dir: Directory, vols: seq<Path>, finals: seq<Path>) returns (moved: nat)
    requires Apart(vols, finals) && forall i :: 0 <= i < |vols| ==> vols[i] in dir.files
    modifies dir`files, dir`faults
    ensures if moved == |vols| then dir.faults == old(dir.faults) else dir.faults > old(dir.faults)
    ensures moved <= |vols| && Moving(old(dir.files), dir.files, vols, finals, moved)
  {
    moved := 0;
    while moved < |vols|
      invariant moved <= |vols| && Moving(old(dir.files), dir.files, vols, finals, moved)
      invariant dir.faults == old(dir.faults)
    {
      MovedOn(old(dir.files), dir.files, vols, finals, moved);
      var ok := dir.Rename(vols[moved], finals[moved]);
      if !ok {
        return;
      }
      moved := moved + 1;
    }
  }

  /** Take the first `moved` renames back; those that cannot be are `kept`. */
  method TakeBack(dir: Directory, vols: seq<Path>, finals: seq<Path>, moved: nat, ghost before: map<Path, seq<byte>>)
    returns (kept: seq<bool>)
    requires Apart(vols, finals) && moved <= |vols| && forall i :: 0 <= i < |vols| ==> vols[i] in before
    requires Moving(before, dir.files, vols, finals, moved)
    modifies dir`files, dir`faults
    ensures |kept| == moved && TakingBack(before, dir.files, vols, finals, moved, kept)
    ensures dir.faults >= old(dir.faults) && (dir.faults == old(dir.faults) ==> forall i :: 0 <= i < moved ==> !kept[i])
  {
    kept := [];
    while |kept| < moved
      invariant |kept| <= moved && TakingBack(before, dir.files, vols, finals, moved, kept)
      invariant dir.faults >= old(dir.faults)
      invariant dir.faults == old(dir.faults) ==> forall i :: 0 <= i < |kept| ==> !kept[i]
      decreases moved - |kept|
    {
      TookBack(before, dir.files, vols, finals, moved, kept);
      var ok := dir.Rename(finals[|kept|], vols[|kept|]);
      kept := kept + [!ok];
    }
  }

  /** Give the volumes of `v` their final names; the set is used up. */
  method Commit(v: VolumeSet) returns (r: Result<seq<Path>, CommitError>, ghost moved: nat, ghost kept: seq<bool>)
    requires v.Valid()
    modifies v`vols, v.dir
    ensures v.vols == [] && v.dir.live == old(v.dir.live) - Elements(old(v.vols))
    ensures var n := |old(v.vols)|; var finals := Finals(v.target, n);
      && |kept| == moved <= n
      && Leaves(old(v.dir.files), v.dir.files, old(v.vols), finals, moved, kept)
      && match r
         case Ok(names) =>
           && n > 0 && names == finals && moved == n && kept == AllKept(n)
           && StaleName(v.target, n) !in old(v.dir.files) && StaleName(v.target, n) !in v.dir.files
           && v.dir.faults == old(v.dir.faults)
         case Err(NothingWritten) => n == 0
         case Err(StaleVolume(p)) => n > 0 && p == StaleName(v.target, n) && p in old(v.dir.files) && moved == 0
         case Err(RenameFailed) =>
           moved < n && StaleName(v.target, n) !in old(v.dir.files) && v.dir.faults > old(v.dir.faults)
  {
    var vols := v.vols;
    var n := |vols|;
    ghost var before := v.dir.files;
    moved, kept := 0, [];
    FinalsAreApart(before, v.dir.live, vols, v.target, v.size);
    v.vols := [];
    if n == 0 {
      return Err(NothingWritten), moved, kept;
    }
    var finals := Finals(v.target, n);
    var stale := StaleName(v.target, n);
    var there := v.dir.Exists(stale);
    if there {
      DroppedLeaves(before, before, vols, finals, 0, []);
      DropAll(v.dir, vols);
      return Err(StaleVolume(stale)), moved, kept;
    }
    var count := MoveAll(v.dir, vols, finals);
    moved := count;
    if count == n {
      kept := AllKept(n);
      ForgetAll(v.dir, vols);
      return Ok(finals), moved, kept;
    }
    var stuck := TakeBack(v.dir, vols, finals, count, before);
    kept := stuck;
    DroppedLeaves(before, v.dir.files, vols, finals, count, stuck);
    DropAll(v.dir, vols);
    r := Err(RenameFailed);
  }

  /** What dropping temporary files does once they are committed. */
  method ForgetAll(dir: Directory, vols: seq<Path>)
    modifies dir`live
    ensures dir.live == old(dir.live) - Elements(vols)
  {
    for i := 0 to |vols|
      invariant dir.live == old(dir.live) - Elements(vols[..i])
    {
      dir.Forget(vols[i]);
      assert Elements(vols[..i + 1]) == Elements(vols[..i]) + {vols[i]} by {
        assert forall k :: 0 <= k < i ==> vols[..i + 1][k] == vols[..i][k];
        assert vols[..i + 1][i] == vols[i];
      }
    }
    assert vols[..|vols|] == vols;
  }

  /** Moved nothing: every file but the temporary ones is as it was. */
  lemma RefusedMovesNothing(
      before: map<Path, seq<byte>>, after: map<Path, seq<byte>>, vols: seq<Path>, finals: seq<Path>)
    requires (forall i :: 0 <= i < |vols| ==> vols[i] in before) && Apart(vols, finals)
    requires Leaves(before, after, vols, finals, 0, [])
    ensures after == Rest(before, vols)
  {
    RestoresExactlyWhen(before, after, vols, finals, 0, []);
  }

  /**
   All or nothing: a commit that fails leaves the directory as it would be without the set, exactly if the renames
   that it made and took back had replaced no file, and those that stuck changed none.
   */
  lemma RestoresExactlyWhen(
      before: map<Path, seq<byte>>, after: map<Path, seq<byte>>, vols: seq<Path>, finals: seq<Path>, moved: nat,
      kept: seq<bool>)
    requires |kept| == moved <= |vols| && (forall i :: 0 <= i < |vols| ==> vols[i] in before) && Apart(vols, finals)
    requires Leaves(before, after, vols, finals, moved, kept)
    ensures after == Rest(before, vols) <==>
            forall i :: 0 <= i < moved ==>
              if kept[i] then Has(before, finals[i], before[vols[i]]) else finals[i] !in before
  {
    var rest := Rest(before, vols);
    assert forall p :: p !in vols ==> p !in Elements(vols) && SameAt(before, rest, p);
    assert forall i :: 0 <= i < |vols| ==> vols[i] in Elements(vols);
    assert forall i :: 0 <= i < moved ==> finals[i] !in vols && finals[i] in finals[..moved];
    if forall i :: 0 <= i < moved ==> if kept[i] then Has(before, finals[i], before[vols[i]]) else finals[i] !in before {
      forall p
        ensures SameAt(after, rest, p)
      {
        if p !in vols && p !in finals[..moved] {
          assert SameAt(before, after, p);
        }
      }
      SameEverywhere(after, rest);
    }
  }

  function NoneKept(n: nat): (r: seq<bool>)
    ensures |r| == n
  {
    seq(n, _ => false)
  }

  /** What is left when the first `moved` renames were made and taken back. */
  function RolledBack(before: map<Path, seq<byte>>, vols: seq<Path>, finals: seq<Path>, moved: nat): map<Path, seq<byte>>
    requires moved <= |finals|
  {
    map p | p in before && p !in vols && p !in finals[..moved] :: before[p]
  }

  lemma RolledBackLeaves(before: map<Path, seq<byte>>, vols: seq<Path>, finals: seq<Path>, moved: nat)
    requires moved <= |vols| && (forall i :: 0 <= i < |vols| ==> vols[i] in before) && Apart(vols, finals)
    ensures Leaves(before, RolledBack(before, vols, finals, moved), vols, finals, moved, NoneKept(moved))
  {
    assert forall i :: 0 <= i < moved ==> finals[i] in finals[..moved];
  }

  /**
   What a caller can look at beforehand: whichever rename fails, a rollback that works restores the directory, exactly
   if none of the final names but the last is there before the call.
   */
  lemma RollbackRestoresExactlyWhen(before: map<Path, seq<byte>>, vols: seq<Path>, finals: seq<Path>)
    requires |vols| > 0 && (forall i :: 0 <= i < |vols| ==> vols[i] in before) && Apart(vols, finals)
    ensures (forall moved: nat, after ::
               moved < |vols| && Leaves(before, after, vols, finals, moved, NoneKept(moved)) ==>
                 after == Rest(before, vols))
            <==> forall i :: 0 <= i < |vols| - 1 ==> finals[i] !in before
  {
    forall moved: nat, after |
      moved < |vols| && Leaves(before, after, vols, finals, moved, NoneKept(moved))
      ensures after == Rest(before, vols) <==> forall i :: 0 <= i < moved ==> finals[i] !in before
    {
      RestoresExactlyWhen(before, after, vols, finals, moved, NoneKept(moved));
    }
    RolledBackLeaves(before, vols, finals, |vols| - 1);
  }

  lemma SameEverywhere(a: map<Path, seq<byte>>, b: map<Path, seq<byte>>)
    requires forall p :: SameAt(a, b, p)
    ensures a == b
  {
    forall p
      ensures p in a <==> p in b
    {
      assert SameAt(a, b, p);
    }
    forall p | p in a
      ensures a[p] == b[p]
    {
      assert SameAt(a, b, p);
    }
  }

  /**
   With no destination there beforehand, a failing commit leaves no trace if the renames it made can be taken back,
   and otherwise exactly the final names that stuck.
   */
  lemma AllOrNothing(
      before: map<Path, seq<byte>>, after: map<Path, seq<byte>>, vols: seq<Path>, finals: seq<Path>, moved: nat,
      kept: seq<bool>)
    requires |kept| == moved <= |vols| && (forall i :: 0 <= i < |vols| ==> vols[i] in before) && Apart(vols, finals)
    requires Leaves(before, after, vols, finals, moved, kept)
    requires forall i :: 0 <= i < |finals| ==> finals[i] !in before
    ensures after == Rest(before, vols) <==> forall i :: 0 <= i < moved ==> !kept[i]
    ensures forall i :: 0 <= i < |finals| ==> (finals[i] in after <==> i < moved && kept[i])
  {
    RestoresExactlyWhen(before, after, vols, finals, moved, kept);
    forall i | moved <= i < |finals|
      ensures finals[i] !in after
    {
      UnreachedIsUntouched(before, after, vols, finals, moved, kept, i);
    }
  }

  /** A destination that the renames did not reach keeps its content, whatever happened. */
  lemma UnreachedIsUntouched(
      before: map<Path, seq<byte>>, after: map<Path, seq<byte>>, vols: seq<Path>, finals: seq<Path>, moved: nat,
      kept: seq<bool>, j: nat)
    requires |kept| == moved <= j < |vols| && (forall i :: 0 <= i < |vols| ==> vols[i] in before) && Apart(vols, finals)
    requires Leaves(before, after, vols, finals, moved, kept)
    ensures SameAt(before, after, finals[j])
  {
    assert finals[j] !in vols && finals[j] !in finals[..moved];
  }

  /** Success leaves exactly the final names, with the volumes' contents, beside what was there. */
  lemma SuccessLeavesTheFinals(
      before: map<Path, seq<byte>>, after: map<Path, seq<byte>>, vols: seq<Path>, finals: seq<Path>)
    requires (forall i :: 0 <= i < |vols| ==> vols[i] in before) && Apart(vols, finals)
    requires Leaves(before, after, vols, finals, |vols|, AllKept(|vols|))
    ensures (forall i :: 0 <= i < |finals| ==> finals[i] in after)
    ensures Contents(after, finals) == Contents(before, vols)
    ensures after.Keys == Rest(before, vols).Keys + Elements(finals)
    ensures forall p :: p in Rest(before, vols) && p !in finals ==> after[p] == before[p]
  {
    var n := |vols|;
    assert finals[..n] == finals;
    assert forall i :: 0 <= i < n ==> Has(after, finals[i], before[vols[i]]);
    forall p
      ensures p in after <==> p in Rest(before, vols) || p in Elements(finals)
    {
      if p in finals {
        assert p in Elements(finals);
      } else if p in vols {
        assert p in Elements(vols);
      } else {
        assert SameAt(before, after, p);
      }
    }
  }
}
