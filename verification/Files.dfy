/**
 A directory of files, and the temporary files that results are built in.

 Every operation may fail, and then changes nothing; which ones do is left open, and `faults` counts them. Removing
 a temporary file is taken to work. `live` is the list of temporary files that the program reports when it ends.
 */
module Files {
  import opened Wrappers
  import opened FlatFile

  type Path = string

  const TMP_MARK := ".zmtmp-"

  const TOKEN_LENGTH := 32

  predicate IsHex(c: char) {
    '0' <= c <= '9' || 'a' <= c <= 'f'
  }

  predicate IsToken(s: string) {
    |s| == TOKEN_LENGTH && forall i :: 0 <= i < |s| ==> IsHex(s[i])
  }

  /** `tmp` is a temporary name for `target`. */
  predicate IsTmpOf(tmp: Path, target: Path) {
    && |tmp| == |target| + |TMP_MARK| + TOKEN_LENGTH
    && tmp[..|target|] == target && tmp[|target|..|target| + |TMP_MARK|] == TMP_MARK
    && IsToken(tmp[|target| + |TMP_MARK|..])
  }

  /** Some name is free to be tried: every token is as good as another. */
  lemma TokensExist()
    ensures exists t :: IsToken(t)
  {
    var t := seq(TOKEN_LENGTH, _ => '0');
    assert IsToken(t);
  }

  class Directory {
    var files: map<Path, seq<byte>>
    var live: set<Path>
    ghost var faults: nat

    /** Create a temporary file next to `target`, under a name nobody uses. */
    method OpenNewTmp(target: Path) returns (r: Option<Path>)
      modifies this
      ensures r.None? ==> files == old(files) && live == old(live) && faults == old(faults) + 1
      ensures r.Some? ==>
                && IsTmpOf(r.value, target) && r.value !in old(files)
                && files == old(files)[r.value := []] && live == old(live) + {r.value} && faults == old(faults)
    {
      for attempt := 0 to 8
        invariant files == old(files) && live == old(live) && faults == old(faults)
      {
        TokensExist();
        var token :| IsToken(token);
        var tmp := target + TMP_MARK + token;
        assert IsTmpOf(tmp, target) by {
          assert tmp[..|target|] == target && tmp[|target|..|target| + |TMP_MARK|] == TMP_MARK;
          assert tmp[|target| + |TMP_MARK|..] == token;
        }
        if tmp !in files {
          if * {
            faults := faults + 1;
            return None;
          }
          files := files[tmp := []];
          live := live + {tmp};
          return Some(tmp);
        }
      }
      faults := faults + 1;
      r := None;
    }

    /** What dropping a temporary file that was not committed does. */
    method Discard(tmp: Path)
      modifies this`files, this`live
      ensures files == old(files) - {tmp} && live == old(live) - {tmp}
    {
      files := files - {tmp};
      live := live - {tmp};
    }

    /** What dropping a committed one does. */
    method Forget(tmp: Path)
      modifies this`live
      ensures live == old(live) - {tmp}
    {
      live := live - {tmp};
    }

    /** A rename replaces whatever had the new name. */
    method Rename(src: Path, dst: Path) returns (ok: bool)
      modifies this`files, this`faults
      ensures faults == old(faults) + if ok || src !in old(files) then 0 else 1
      ensures ok ==> src in old(files) && files == (old(files) - {src})[dst := old(files)[src]]
      ensures !ok ==> files == old(files)
    {
      if src !in files {
        return false;
      }
      if * {
        faults := faults + 1;
        return false;
      }
      files := (files - {src})[dst := files[src]];
      ok := true;
    }

    method Exists(p: Path) returns (b: bool)
      ensures b <==> p in files
    {
      b := p in files;
    }

    method SetLen(p: Path, n: nat) returns (ok: bool)
      requires p in files
      modifies this`files, this`faults
      ensures faults == old(faults) + if ok then 0 else 1
      ensures ok ==> files == old(files)[p := Resized(old(files)[p], n)]
      ensures !ok ==> files == old(files)
    {
      if * {
        faults := faults + 1;
        return false;
      }
      files := files[p := Resized(files[p], n)];
      ok := true;
    }

    /** Seek and write everything: a failure may leave some of the bytes written. */
    method WriteAt(p: Path, off: nat, d: seq<byte>) returns (ok: bool, n: nat)
      requires p in files && |d| > 0
      modifies this`files, this`faults
      ensures faults == old(faults) + if ok then 0 else 1
      ensures n <= |d| && (ok ==> n == |d|)
      ensures files == if n == 0 then old(files) else old(files)[p := Written(old(files)[p], off, d[..n])]
    {
      n :| 0 <= n <= |d|;
      if n > 0 {
        files := files[p := Written(files[p], off, d[..n])];
      }
      ok := n == |d|;
      if !ok {
        faults := faults + 1;
      }
    }
  }
}
