/** The parts of the big-file path that work step by step: filling a chunk, the slots, collecting, sealing. */
module BigFiles {
  import opened Wrappers
  import opened Containers
  import opened FlatFile
  import opened Pipelines

  /** A source that hands out its bytes in pieces of its own choosing, and may fail. */
  class Source {
    var rest: seq<byte>
    ghost var faults: nat

    constructor (bytes: seq<byte>)
      ensures rest == bytes && faults == 0
    {
      rest, faults := bytes, 0;
    }

    /** At most `most` bytes; none only at the end. */
    method Read(most: nat) returns (r: Option<seq<byte>>)
      requires most > 0
      modifies this
      ensures r.None? ==> rest == old(rest)
      ensures faults == old(faults) + if r.Some? then 0 else 1
      ensures r.Some? ==> old(rest) == r.value + rest && |r.value| <= most && (r.value == [] <==> old(rest) == [])
    {
      if * {
        faults := faults + 1;
        return None;
      }
      if rest == [] {
        return Some([]);
      }
      var n: nat :| 0 < n <= most && n <= |rest|;
      r := Some(rest[..n]);
      rest := rest[n..];
    }
  }

  /** Fill a chunk however short the reads are: it is full unless the source ends with it. */
  method FillChunk(src: Source) returns (r: Option<seq<byte>>)
    modifies src
    ensures r.Some? ==> old(src.rest) == r.value + src.rest && |r.value| <= CHUNK
    ensures r.Some? && |r.value| < CHUNK ==> src.rest == []
    ensures r.None? ==> exists got :: |got| < CHUNK && old(src.rest) == got + src.rest
    ensures r.Some? <==> src.faults == old(src.faults)
  {
    var buf := [];
    while |buf| < CHUNK
      invariant |buf| <= CHUNK && old(src.rest) == buf + src.rest && src.faults == old(src.faults)
      decreases |src.rest|
    {
      var d := src.Read(CHUNK - |buf|);
      if d.None? {
        return None;
      }
      if d.value == [] {
        break;
      }
      buf := buf + d.value;
    }
    r := Some(buf);
  }

  datatype Attempt = Refused | Acquired | MustWait

  /** The upper bound on chunks that are not written yet. */
  class Slots {
    var used: nat
    const limit: nat

    constructor (limit: nat)
      ensures used == 0 && this.limit == limit
    {
      this.used, this.limit := 0, limit;
    }

    /** One pass of the loop that waits for a slot. */
    method Acquire(canceled: bool, live: bool) returns (a: Attempt)
      modifies this
      ensures a == Refused <==> canceled || !live
      ensures a == Acquired <==> !canceled && live && old(used) < limit
      ensures used == if a == Acquired then old(used) + 1 else old(used)
      ensures old(used) <= limit ==> used <= limit
    {
      if canceled || !live {
        return Refused;
      }
      if used < limit {
        used := used + 1;
        return Acquired;
      }
      a := MustWait;
    }

    /** A slot is given back; one that was never taken is not. */
    method Release()
      modifies this
      ensures used == if old(used) > 0 then old(used) - 1 else 0
    {
      if used > 0 {
        used := used - 1;
      }
    }
  }

  datatype CollectError = ChunkFailed | WriteFailed | ChunkMissing

  type Arrivals = seq<(nat, Option<seq<byte>>)>

  /** The compressed chunks by their numbers. */
  function Got(rx: Arrivals): map<nat, seq<byte>> {
    if rx == [] then map[]
    else
      var front, last := Got(rx[..|rx| - 1]), rx[|rx| - 1];
      if last.1.Some? then front[last.0 := last.1.value] else front
  }

  /** No chunk arrives twice. */
  ghost predicate Unrepeated(rx: Arrivals) {
    forall i, j :: 0 <= i < j < |rx| ==> rx[i].0 != rx[j].0
  }

  ghost predicate AllPacked(rx: Arrivals) {
    forall i :: 0 <= i < |rx| ==> rx[i].1.Some?
  }

  /** The chunks 0 to `n - 1`, and no others. */
  ghost predicate FirstOnes(keys: set<nat>, n: nat) {
    forall k: nat :: k in keys <==> k < n
  }

  /** The first `n` chunks in the order of their numbers. */
  function InOrder(got: map<nat, seq<byte>>, n: nat): seq<byte>
    requires forall k: nat :: k < n ==> k in got
  {
    if n == 0 then [] else InOrder(got, n - 1) + got[n - 1]
  }

  lemma {:induction false} MoreKeepsOrder(got: map<nat, seq<byte>>, k: nat, b: seq<byte>, n: nat)
    requires (forall j: nat :: j < n ==> j in got) && k >= n
    ensures InOrder(got[k := b], n) == InOrder(got, n)
  {
    if n > 0 {
      MoreKeepsOrder(got, k, b, n - 1);
    }
  }

  lemma {:induction false} GotIsFromArrivals(rx: Arrivals)
    ensures forall k :: k in Got(rx) ==> exists i :: 0 <= i < |rx| && rx[i].0 == k
    decreases |rx|
  {
    if rx != [] {
      GotIsFromArrivals(rx[..|rx| - 1]);
    }
  }

  /** Whoever writes the file that is collected into. */
  class Sink {
    var bytes: seq<byte>
    ghost var faults: nat

    constructor ()
      ensures bytes == [] && faults == 0
    {
      bytes, faults := [], 0;
    }

    method WriteAll(d: seq<byte>) returns (ok: bool)
      modifies this
      ensures ok ==> bytes == old(bytes) + d
      ensures faults == old(faults) + if ok then 0 else 1
    {
      if * {
        faults := faults + 1;
        ok := false;
      } else {
        bytes := bytes + d;
        ok := true;
      }
    }

    method Flush() returns (ok: bool)
      modifies this`faults
      ensures faults == old(faults) + if ok then 0 else 1
    {
      if * {
        faults := faults + 1;
        return false;
      }
      ok := true;
    }
  }

  /** Where the loop of the collector is: `next` chunks written, the others that arrived pending. */
  ghost predicate Collecting(got: map<nat, seq<byte>>, pending: map<nat, seq<byte>>, next: nat, body: seq<byte>) {
    && (forall k: nat :: k < next ==> k in got)
    && (forall k: nat :: k in pending <==> k in got && k >= next)
    && (forall k :: k in pending ==> pending[k] == got[k])
    && body == InOrder(got, next)
  }

  lemma OneMoreCollected(got: map<nat, seq<byte>>, pending: map<nat, seq<byte>>, next: nat, body: seq<byte>,
                         k: nat, b: seq<byte>)
    requires Collecting(got, pending, next, body) && k !in got
    ensures Collecting(got[k := b], pending[k := b], next, body)
  {
    MoreKeepsOrder(got, k, b, next);
  }

  lemma ArrivesOnce(rx: Arrivals, i: nat)
    requires Unrepeated(rx) && i < |rx|
    ensures rx[i].0 !in Got(rx[..i])
    ensures rx[i].1.Some? ==> Got(rx[..i + 1]) == Got(rx[..i])[rx[i].0 := rx[i].1.value]
  {
    GotIsFromArrivals(rx[..i]);
    assert rx[..i + 1][..i] == rx[..i];
  }

  /** The slots that are left when `n` were given back. */
  function Freed(used: nat, n: nat): nat {
    if used > n then used - n else 0
  }

  /** With a chunk pending behind a gap the chunks are not the first ones. */
  lemma NotFirst(got: map<nat, seq<byte>>, pending: map<nat, seq<byte>>, next: nat, body: seq<byte>)
    requires Collecting(got, pending, next, body) && next !in pending && pending != map[]
    ensures forall n: nat :: !FirstOnes(got.Keys, n)
  {
    var k :| k in pending;
    forall n: nat
      ensures !FirstOnes(got.Keys, n)
    {
      assert k in got.Keys && next !in got.Keys && next < k;
    }
  }

  /** Write the chunks whose turn it is, and give their slots back. */
  method Drain(ghost got: map<nat, seq<byte>>, waiting: map<nat, seq<byte>>, from: nat, slots: Slots, out: Sink)
    returns (ok: bool, pending: map<nat, seq<byte>>, next: nat)
    requires Collecting(got, waiting, from, out.bytes)
    modifies slots, out
    ensures ok ==> Collecting(got, pending, next, out.bytes) && next !in pending && next >= from
    ensures ok ==> slots.used == Freed(old(slots.used), next - from)
    ensures out.faults == old(out.faults) + if ok then 0 else 1
  {
    pending, next := waiting, from;
    while next in pending
      invariant Collecting(got, pending, next, out.bytes) && next >= from
      invariant slots.used == Freed(old(slots.used), next - from) && out.faults == old(out.faults)
      decreases |pending|
    {
      ok := out.WriteAll(pending[next]);
      if !ok {
        return;
      }
      OneLess(pending, next);
      pending := pending - {next};
      next := next + 1;
      slots.Release();
    }
    ok := true;
  }

  /**
   Put what arrives back into order and write it, giving a slot back for each chunk written. That works exactly if
   every chunk could be compressed, every write worked and no chunk is missing in front of another.
   */
  method Collect(rx: Arrivals, slots: Slots, out: Sink) returns (r: Result<nat, CollectError>)
    requires Unrepeated(rx) && out.bytes == []
    modifies slots, out
    ensures r.Ok? ==>
              && AllPacked(rx) && FirstOnes(Got(rx).Keys, r.value)
              && out.bytes == InOrder(Got(rx), r.value) && slots.used == Freed(old(slots.used), r.value)
    ensures r == Err(ChunkFailed) ==> !AllPacked(rx)
    ensures r == Err(WriteFailed) <==> out.faults > old(out.faults)
    ensures r == Err(ChunkMissing) ==> AllPacked(rx) && forall n: nat :: !FirstOnes(Got(rx).Keys, n)
  {
    var pending: map<nat, seq<byte>>, next := map[], 0;
    for i := 0 to |rx|
      invariant Collecting(Got(rx[..i]), pending, next, out.bytes) && next !in pending
      invariant slots.used == Freed(old(slots.used), next) && out.faults == old(out.faults)
      invariant AllPacked(rx[..i])
    {
      var (k, res) := rx[i];
      if res.None? {
        return Err(ChunkFailed);
      }
      ArrivesOnce(rx, i);
      OneMoreCollected(Got(rx[..i]), pending, next, out.bytes, k, res.value);
      pending := pending[k := res.value];
      var ok;
      ok, pending, next := Drain(Got(rx[..i + 1]), pending, next, slots, out);
      if !ok {
        return Err(WriteFailed);
      }
    }
    assert rx[..|rx|] == rx;
    if pending != map[] {
      NotFirst(Got(rx), pending, next, out.bytes);
      return Err(ChunkMissing);
    }
    var flushed := out.Flush();
    r := if flushed then Ok(next) else Err(WriteFailed);
  }

  /** A file with a position. */
  class OutFile {
    var bytes: seq<byte>
    var pos: nat
    ghost var faults: nat

    method SeekTo(p: nat) returns (ok: bool)
      modifies this`pos, this`faults
      ensures ok ==> pos == p
      ensures faults == old(faults) + if ok then 0 else 1
    {
      if * {
        faults := faults + 1;
        return false;
      }
      pos := p;
      ok := true;
    }

    method WriteAll(d: seq<byte>) returns (ok: bool)
      modifies this
      ensures faults == old(faults) + if ok then 0 else 1
      ensures ok ==> bytes == Written(old(bytes), old(pos), d) && pos == old(pos) + |d|
    {
      if * {
        faults := faults + 1;
        return false;
      }
      bytes, pos := Written(bytes, pos, d), pos + |d|;
      ok := true;
    }

    method SetLen(n: nat) returns (ok: bool)
      modifies this`bytes, this`faults
      ensures faults == old(faults) + if ok then 0 else 1
      ensures ok ==> bytes == Resized(old(bytes), n)
    {
      if * {
        faults := faults + 1;
        return false;
      }
      bytes := Resized(bytes, n);
      ok := true;
    }
  }

  lemma HeaderOverPlaceholder(place: seq<byte>, body: seq<byte>, header: seq<byte>)
    requires |header| == |place|
    ensures Written(place + body, 0, header) == header + body
  {
    assert PadTo(place + body, |header|) == place + body;
  }

  lemma WrittenBehind(s: seq<byte>, tail: seq<byte>)
    ensures Written(s, |s|, tail) == s + tail
    ensures Resized(s + tail, |s| + |tail|) == s + tail
  {
    assert PadTo(s, |s| + |tail|)[..|s|] == s;
  }

  /**
   Close the container: the local header goes into the place kept for it, the other two behind the body, and
   the body is untouched.
   */
  method Seal(file: OutFile, e: Entry, ghost body: seq<byte>) returns (ok: bool)
    requires Fits(e) && |body| == e.csize && |file.bytes| == LOCAL_LEN + e.csize && file.bytes[LOCAL_LEN..] == body
    modifies file
    ensures ok <==> file.faults == old(file.faults)
    ensures ok ==> file.bytes == Archive(e, body) && file.pos == 0
    ensures ok ==> |file.bytes| == LOCAL_LEN + e.csize + CENTRAL_LEN + END_LEN
  {
    var lh := LocalHeader(e);
    ok := file.SeekTo(0);
    if !ok {
      return;
    }
    LocalLength(e);
    ghost var place := file.bytes[..LOCAL_LEN];
    assert file.bytes == place + body;
    HeaderOverPlaceholder(place, body, lh);
    ok := file.WriteAll(lh);
    if !ok {
      return;
    }
    var place2 := LOCAL_LEN + e.csize;
    ok := file.SeekTo(place2);
    if !ok {
      return;
    }
    var tail := CentralHeader(e) + EndRecord(CENTRAL_LEN, place2);
    WrittenBehind(lh + body, tail);
    ok := file.WriteAll(tail);
    if !ok {
      return;
    }
    ok := file.SetLen(place2 + |tail|);
    if !ok {
      return;
    }
    Regroup(lh, body, CentralHeader(e), EndRecord(CENTRAL_LEN, place2));
    ArchiveLength(e, body);
    ok := file.SeekTo(0);
  }
}
