/**
 The stream that the 7-Zip engine writes into: over a bounded buffer in memory, or over a set of volumes. Both are
 specified by what they make of one flat file and a position, and the two specifications are then compared.
 */
module OutStreams {
  import opened Wrappers
  import opened FlatFile
  import opened Positions
  import opened VolumeSets

  const STREAM_SEEK_SET := 0
  const STREAM_SEEK_CUR := 1
  const STREAM_SEEK_END := 2

  datatype Stream = Stream(data: seq<byte>, pos: nat)

  datatype Op = Write(src: seq<byte>) | Seek(offset: i64, origin: nat) | SetSize(size: nat)

  datatype Reply = Done(ok: bool) | At(to: Option<nat>)

  /** A number cast to 64 bits. */
  function Low64(n: nat): u64 {
    if n < TWO64 then n else n % TWO64
  }

  /** Where a seek goes: never below zero, and nowhere on an unknown origin or on overflow. */
  function SeekTo(s: Stream, offset: i64, origin: nat): Option<nat> {
    var base :=
      if origin == STREAM_SEEK_SET then Some(0)
      else if origin == STREAM_SEEK_CUR then Some(AsI64(Low64(s.pos)))
      else if origin == STREAM_SEEK_END then Some(AsI64(Low64(|s.data|)))
      else None;
    if base.None? then None
    else match CheckedAdd(base.value, offset)
         case None => None
         case Some(p) => Some(if p < 0 then 0 else p)
  }

  /** What an operation does to the stream in memory, which holds at most `cap` bytes. */
  function DoInMemory(cap: nat, s: Stream, op: Op): (Stream, Reply) {
    match op
    case Write(src) =>
      if s.pos + |src| >= TWO64 || s.pos + |src| > cap then (s, Done(false))
      else (Stream(Written(s.data, s.pos, src), s.pos + |src|), Done(true))
    case Seek(offset, origin) =>
      var to := SeekTo(s, offset, origin);
      if to.None? || to.value > cap then (s, At(None)) else (s.(pos := to.value), At(to))
    case SetSize(size) =>
      if size > cap then (s, Done(false)) else (s.(data := Resized(s.data, size)), Done(true))
  }

  /** What it does to the stream over volumes, as long as no file operation fails. */
  function DoOverVolumes(s: Stream, op: Op): (Stream, Reply) {
    match op
    case Write(src) => (Stream(AfterWrite(s.data, s.pos, src), s.pos + |src|), Done(true))
    case Seek(offset, origin) =>
      var to := SeekTo(s, offset, origin);
      if to.None? then (s, At(None)) else (s.(pos := to.value), At(to))
    case SetSize(size) => (s.(data := Resized(s.data, size)), Done(true))
  }

  /** The operation stays within the first `cap` bytes. */
  predicate Within(cap: nat, s: Stream, op: Op) {
    match op
    case Write(src) => s.pos + |src| <= cap
    case Seek(offset, origin) => var to := SeekTo(s, offset, origin); to.Some? ==> to.value <= cap
    case SetSize(size) => size <= cap
  }

  /** Not a write of no bytes behind the end, which makes a hole in memory but none over volumes. */
  predicate NoEmptyWriteBeyond(s: Stream, op: Op) {
    op == Write([]) ==> s.pos <= |s.data|
  }

  predicate Fits(cap: nat, s: Stream) {
    |s.data| <= cap && s.pos <= cap < TWO64
  }

  /** In memory the cap is never exceeded, whatever is asked. */
  lemma MemoryStaysFit(cap: nat, s: Stream, op: Op)
    requires Fits(cap, s)
    ensures Fits(cap, DoInMemory(cap, s, op).0)
  {
  }

  /** One operation has the same effect and the same reply on both, exactly if it stays within the cap. */
  lemma OneAgrees(cap: nat, s: Stream, op: Op)
    requires Fits(cap, s)
    ensures DoInMemory(cap, s, op) == DoOverVolumes(s, op) <==> Within(cap, s, op) && NoEmptyWriteBeyond(s, op)
  {
    if op == Write([]) {
      var padded := Written(s.data, s.pos, []);
      assert padded == PadTo(s.data, s.pos);
      assert s.pos <= |s.data| ==> padded == s.data;
    }
  }

  /** The states and replies of a run in memory. */
  function MemoryTrace(cap: nat, s: Stream, ops: seq<Op>): seq<(Stream, Reply)>
    decreases |ops|
  {
    if ops == [] then []
    else var after := DoInMemory(cap, s, ops[0]); [after] + MemoryTrace(cap, after.0, ops[1..])
  }

  function VolumesTrace(s: Stream, ops: seq<Op>): seq<(Stream, Reply)>
    decreases |ops|
  {
    if ops == [] then []
    else var after := DoOverVolumes(s, ops[0]); [after] + VolumesTrace(after.0, ops[1..])
  }

  /** Every operation of a run over volumes stays within the cap, and none is an empty write behind the end. */
  predicate StaysWithin(cap: nat, s: Stream, ops: seq<Op>)
    decreases |ops|
  {
    ops == [] ||
    (Within(cap, s, ops[0]) && NoEmptyWriteBeyond(s, ops[0]) && StaysWithin(cap, DoOverVolumes(s, ops[0]).0, ops[1..]))
  }

  /** Whole runs agree step by step exactly if they stay within the cap. */
  lemma {:induction false} RunsAgree(cap: nat, s: Stream, ops: seq<Op>)
    requires Fits(cap, s)
    ensures MemoryTrace(cap, s, ops) == VolumesTrace(s, ops) <==> StaysWithin(cap, s, ops)
    decreases |ops|
  {
    if ops != [] {
      OneAgrees(cap, s, ops[0]);
      MemoryStaysFit(cap, s, ops[0]);
      var m, v := DoInMemory(cap, s, ops[0]), DoOverVolumes(s, ops[0]);
      assert MemoryTrace(cap, s, ops)[0] == m && VolumesTrace(s, ops)[0] == v;
      if m == v {
        RunsAgree(cap, m.0, ops[1..]);
        assert MemoryTrace(cap, s, ops)[1..] == MemoryTrace(cap, m.0, ops[1..]);
        assert VolumesTrace(s, ops)[1..] == VolumesTrace(v.0, ops[1..]);
      }
    }
  }

  /** So no run in memory ever holds, or stands behind, more than `cap` bytes. */
  lemma {:induction false} MemoryNeverExceedsTheCap(cap: nat, s: Stream, ops: seq<Op>, i: nat)
    requires Fits(cap, s) && i < |MemoryTrace(cap, s, ops)|
    ensures Fits(cap, MemoryTrace(cap, s, ops)[i].0)
    decreases |ops|
  {
    MemoryStaysFit(cap, s, ops[0]);
    if i > 0 {
      MemoryNeverExceedsTheCap(cap, DoInMemory(cap, s, ops[0]).0, ops[1..], i - 1);
    }
  }

  /** Growing a buffer where needed and copying over it is writing. */
  lemma CopiedOver(s: seq<byte>, p: nat, d: seq<byte>)
    ensures var v := if p + |d| > |s| then Resized(s, p + |d|) else s;
      v[..p] + d + v[p + |d|..] == Written(s, p, d)
  {
  }

  /** The bytes of the stream in memory, shared with whoever reads them afterwards. */
  class Buffer {
    var bytes: seq<byte>

    constructor ()
      ensures bytes == []
    {
      bytes := [];
    }
  }

  datatype Backing = Mem(buf: Buffer) | Volumes(set_: VolumeSet)

  class OutInner {
    const backing: Backing
    const memCap: nat
    var pos: nat

    constructor (backing: Backing, memCap: nat)
      ensures this.backing == backing && this.memCap == memCap && pos == 0
    {
      this.backing, this.memCap, this.pos := backing, memCap, 0;
    }

    ghost function Repr(): set<object> {
      match backing
      case Mem(buf) => {buf}
      case Volumes(v) => {v, v.dir}
    }

    ghost predicate Valid()
      reads this, Repr()
    {
      && memCap < TWO64
      && match backing
         case Mem(buf) => true
         case Volumes(v) => v.Valid()
    }

    ghost function State(): Stream
      requires Valid()
      reads this, Repr()
    {
      match backing
      case Mem(buf) => Stream(buf.bytes, pos)
      case Volumes(v) => Stream(v.Data(), pos)
    }

    /** How often the disk has failed so far. */
    ghost function Faults(): nat
      reads Repr()
    {
      match backing
      case Mem(_) => 0
      case Volumes(v) => v.dir.faults
    }

    method WriteInMemory(buf: Buffer, src: seq<byte>) returns (ok: bool)
      requires Valid() && pos < TWO64 && backing == Mem(buf)
      modifies this`pos, buf
      ensures Valid() && (State(), Done(ok)) == DoInMemory(memCap, old(State()), Write(src))
    {
      if pos + |src| >= TWO64 || pos + |src| > memCap {
        return false;
      }
      var v := buf.bytes;
      if pos + |src| > |v| {
        v := Resized(v, pos + |src|);
      }
      CopiedOver(buf.bytes, pos, src);
      buf.bytes := v[..pos] + src + v[pos + |src|..];
      pos := pos + |src|;
      ok := true;
    }

    method WriteOverVolumes(v: VolumeSet, src: seq<byte>) returns (ok: bool)
      requires Valid() && backing == Volumes(v)
      modifies this`pos, v, v.dir
      ensures Valid() && (ok <==> v.dir.faults == old(v.dir.faults))
      ensures ok ==> pos == old(pos) + |src| && v.Data() == AfterWrite(old(v.Data()), old(pos), src)
      ensures !ok ==> pos == old(pos) && PartlyWritten(old(v.Data()), pos, src, v.Data())
    {
      v.pos := pos;
      ok := v.WriteAll(src);
      if ok {
        pos := pos + |src|;
      }
    }

    /** Over volumes a failure leaves the position and at most the first bytes written. */
    method WriteBytes(src: seq<byte>) returns (ok: bool)
      requires Valid() && pos < TWO64
      modifies this, Repr()
      ensures Valid()
      ensures backing.Mem? ==> (State(), Done(ok)) == DoInMemory(memCap, old(State()), Write(src))
      ensures backing.Volumes? && ok ==> (State(), Done(true)) == DoOverVolumes(old(State()), Write(src))
      ensures backing.Volumes? ==> (ok <==> Faults() == old(Faults()))
      ensures backing.Volumes? && !ok ==>
                pos == old(pos) && PartlyWritten(old(State()).data, pos, src, State().data)
    {
      match backing
      case Mem(buf) =>
        ok := WriteInMemory(buf, src);
      case Volumes(v) =>
        ghost var was := State();
        ok := WriteOverVolumes(v, src);
        assert State() == Stream(v.Data(), pos) && was == Stream(old(v.Data()), old(pos));
        assert ok ==> (State(), Done(true)) == DoOverVolumes(was, Write(src));
    }

    method SeekBytes(offset: i64, origin: nat) returns (r: Option<nat>)
      requires Valid()
      modifies this`pos
      ensures Valid()
      ensures (State(), At(r)) == if backing.Mem? then DoInMemory(memCap, old(State()), Seek(offset, origin))
                                  else DoOverVolumes(old(State()), Seek(offset, origin))
    {
      var len;
      match backing {
        case Mem(buf) => len := |buf.bytes|;
        case Volumes(v) => len := v.Len();
      }
      var base;
      if origin == STREAM_SEEK_SET {
        base := 0;
      } else if origin == STREAM_SEEK_CUR {
        base := AsI64(Low64(pos));
      } else if origin == STREAM_SEEK_END {
        base := AsI64(Low64(len));
      } else {
        return None;
      }
      var sum := CheckedAdd(base, offset);
      if sum.None? {
        return None;
      }
      var np := if sum.value < 0 then 0 else sum.value;
      if backing.Mem? && np > memCap {
        return None;
      }
      pos := np;
      r := Some(np);
    }

    /** Over volumes a failure leaves some other length. */
    method SetSizeBytes(size: nat) returns (ok: bool)
      requires Valid()
      modifies Repr()
      ensures Valid() && pos == old(pos)
      ensures backing.Mem? ==> (State(), Done(ok)) == DoInMemory(memCap, old(State()), SetSize(size))
      ensures backing.Volumes? && ok ==> (State(), Done(true)) == DoOverVolumes(old(State()), SetSize(size))
      ensures backing.Volumes? ==> (ok <==> Faults() == old(Faults()))
      ensures backing.Volumes? ==> State().data == Resized(old(State()).data, |State().data|)
    {
      match backing
      case Mem(buf) =>
        if size > memCap {
          return false;
        }
        buf.bytes := Resized(buf.bytes, size);
        ok := true;
      case Volumes(v) =>
        ok := v.SetLen(size);
    }
  }
}
