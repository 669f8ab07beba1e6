/**
 Compressing one big file in chunks: a reader, workers behind a bounded queue, and a collector that puts the results
 back into order. The threads' steps interleave freely; workers may be lost, the source may shrink or grow, and any
 write may fail.
 */
module Pipelines {
  import opened Wrappers
  import opened Crc
  import opened FlatFile

  const CHUNK := 1024 * 1024

  const SLOTS_PER_WORKER := 3

  const MAX_SIZE := 0xFFFF_FFFF

  /** The final empty block: fixed Huffman codes, nothing but an end-of-block. */
  const END_BLOCK: seq<byte> := [0x03, 0x00]

  /** `deflate` compresses a chunk on its own, or fails. */
  datatype Config = Config(size: nat, workers: nat, deflate: seq<byte> -> Option<seq<byte>>)

  datatype Ending = AtEof | ReadFailed | Grew | WasCanceled | TurnedAway

  datatype Reader = Top | Filling | Acquiring(buf: seq<byte>) | Sending(buf: seq<byte>) | Over(how: Ending)

  datatype Collector = Running | Ended(ok: bool)

  /**
   `seen` is what was read, `chunks` what was sent, `busy` the chunks that workers are at, `lost` those whose workers
   were lost, and `strayed` counts workers that were lost with no chunk in hand.
   */
  datatype State = State(
    reader: Reader, readTotal: nat, seen: seq<byte>, chunks: seq<seq<byte>>, crc: bv32,
    queue: seq<(nat, seq<byte>)>, idle: nat, busy: map<nat, seq<byte>>, gone: nat, lost: set<nat>, strayed: nat,
    results: map<nat, Option<seq<byte>>>, pending: map<nat, seq<byte>>, next: nat, body: seq<byte>,
    used: nat, collector: Collector, live: bool, canceled: bool)

  datatype Event =
    // the reader
    | Look | ReadChunk(buf: seq<byte>) | ReadEnd | ReadError | Acquire | Send
    // the workers
    | Take | Deliver(k: nat) | Leave | Lose(k: nat) | Stray
    // the collector
    | Receive(k: nat) | Write | WriteFail | Finish | FlushFail | Report
    // the user
    | Cancel

  function Limit(c: Config): nat {
    c.workers * SLOTS_PER_WORKER
  }

  function Init(c: Config): State {
    State(Top, 0, [], [], ONES, [], c.workers, map[], 0, {}, 0, map[], map[], 0, [], 0, Running, true, false)
  }

  predicate Can(c: Config, s: State, e: Event) {
    match e
    case Look => s.reader.Top?
    case ReadChunk(buf) => s.reader.Filling? && 0 < |buf| <= CHUNK
    case ReadEnd => s.reader.Filling?
    case ReadError => s.reader.Filling?
    case Acquire => s.reader.Acquiring? && (s.canceled || !s.live || s.used < Limit(c))
    case Send => s.reader.Sending? && |s.queue| < c.workers
    case Take => s.idle > 0 && s.queue != []
    case Deliver(k) => k in s.busy
    case Leave => s.idle > 0 && s.queue == [] && s.reader.Over?
    case Lose(k) => k in s.busy
    case Stray => s.idle > 0
    case Receive(k) => s.collector.Running? && s.next !in s.pending && k in s.results
    case Write => s.collector.Running? && s.next in s.pending
    case WriteFail => s.collector.Running? && s.next in s.pending
    case Finish => CanFinish(s)
    case FlushFail => CanFinish(s)
    case Report => s.collector.Ended? && s.live
    case Cancel => !s.canceled
  }

  /** Nothing more can arrive: every worker is gone and every result was taken. */
  predicate CanFinish(s: State) {
    s.collector.Running? && s.next !in s.pending && s.results == map[] && s.idle == 0 && s.busy == map[]
  }

  function Do(c: Config, s: State, e: Event): State
    requires Can(c, s, e)
  {
    match e
    case Look => s.(reader := if s.canceled then Over(WasCanceled) else Filling)
    case ReadChunk(buf) =>
      var total := s.readTotal + |buf|;
      s.(readTotal := total, seen := s.seen + buf, reader := if total > c.size then Over(Grew) else Acquiring(buf))
    case ReadEnd => s.(reader := Over(AtEof))
    case ReadError => s.(reader := Over(ReadFailed))
    case Acquire =>
      if s.canceled then s.(reader := Over(WasCanceled))
      else if !s.live then s.(reader := Over(TurnedAway))
      else s.(used := s.used + 1, crc := BitByBit(s.crc, s.reader.buf), reader := Sending(s.reader.buf))
    case Send =>
      s.(queue := s.queue + [(|s.chunks|, s.reader.buf)], chunks := s.chunks + [s.reader.buf], reader := Top)
    case Take => s.(queue := s.queue[1..], idle := s.idle - 1, busy := s.busy[s.queue[0].0 := s.queue[0].1])
    case Deliver(k) =>
      if s.collector.Running? then
        s.(busy := s.busy - {k}, idle := s.idle + 1, results := s.results[k := c.deflate(s.busy[k])])
      else s.(busy := s.busy - {k}, gone := s.gone + 1, lost := s.lost + {k})
    case Leave => s.(idle := s.idle - 1, gone := s.gone + 1)
    case Lose(k) => s.(busy := s.busy - {k}, gone := s.gone + 1, lost := s.lost + {k})
    case Stray => s.(idle := s.idle - 1, gone := s.gone + 1, strayed := s.strayed + 1)
    case Receive(k) =>
      if s.results[k].None? then s.(collector := Ended(false))
      else s.(results := s.results - {k}, pending := s.pending[k := s.results[k].value])
    case Write =>
      s.(body := s.body + s.pending[s.next], pending := s.pending - {s.next}, next := s.next + 1,
         used := if s.used > 0 then s.used - 1 else 0)
    case WriteFail => s.(collector := Ended(false))
    case Finish => s.(collector := Ended(s.pending == map[]))
    case FlushFail => s.(collector := Ended(false))
    case Report => s.(live := false)
    case Cancel => s.(canceled := true)
  }

  predicate OfReader(e: Event) {
    e.Look? || e.ReadChunk? || e.ReadEnd? || e.ReadError? || e.Acquire? || e.Send?
  }

  predicate OfWorkers(e: Event) {
    e.Take? || e.Deliver? || e.Leave? || e.Lose? || e.Stray?
  }

  /** A chunk as it goes into the body. */
  function Packed(c: Config, chunk: seq<byte>): seq<byte> {
    match c.deflate(chunk)
    case Some(b) => b
    case None => []
  }

  /** The first `n` chunks, each compressed on its own, one after the other. */
  function Joined(c: Config, chunks: seq<seq<byte>>, n: nat): seq<byte>
    requires n <= |chunks|
  {
    if n == 0 then [] else Joined(c, chunks, n - 1) + Packed(c, chunks[n - 1])
  }

  lemma {:induction false} JoinedKeeps(c: Config, chunks: seq<seq<byte>>, more: seq<byte>, n: nat)
    requires n <= |chunks|
    ensures Joined(c, chunks + [more], n) == Joined(c, chunks, n)
  {
    if n > 0 {
      JoinedKeeps(c, chunks, more, n - 1);
    }
  }

  /** The chunks that workers took. */
  function Taken(s: State): int {
    |s.chunks| - |s.queue|
  }

  /** The chunks that the reader has a slot for, written ones included. */
  function Acquired(s: State): nat {
    |s.chunks| + if s.reader.Sending? then 1 else 0
  }

  /** What was read is what was sent, plus what the reader holds. */
  ghost predicate ReaderOk(c: Config, s: State) {
    && s.readTotal == |s.seen|
    && (s.reader != Over(Grew) ==> s.readTotal <= c.size)
    && match s.reader
       case Top => Flat(s.chunks) == s.seen
       case Filling => Flat(s.chunks) == s.seen
       case Acquiring(buf) => Flat(s.chunks) + buf == s.seen && buf != []
       case Sending(buf) => Flat(s.chunks) + buf == s.seen
       case Over(AtEof) => Flat(s.chunks) == s.seen
       case Over(TurnedAway) => |Flat(s.chunks)| < |s.seen|
       case _ => true
  }

  /** The checksum covers the chunks that were given a slot. */
  ghost predicate CrcOk(s: State) {
    s.crc == BitByBit(ONES, if s.reader.Sending? then Flat(s.chunks) + s.reader.buf else Flat(s.chunks))
  }

  ghost predicate QueueOk(s: State) {
    && Taken(s) >= 0
    && forall i :: 0 <= i < |s.queue| ==> s.queue[i] == (Taken(s) + i, s.chunks[Taken(s) + i])
  }

  ghost predicate BusyOk(s: State) {
    forall k :: k in s.busy ==> k < |s.chunks| && s.busy[k] == s.chunks[k]
  }

  ghost predicate ResultsOk(c: Config, s: State) {
    forall k :: k in s.results ==> k < |s.chunks| && s.results[k] == c.deflate(s.chunks[k])
  }

  ghost predicate PendingOk(c: Config, s: State) {
    forall k :: k in s.pending ==> k < |s.chunks| && c.deflate(s.chunks[k]) == Some(s.pending[k])
  }

  /** Every chunk that was taken and is not written yet is somewhere. */
  ghost predicate PlacesOk(s: State) {
    && s.next <= Taken(s)
    && forall k: nat :: s.next <= k < Taken(s) <==> k in s.busy || k in s.results || k in s.pending || k in s.lost
  }

  /** No chunk is in two places. */
  ghost predicate OnePlace(s: State) {
    && s.busy.Keys !! s.results.Keys && s.busy.Keys !! s.pending.Keys && s.busy.Keys !! s.lost
    && s.results.Keys !! s.pending.Keys && s.results.Keys !! s.lost && s.pending.Keys !! s.lost
  }

  ghost predicate BodyOk(c: Config, s: State) {
    && s.next <= |s.chunks| && s.body == Joined(c, s.chunks, s.next)
    && forall j :: 0 <= j < s.next ==> c.deflate(s.chunks[j]).Some?
  }

  /** The slots in use are those of the chunks not written yet, and there are never too many. */
  ghost predicate SlotsOk(c: Config, s: State) {
    s.used + s.next == Acquired(s) && s.used <= Limit(c)
  }

  ghost predicate WorkersOk(c: Config, s: State) {
    s.idle + |s.busy| + s.gone == c.workers && c.workers > 0
  }

  /** No worker goes before the reader is done, and no collector ends well before it, unless one was lost. */
  ghost predicate EndingsOk(s: State) {
    && (!s.live ==> s.collector.Ended?)
    && (s.reader == Over(TurnedAway) ==> s.collector.Ended?)
    && (s.lost == {} && s.strayed == 0 && (!s.reader.Over? || s.reader == Over(TurnedAway)) ==>
          s.collector != Ended(true) && (s.collector.Running? ==> s.gone == 0))
  }

  ghost predicate Inv(c: Config, s: State) {
    && ReaderOk(c, s) && CrcOk(s) && QueueOk(s) && BusyOk(s) && ResultsOk(c, s) && PendingOk(c, s)
    && PlacesOk(s) && OnePlace(s) && BodyOk(c, s) && SlotsOk(c, s) && WorkersOk(c, s) && EndingsOk(s)
  }

  lemma InitKeepsInv(c: Config)
    requires c.workers > 0
    ensures Inv(c, Init(c))
  {
  }

  lemma OneLess<T>(m: map<nat, T>, k: nat)
    requires k in m
    ensures |m - {k}| == |m| - 1
  {
    assert (m - {k}).Keys == m.Keys - {k};
    assert |m| == |m.Keys| && |m - {k}| == |(m - {k}).Keys|;
  }

  lemma OneMore<T>(m: map<nat, T>, k: nat, x: T)
    requires k !in m
    ensures |m[k := x]| == |m| + 1
  {
    OneLess(m[k := x], k);
    assert m[k := x] - {k} == m;
  }

  lemma ReaderSent(c: Config, s: State)
    requires ReaderOk(c, s) && Can(c, s, Send)
    ensures ReaderOk(c, Do(c, s, Send))
  {
    FlatOfConcat(s.chunks, [s.reader.buf]);
    FlatOfOne(s.reader.buf);
  }

  lemma ReaderRead(c: Config, s: State, e: Event)
    requires ReaderOk(c, s) && Can(c, s, e) && e.ReadChunk?
    ensures ReaderOk(c, Do(c, s, e))
  {
    assert s.seen + e.buf == Flat(s.chunks) + e.buf;
  }

  lemma ReaderMoved(c: Config, s: State, e: Event)
    requires ReaderOk(c, s) && Can(c, s, e) && (e.Look? || e.ReadEnd? || e.ReadError? || e.Acquire?)
    ensures ReaderOk(c, Do(c, s, e))
  {
  }

  lemma ReaderUntouched(c: Config, s: State, e: Event)
    requires Can(c, s, e)
    requires !(e.Look? || e.ReadEnd? || e.ReadError? || e.Acquire? || e.ReadChunk? || e.Send?)
    ensures var s' := Do(c, s, e);
      s'.reader == s.reader && s'.readTotal == s.readTotal && s'.seen == s.seen && s'.chunks == s.chunks
  {
    match e
    case Take =>
    case Deliver(_) =>
    case Leave =>
    case Lose(_) =>
    case Stray =>
    case Receive(_) =>
    case Write =>
    case WriteFail =>
    case Finish =>
    case FlushFail =>
    case Report =>
    case Cancel =>
  }

  lemma KeepsReader(c: Config, s: State, e: Event)
    requires ReaderOk(c, s) && Can(c, s, e)
    ensures ReaderOk(c, Do(c, s, e))
  {
    if e.ReadChunk? {
      ReaderRead(c, s, e);
    } else if e.Send? {
      ReaderSent(c, s);
    } else if e.Look? || e.ReadEnd? || e.ReadError? || e.Acquire? {
      ReaderMoved(c, s, e);
    } else {
      ReaderUntouched(c, s, e);
    }
  }

  lemma CrcAcquired(c: Config, s: State)
    requires CrcOk(s) && Can(c, s, Acquire)
    ensures CrcOk(Do(c, s, Acquire))
  {
    SplitsAnywhere(ONES, Flat(s.chunks), s.reader.buf);
  }

  lemma CrcSent(c: Config, s: State)
    requires CrcOk(s) && Can(c, s, Send)
    ensures CrcOk(Do(c, s, Send))
  {
    FlatOfConcat(s.chunks, [s.reader.buf]);
    FlatOfOne(s.reader.buf);
  }

  lemma CrcUntouched(c: Config, s: State, e: Event)
    requires Can(c, s, e) && !e.Acquire? && !e.Send?
    ensures var s' := Do(c, s, e);
      s'.crc == s.crc && s'.chunks == s.chunks && (s.reader.Sending? || s'.reader.Sending? ==> s'.reader == s.reader)
  {
  }

  lemma SameCrc(s: State, s': State)
    requires CrcOk(s) && s'.crc == s.crc && s'.chunks == s.chunks
    requires s.reader.Sending? || s'.reader.Sending? ==> s'.reader == s.reader
    ensures CrcOk(s')
  {
  }

  lemma KeepsCrc(c: Config, s: State, e: Event)
    requires CrcOk(s) && Can(c, s, e)
    ensures CrcOk(Do(c, s, e))
  {
    match e
    case Acquire => CrcAcquired(c, s);
    case Send => CrcSent(c, s);
    case _ =>
      CrcUntouched(c, s, e);
      SameCrc(s, Do(c, s, e));
  }

  // ---- The queue and what comes of it: first what a step does to it, then why that keeps what is known of it ----

  lemma QueueSent(c: Config, s: State)
    requires Can(c, s, Send)
    ensures var t := Do(c, s, Send);
      t.queue == s.queue + [(|s.chunks|, s.reader.buf)] && t.chunks == s.chunks + [s.reader.buf]
  {
  }

  lemma QueueTaken(c: Config, s: State)
    requires Can(c, s, Take)
    ensures var t := Do(c, s, Take); t.queue == s.queue[1..] && t.chunks == s.chunks
  {
  }

  lemma QueueUntouched(c: Config, s: State, e: Event)
    requires Can(c, s, e) && !e.Send? && !e.Take?
    ensures Do(c, s, e).queue == s.queue && Do(c, s, e).chunks == s.chunks
  {
    var t := Do(c, s, e);
    assert t.queue == s.queue;
    assert t.chunks == s.chunks;
  }

  lemma QueueKept(s: State, t: State, buf: seq<byte>)
    requires QueueOk(s)
    requires || (t.queue == s.queue && t.chunks == s.chunks)
             || (t.queue == s.queue + [(|s.chunks|, buf)] && t.chunks == s.chunks + [buf])
             || (s.queue != [] && t.queue == s.queue[1..] && t.chunks == s.chunks)
    ensures QueueOk(t)
  {
  }

  lemma KeepsQueue(c: Config, s: State, e: Event)
    requires QueueOk(s) && Can(c, s, e)
    ensures QueueOk(Do(c, s, e)) && s.chunks <= Do(c, s, e).chunks
  {
    match e
    case Send =>
      QueueSent(c, s);
      QueueKept(s, Do(c, s, e), s.reader.buf);
    case Take =>
      QueueTaken(c, s);
      QueueKept(s, Do(c, s, e), []);
    case _ =>
      QueueUntouched(c, s, e);
      QueueKept(s, Do(c, s, e), []);
  }

  lemma BusyMoves(c: Config, s: State, e: Event)
    requires Can(c, s, e)
    ensures forall k :: k in Do(c, s, e).busy ==>
              || (k in s.busy && Do(c, s, e).busy[k] == s.busy[k])
              || (s.queue != [] && s.queue[0] == (k, Do(c, s, e).busy[k]))
  {
  }

  lemma BusyKept(s: State, t: State)
    requires QueueOk(s) && BusyOk(s) && s.chunks <= t.chunks
    requires forall k :: k in t.busy ==>
               (k in s.busy && t.busy[k] == s.busy[k]) || (s.queue != [] && s.queue[0] == (k, t.busy[k]))
    ensures BusyOk(t)
  {
  }

  lemma KeepsBusy(c: Config, s: State, e: Event)
    requires QueueOk(s) && BusyOk(s) && Can(c, s, e)
    ensures BusyOk(Do(c, s, e))
  {
    KeepsQueue(c, s, e);
    BusyMoves(c, s, e);
    BusyKept(s, Do(c, s, e));
  }

  lemma ResultsMove(c: Config, s: State, e: Event)
    requires Can(c, s, e)
    ensures forall k :: k in Do(c, s, e).results ==>
              || (k in s.results && Do(c, s, e).results[k] == s.results[k])
              || (k in s.busy && Do(c, s, e).results[k] == c.deflate(s.busy[k]))
  {
  }

  lemma ResultsKept(c: Config, s: State, t: State)
    requires BusyOk(s) && ResultsOk(c, s) && s.chunks <= t.chunks
    requires forall k :: k in t.results ==>
               (k in s.results && t.results[k] == s.results[k]) || (k in s.busy && t.results[k] == c.deflate(s.busy[k]))
    ensures ResultsOk(c, t)
  {
  }

  lemma KeepsResults(c: Config, s: State, e: Event)
    requires QueueOk(s) && BusyOk(s) && ResultsOk(c, s) && Can(c, s, e)
    ensures ResultsOk(c, Do(c, s, e))
  {
    KeepsQueue(c, s, e);
    ResultsMove(c, s, e);
    ResultsKept(c, s, Do(c, s, e));
  }

  lemma PendingMoves(c: Config, s: State, e: Event)
    requires Can(c, s, e)
    ensures forall k :: k in Do(c, s, e).pending ==>
              || (k in s.pending && Do(c, s, e).pending[k] == s.pending[k])
              || (k in s.results && s.results[k] == Some(Do(c, s, e).pending[k]))
  {
  }

  lemma PendingKept(c: Config, s: State, t: State)
    requires ResultsOk(c, s) && PendingOk(c, s) && s.chunks <= t.chunks
    requires forall k :: k in t.pending ==>
               (k in s.pending && t.pending[k] == s.pending[k]) || (k in s.results && s.results[k] == Some(t.pending[k]))
    ensures PendingOk(c, t)
  {
  }

  lemma KeepsPending(c: Config, s: State, e: Event)
    requires QueueOk(s) && ResultsOk(c, s) && PendingOk(c, s) && Can(c, s, e)
    ensures PendingOk(c, Do(c, s, e))
  {
    KeepsQueue(c, s, e);
    PendingMoves(c, s, e);
    PendingKept(c, s, Do(c, s, e));
  }

  lemma PlacesTaken(c: Config, s: State)
    requires QueueOk(s) && PlacesOk(s) && OnePlace(s) && Can(c, s, Take)
    ensures PlacesOk(Do(c, s, Take)) && OnePlace(Do(c, s, Take))
  {
    assert s.queue[0].0 == Taken(s);
  }

  lemma PlacesWritten(c: Config, s: State)
    requires QueueOk(s) && PlacesOk(s) && OnePlace(s) && Can(c, s, Write)
    ensures PlacesOk(Do(c, s, Write)) && OnePlace(Do(c, s, Write))
  {
  }

  lemma PlacesReceived(c: Config, s: State, e: Event)
    requires PlacesOk(s) && OnePlace(s) && Can(c, s, e) && e.Receive?
    ensures PlacesOk(Do(c, s, e)) && OnePlace(Do(c, s, e))
  {
    var t := Do(c, s, e);
    if s.results[e.k].Some? {
      assert t.results.Keys == s.results.Keys - {e.k} && t.pending.Keys == s.pending.Keys + {e.k};
    }
  }

  lemma PlacesDone(c: Config, s: State, e: Event)
    requires PlacesOk(s) && OnePlace(s) && Can(c, s, e) && (e.Deliver? || e.Lose?)
    ensures PlacesOk(Do(c, s, e)) && OnePlace(Do(c, s, e))
  {
  }

  lemma KeepsPlaces(c: Config, s: State, e: Event)
    requires QueueOk(s) && PlacesOk(s) && OnePlace(s) && Can(c, s, e)
    ensures PlacesOk(Do(c, s, e)) && OnePlace(Do(c, s, e))
  {
    match e
    case Take => PlacesTaken(c, s);
    case Write => PlacesWritten(c, s);
    case Receive(_) => PlacesReceived(c, s, e);
    case Deliver(_) => PlacesDone(c, s, e);
    case Lose(_) => PlacesDone(c, s, e);
    case _ =>
  }

  lemma BodySent(c: Config, s: State)
    requires BodyOk(c, s) && Can(c, s, Send)
    ensures BodyOk(c, Do(c, s, Send))
  {
    JoinedKeeps(c, s.chunks, s.reader.buf, s.next);
  }

  lemma BodyWritten(c: Config, s: State)
    requires PendingOk(c, s) && BodyOk(c, s) && Can(c, s, Write)
    ensures BodyOk(c, Do(c, s, Write))
  {
  }

  lemma KeepsBody(c: Config, s: State, e: Event)
    requires PendingOk(c, s) && BodyOk(c, s) && Can(c, s, e)
    ensures BodyOk(c, Do(c, s, e))
  {
    match e
    case Send => BodySent(c, s);
    case Write => BodyWritten(c, s);
    case _ =>
  }

  lemma KeepsSlots(c: Config, s: State, e: Event)
    requires SlotsOk(c, s) && PlacesOk(s) && Can(c, s, e)
    ensures SlotsOk(c, Do(c, s, e))
  {
    var t := Do(c, s, e);
    assert t.used + t.next == Acquired(t);
    assert t.used <= Limit(c);
  }

  lemma WorkerTook(c: Config, s: State)
    requires QueueOk(s) && PlacesOk(s) && WorkersOk(c, s) && Can(c, s, Take)
    ensures WorkersOk(c, Do(c, s, Take))
  {
    OneMore(s.busy, s.queue[0].0, s.queue[0].1);
  }

  lemma WorkerIsDone(c: Config, s: State, e: Event)
    requires WorkersOk(c, s) && Can(c, s, e) && (e.Deliver? || e.Lose?)
    ensures WorkersOk(c, Do(c, s, e))
  {
    OneLess(s.busy, e.k);
  }

  lemma KeepsWorkers(c: Config, s: State, e: Event)
    requires QueueOk(s) && PlacesOk(s) && WorkersOk(c, s) && Can(c, s, e)
    ensures WorkersOk(c, Do(c, s, e))
  {
    match e
    case Take => WorkerTook(c, s);
    case Deliver(_) => WorkerIsDone(c, s, e);
    case Lose(_) => WorkerIsDone(c, s, e);
    case _ =>
  }

  /** What the endings are about, while nothing of it changes. */
  lemma EndingsUntouched(c: Config, s: State, e: Event)
    requires Can(c, s, e) && !OfEndings(e)
    ensures var t := Do(c, s, e);
      && t.live == s.live && t.reader == s.reader && t.collector == s.collector && t.lost == s.lost
      && t.strayed == s.strayed && t.gone == s.gone
  {
  }

  predicate OfEndings(e: Event) {
    OfReader(e) || (OfWorkers(e) && !e.Take?) || e.Receive? || e.WriteFail? || e.Finish? || e.FlushFail? || e.Report?
  }

  lemma KeepsEndings(c: Config, s: State, e: Event)
    requires WorkersOk(c, s) && EndingsOk(s) && Can(c, s, e)
    ensures EndingsOk(Do(c, s, e))
  {
    if !OfEndings(e) {
      EndingsUntouched(c, s, e);
    }
  }

  lemma StepKeepsInv(c: Config, s: State, e: Event)
    requires Inv(c, s) && Can(c, s, e)
    ensures Inv(c, Do(c, s, e))
  {
    KeepsReader(c, s, e);
    KeepsCrc(c, s, e);
    KeepsQueue(c, s, e);
    KeepsBusy(c, s, e);
    KeepsResults(c, s, e);
    KeepsPending(c, s, e);
    KeepsPlaces(c, s, e);
    KeepsBody(c, s, e);
    KeepsSlots(c, s, e);
    KeepsWorkers(c, s, e);
    KeepsEndings(c, s, e);
  }
}
