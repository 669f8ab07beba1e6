/** Runs that show what the pipeline does not survive. */
module PipelineAccidents {
  import opened Wrappers
  import opened Crc
  import opened FlatFile
  import opened PipelineOutcomes
  import opened PipelineProgress
  import opened Pipelines

  lemma {:induction false} OneEventOn(c: Config, s: State, es: seq<Event>, t: State, e: Event)
    requires Leads(c, s, es, t) && Can(c, t, e)
    ensures Leads(c, s, es + [e], Do(c, t, e))
    decreases |es|
  {
    if es == [] {
      assert es + [e] == [e] && [e][1..] == [];
    } else {
      OneEventOn(c, Do(c, s, es[0]), es[1..], t, e);
      assert (es + [e])[0] == es[0] && (es + [e])[1..] == es[1..] + [e];
    }
  }

  lemma Happens(c: Config, s: State, e: Event)
    requires Reachable(c, s) && Can(c, s, e)
    ensures Reachable(c, Do(c, s, e))
  {
    var es :| Leads(c, Init(c), es, s);
    OneEventOn(c, Init(c), es, s, e);
  }

  /**
   Nothing stranger than usual: workers are lost only in the middle of a chunk, if at all, and the source does not grow
   again once a chunk was not full.
   */
  predicate Usual(lossy: bool, s: State, e: Event) {
    e != Stray && (e.Lose? ==> lossy) && (e.ReadChunk? ==> s.readTotal == |s.chunks| * CHUNK)
  }

  predicate UsuallyLeads(c: Config, lossy: bool, s: State, es: seq<Event>, t: State)
    decreases |es|
  {
    if es == [] then s == t
    else Can(c, s, es[0]) && Usual(lossy, s, es[0]) && UsuallyLeads(c, lossy, Do(c, s, es[0]), es[1..], t)
  }

  ghost predicate Usually(c: Config, lossy: bool, s: State) {
    exists es :: UsuallyLeads(c, lossy, Init(c), es, s)
  }

  lemma {:induction false} UsuallyLeadsLeads(c: Config, lossy: bool, s: State, es: seq<Event>, t: State)
    requires UsuallyLeads(c, lossy, s, es, t)
    ensures Leads(c, s, es, t)
    decreases |es|
  {
    if es != [] {
      UsuallyLeadsLeads(c, lossy, Do(c, s, es[0]), es[1..], t);
    }
  }

  lemma UsuallyIsReachable(c: Config, lossy: bool, s: State)
    requires Usually(c, lossy, s)
    ensures Reachable(c, s)
  {
    var es :| UsuallyLeads(c, lossy, Init(c), es, s);
    UsuallyLeadsLeads(c, lossy, Init(c), es, s);
  }

  lemma {:induction false} OneUsualEventOn(c: Config, lossy: bool, s: State, es: seq<Event>, t: State, e: Event)
    requires UsuallyLeads(c, lossy, s, es, t) && Can(c, t, e) && Usual(lossy, t, e)
    ensures UsuallyLeads(c, lossy, s, es + [e], Do(c, t, e))
    decreases |es|
  {
    if es == [] {
      assert es + [e] == [e] && [e][1..] == [];
    } else {
      OneUsualEventOn(c, lossy, Do(c, s, es[0]), es[1..], t, e);
      assert (es + [e])[0] == es[0] && (es + [e])[1..] == es[1..] + [e];
    }
  }

  lemma Goes(c: Config, lossy: bool, s: State, e: Event) returns (t: State)
    requires Usually(c, lossy, s) && Can(c, s, e) && Usual(lossy, s, e)
    ensures t == Do(c, s, e) && Usually(c, lossy, t)
  {
    t := Do(c, s, e);
    var es :| UsuallyLeads(c, lossy, Init(c), es, s);
    OneUsualEventOn(c, lossy, Init(c), es, s, e);
  }

  lemma Starts(c: Config, lossy: bool)
    ensures Usually(c, lossy, Init(c))
  {
    assert UsuallyLeads(c, lossy, Init(c), [], Init(c));
  }

  /** A file that is big enough to be compressed in chunks, and not too big. */
  predicate Eligible(c: Config) {
    c.workers >= 2 && 32 * CHUNK < c.size < MAX_SIZE
  }

  /** A full chunk that can be compressed. */
  predicate FullChunk(c: Config, x: seq<byte>) {
    |x| == CHUNK && c.deflate(x).Some?
  }

  /** The reader has room for one more chunk of `n` bytes and nothing keeps it. */
  predicate HasRoom(c: Config, s: State, n: nat) {
    && s.reader.Top? && !s.canceled && s.live && s.used < Limit(c)
    && s.readTotal == |s.chunks| * CHUNK && s.readTotal + n <= c.size
  }

  /** A chunk that was given a slot. */
  function Held(s: State, x: seq<byte>): State {
    s.(readTotal := s.readTotal + |x|, seen := s.seen + x, used := s.used + 1, crc := BitByBit(s.crc, x),
       reader := Sending(x))
  }

  /** And sent. */
  function Sent(s: State, x: seq<byte>): State {
    Held(s, x).(queue := s.queue + [(|s.chunks|, x)], chunks := s.chunks + [x], reader := Top)
  }

  lemma Step(c: Config, s: State, e: Event) returns (t: State)
    requires Reachable(c, s) && Can(c, s, e)
    ensures t == Do(c, s, e) && Reachable(c, t)
  {
    t := Do(c, s, e);
    Happens(c, s, e);
  }

  lemma Reads(c: Config, lossy: bool, s: State, x: seq<byte>) returns (t: State)
    requires Usually(c, lossy, s) && s.reader.Top? && !s.canceled && 0 < |x| <= CHUNK
    requires s.readTotal == |s.chunks| * CHUNK && s.readTotal + |x| <= c.size
    ensures Usually(c, lossy, t)
    ensures t == s.(readTotal := s.readTotal + |x|, seen := s.seen + x, reader := Acquiring(x))
  {
    var s1 := Goes(c, lossy, s, Look);
    t := Goes(c, lossy, s1, ReadChunk(x));
  }

  lemma Holds(c: Config, lossy: bool, s: State, x: seq<byte>)
    requires Usually(c, lossy, s) && HasRoom(c, s, |x|) && 0 < |x| <= CHUNK
    ensures Usually(c, lossy, Held(s, x))
  {
    var s1 := Reads(c, lossy, s, x);
    var s2 := Goes(c, lossy, s1, Acquire);
    assert s2 == Held(s, x);
  }

  lemma Sends(c: Config, lossy: bool, s: State, x: seq<byte>)
    requires Usually(c, lossy, s) && HasRoom(c, s, CHUNK) && |x| == CHUNK && |s.queue| < c.workers
    ensures Usually(c, lossy, Sent(s, x))
  {
    Holds(c, lossy, s, x);
    var s1 := Goes(c, lossy, Held(s, x), Send);
    assert s1 == Sent(s, x);
  }

  // ---- Steps of the workers and the collector ----

  lemma Takes(c: Config, lossy: bool, s: State) returns (t: State)
    requires Usually(c, lossy, s) && s.idle > 0 && s.queue != []
    ensures Usually(c, lossy, t)
    ensures t == s.(queue := s.queue[1..], idle := s.idle - 1, busy := s.busy[s.queue[0].0 := s.queue[0].1])
  {
    t := Goes(c, lossy, s, Take);
  }

  lemma Delivers(c: Config, lossy: bool, s: State, k: nat, x: seq<byte>) returns (t: State)
    requires Usually(c, lossy, s) && s.collector.Running? && k in s.busy && s.busy[k] == x
    ensures Usually(c, lossy, t)
    ensures t == s.(busy := s.busy - {k}, idle := s.idle + 1, results := s.results[k := c.deflate(x)])
  {
    t := Goes(c, lossy, s, Deliver(k));
  }

  lemma Receives(c: Config, lossy: bool, s: State, k: nat, b: seq<byte>) returns (t: State)
    requires Usually(c, lossy, s) && s.collector.Running? && s.next !in s.pending && k in s.results && s.results[k] == Some(b)
    ensures Usually(c, lossy, t) && t == s.(results := s.results - {k}, pending := s.pending[k := b])
  {
    t := Goes(c, lossy, s, Receive(k));
  }

  /** An idle worker takes the only chunk in the queue, and the collector receives it. */
  lemma TakesAndReceives(c: Config, lossy: bool, s: State, k: nat, x: seq<byte>) returns (t: State)
    requires Usually(c, lossy, s) && s.collector.Running? && s.idle > 0 && s.next !in s.pending && c.deflate(x).Some?
    requires s.queue == [(k, x)] && s.busy == map[] && s.results == map[]
    ensures Usually(c, lossy, t) && t == s.(queue := [], pending := s.pending[k := c.deflate(x).value])
  {
    var s1 := Takes(c, lossy, s);
    assert s1.queue == [] && s1.busy == map[k := x];
    var s2 := Delivers(c, lossy, s1, k, x);
    assert s2.busy == map[] && s2.results == map[k := c.deflate(x)];
    t := Receives(c, lossy, s2, k, c.deflate(x).value);
    assert t.results == map[];
  }

  // ---- A zip that is too short, if workers could go while they wait ----

  /** Nothing is under way. */
  predicate Quiet(c: Config, s: State) {
    && s.reader.Top? && !s.canceled && s.live && s.collector.Running?
    && s.queue == [] && s.busy == map[] && s.results == map[] && s.pending == map[] && s.next == |s.chunks| && s.used == 0
    && s.lost == {} && s.readTotal == |s.chunks| * CHUNK
  }

  /** One chunk goes all the way while nothing else goes on. */
  lemma GoesThrough(c: Config, lossy: bool, s: State, x: seq<byte>) returns (t: State)
    requires Usually(c, lossy, s) && Quiet(c, s) && 0 < s.idle <= c.workers && FullChunk(c, x) && s.readTotal + CHUNK <= c.size
    ensures Usually(c, lossy, t) && Quiet(c, t) && t.idle == s.idle && t.readTotal == s.readTotal + CHUNK
    ensures t.body == s.body + c.deflate(x).value && t.chunks == s.chunks + [x]
  {
    Sends(c, lossy, s, x);
    var s1 := TakesAndReceives(c, lossy, Sent(s, x), s.next, x);
    assert s1.pending == map[s.next := c.deflate(x).value];
    t := Goes(c, lossy, s1, Write);
    assert t.pending == map[];
  }

  /** All workers go while they wait, and the collector ends well. */
  lemma Deserts(c: Config, s: State) returns (t: State)
    requires Reachable(c, s) && Quiet(c, s)
    ensures Reachable(c, t)
    ensures t == s.(idle := 0, gone := t.gone, strayed := t.strayed, collector := Ended(true), live := false)
  {
    t := s;
    while t.idle > 0
      invariant Reachable(c, t) && t == s.(idle := t.idle, gone := t.gone, strayed := t.strayed)
      decreases t.idle
    {
      t := Step(c, t, Stray);
    }
    t := Step(c, t, Finish);
    t := Step(c, t, Report);
  }

  /** The reader reads the last chunk and is turned away with it. */
  lemma TurnsAway(c: Config, s: State, y: seq<byte>) returns (t: State)
    requires Reachable(c, s) && s.reader.Top? && !s.canceled && !s.live && 0 < |y| <= CHUNK
    requires s.readTotal + |y| == c.size
    ensures Reachable(c, t) && t == s.(readTotal := c.size, seen := s.seen + y, reader := Over(TurnedAway))
  {
    var s1 := Step(c, s, Look);
    var s2 := Step(c, s1, ReadChunk(y));
    t := Step(c, s2, Acquire);
  }

  /**
   If workers could go while they wait for work, any source of full chunks `x` and a last one `y` could come out as a
   zip without the last one, with the announced size of the whole.
   */
  lemma IdleLossWouldTruncate(c: Config, x: seq<byte>, y: seq<byte>, n: nat)
    requires Eligible(c) && FullChunk(c, x) && |c.deflate(x).value| <= CHUNK
    requires 0 < |y| <= CHUNK && c.size == n * CHUNK + |y|
    ensures exists s ::
              && Reachable(c, s) && Joinable(s) && s.lost == {} && s.chunks == seq(n, _ => x)
              && Verdict(c, s, true).Zip? && Verdict(c, s, true).raw == c.size == |s.seen| && Flat(s.chunks) != s.seen
  {
    var s := Init(c);
    Starts(c, false);
    for i := 0 to n
      invariant Usually(c, false, s) && Quiet(c, s) && s.idle == c.workers && s.readTotal == i * CHUNK
      invariant |s.body| <= i * CHUNK && s.chunks == seq(i, _ => x)
    {
      s := GoesThrough(c, false, s, x);
    }
    UsuallyIsReachable(c, false, s);
    s := Deserts(c, s);
    s := TurnsAway(c, s, y);
    ZipIsWholeExactlyAtEof(c, s, true);
    ZipHoldsWhatWasSent(c, s, true);
  }

  // ---- One lost worker ----

  /** The first chunk is lost, and everything sent since waits for it. */
  predicate Waiting(c: Config, s: State, x: seq<byte>) {
    && s.reader.Top? && !s.canceled && s.live && s.collector.Running?
    && s.queue == [] && s.busy == map[] && s.results == map[] && 0 !in s.pending && s.next == 0
    && s.readTotal == s.used * CHUNK && s.chunks == seq(s.used, _ => x) && 0 < s.used
    && s.lost == {0} && s.gone == 1 && s.strayed == 0 && s.idle == c.workers - 1
  }

  /** One more chunk sent, compressed and received. */
  lemma Parks(c: Config, lossy: bool, s: State, x: seq<byte>) returns (t: State)
    requires Usually(c, lossy, s) && Waiting(c, s, x) && FullChunk(c, x) && c.workers >= 2
    requires s.used < Limit(c) && s.readTotal + CHUNK <= c.size
    ensures Usually(c, lossy, t) && Waiting(c, t, x) && t.used == s.used + 1
  {
    Sends(c, lossy, s, x);
    t := TakesAndReceives(c, lossy, Sent(s, x), |s.chunks|, x);
  }

  /** The first worker is lost with the first chunk. */
  lemma LosesTheFirst(c: Config, x: seq<byte>) returns (t: State)
    requires Eligible(c) && FullChunk(c, x)
    ensures Usually(c, true, t) && Waiting(c, t, x) && t.used == 1
  {
    var s := Init(c);
    Starts(c, true);
    Sends(c, true, s, x);
    var s1 := Takes(c, true, Sent(s, x));
    assert s1.busy == map[0 := x];
    t := Goes(c, true, s1, Lose(0));
    assert t.busy == map[] && t.chunks == seq(1, _ => x);
  }

  /**
   One lost worker is enough to hang the pipeline for as long as nobody cancels, for every file with more chunks than
   there are slots.
   */
  lemma OneLossHangs(c: Config, x: seq<byte>)
    requires Eligible(c) && FullChunk(c, x) && (Limit(c) + 1) * CHUNK <= c.size
    ensures exists s ::
              && Usually(c, true, s) && StuckAcquiring(c, s) && s.gone == 1 && s.strayed == 0
              && s.chunks == seq(Limit(c), _ => x)
  {
    var s := LosesTheFirst(c, x);
    while s.used < Limit(c)
      invariant Usually(c, true, s) && Waiting(c, s, x) && s.used <= Limit(c)
      decreases Limit(c) - s.used
    {
      s := Parks(c, true, s, x);
    }
    s := Reads(c, true, s, x);
  }

  // ---- One failed write ----

  /** The workers are at the chunks `from` to `to - 1`, all alike. */
  ghost predicate AtWork(busy: map<nat, seq<byte>>, from: nat, to: nat, x: seq<byte>) {
    && (forall k: nat :: k in busy <==> from <= k < to)
    && forall k :: k in busy ==> busy[k] == x
  }

  /** Everything so far is with the workers or in the queue. */
  predicate Crowded(c: Config, s: State, x: seq<byte>) {
    && s.reader.Top? && !s.canceled && s.live && s.collector.Running? && s.pending == map[] && s.next == 0
    && s.used == |s.chunks| && s.readTotal == |s.chunks| * CHUNK && s.chunks == seq(|s.chunks|, _ => x)
    && s.gone == 0 && s.lost == {} && s.strayed == 0
  }

  lemma SendsOneMore(c: Config, lossy: bool, s: State, x: seq<byte>)
    requires Usually(c, lossy, s) && Crowded(c, s, x) && |x| == CHUNK && |s.queue| < c.workers
    requires |s.chunks| < Limit(c) && (|s.chunks| + 1) * CHUNK <= c.size
    ensures Usually(c, lossy, Sent(s, x)) && Crowded(c, Sent(s, x), x)
  {
    Sends(c, lossy, s, x);
    assert s.chunks + [x] == seq(|s.chunks| + 1, _ => x);
  }

  lemma OneMoreBusy(c: Config, lossy: bool, s: State, x: seq<byte>) returns (t: State)
    requires Usually(c, lossy, s) && Crowded(c, s, x) && |x| == CHUNK && s.queue == [] && s.idle > 0
    requires AtWork(s.busy, 0, |s.chunks|, x) && |s.chunks| < Limit(c) && (|s.chunks| + 1) * CHUNK <= c.size
    ensures Usually(c, lossy, t) && Crowded(c, t, x) && |t.chunks| == |s.chunks| + 1 && t.queue == []
    ensures t.idle == s.idle - 1 && AtWork(t.busy, 0, |t.chunks|, x) && t.results == s.results
  {
    SendsOneMore(c, lossy, s, x);
    t := Takes(c, lossy, Sent(s, x));
  }

  /** Every worker at a chunk. */
  lemma KeepsAllBusy(c: Config, lossy: bool, x: seq<byte>) returns (s: State)
    requires c.workers > 0 && |x| == CHUNK && c.workers * CHUNK <= c.size
    ensures Usually(c, lossy, s) && Crowded(c, s, x) && |s.chunks| == c.workers && s.queue == [] && s.idle == 0
    ensures AtWork(s.busy, 0, c.workers, x) && s.results == map[]
  {
    s := Init(c);
    Starts(c, lossy);
    for i := 0 to c.workers
      invariant Usually(c, lossy, s) && Crowded(c, s, x) && |s.chunks| == i && s.queue == [] && s.idle == c.workers - i
      invariant AtWork(s.busy, 0, i, x) && s.results == map[]
    {
      s := OneMoreBusy(c, lossy, s, x);
    }
  }

  /** The first chunk compressed, and its worker at the next one. */
  predicate Turned(c: Config, s: State, x: seq<byte>) {
    Crowded(c, s, x) && s.idle == 0 && s.results == map[0 := c.deflate(x)]
  }

  lemma TurnsTo(c: Config, lossy: bool, s: State, x: seq<byte>) returns (t: State)
    requires Usually(c, lossy, s) && Crowded(c, s, x) && |s.chunks| == c.workers && s.queue == [] && s.idle == 0
    requires AtWork(s.busy, 0, c.workers, x) && s.results == map[]
    requires |x| == CHUNK && c.workers >= 2 && (c.workers + 1) * CHUNK <= c.size
    ensures Usually(c, lossy, t) && Turned(c, t, x) && AtWork(t.busy, 1, c.workers + 1, x)
    ensures |t.chunks| == c.workers + 1 && t.queue == []
  {
    Sends(c, lossy, s, x);
    var s1 := Sent(s, x);
    assert Crowded(c, s1, x);
    var s2 := Delivers(c, lossy, s1, 0, x);
    t := Takes(c, lossy, s2);
  }

  /** The queue full and the reader at one more. */
  lemma FillsUp(c: Config, lossy: bool, s: State, x: seq<byte>, y: seq<byte>) returns (t: State)
    requires Usually(c, lossy, s) && Turned(c, s, x) && AtWork(s.busy, 1, c.workers + 1, x)
    requires |s.chunks| == c.workers + 1 && s.queue == []
    requires |x| == CHUNK && 0 < |y| <= CHUNK && c.workers >= 2 && (2 * c.workers + 1) * CHUNK + |y| <= c.size
    ensures Usually(c, lossy, t) && t.reader.Sending? && |t.queue| == c.workers && t.idle == 0 && t.live && !t.canceled
    ensures t.collector.Running? && t.pending == map[] && t.next == 0 && t.strayed == 0
    ensures AtWork(t.busy, 1, c.workers + 1, x) && t.results == map[0 := c.deflate(x)]
    ensures t.chunks == seq(2 * c.workers + 1, _ => x)
  {
    t := s;
    for i := 0 to c.workers
      invariant Usually(c, lossy, t) && Turned(c, t, x) && t.busy == s.busy
      invariant |t.chunks| == c.workers + 1 + i && |t.queue| == i
    {
      SendsOneMore(c, lossy, t, x);
      t := Sent(t, x);
    }
    Holds(c, lossy, t, y);
    t := Held(t, y);
  }

  /** The workers bring their results to nobody and go. */
  lemma GivesUp(c: Config, lossy: bool, s: State, x: seq<byte>) returns (t: State)
    requires Usually(c, lossy, s) && AtWork(s.busy, 1, c.workers + 1, x) && s.collector == Ended(false)
    ensures Usually(c, lossy, t) && t == s.(busy := map[], gone := t.gone, lost := t.lost)
  {
    t := s;
    for i := 1 to c.workers + 1
      invariant Usually(c, lossy, t) && t == s.(busy := t.busy, gone := t.gone, lost := t.lost)
      invariant AtWork(t.busy, i, c.workers + 1, x)
    {
      t := Goes(c, lossy, t, Deliver(i));
    }
    assert t.busy == map[];
  }

  /**
   One failed write, with every worker in place, is enough to hang the pipeline for good: the workers go when their
   results are not wanted any more, and nobody tells the reader, who waits for room in the queue.
   */
  lemma OneFailedWriteHangs(c: Config, x: seq<byte>)
    requires Eligible(c) && FullChunk(c, x) && (2 * c.workers + 2) * CHUNK <= c.size
    ensures exists s ::
              && Usually(c, false, s) && StuckSending(c, s) && s.strayed == 0 && s.collector == Ended(false)
              && s.chunks == seq(2 * c.workers + 1, _ => x)
  {
    var s := KeepsAllBusy(c, false, x);
    s := TurnsTo(c, false, s, x);
    s := FillsUp(c, false, s, x, x);
    s := Goes(c, false, s, Receive(0));
    s := Goes(c, false, s, WriteFail);
    s := GivesUp(c, false, s, x);
    s := Goes(c, false, s, Report);
  }
}
