/** Which files the pipeline is safe for: a bound on their size, and exactly that bound. */
module PipelineSizes {
  import opened FlatFile
  import opened Pipelines
  import opened PipelineOutcomes
  import opened PipelineProgress
  import opened PipelineAccidents

  /** As long as the reader is at work: every worker that is gone lost a chunk, and all chunks sent were full. */
  ghost predicate Full(s: State) {
    && (!s.reader.Over? ==> s.gone == |s.lost|)
    && (s.reader.Acquiring? || s.reader.Sending? ==>
          s.reader.buf != [] && s.readTotal == |s.chunks| * CHUNK + |s.reader.buf|)
  }

  /** And if no worker is lost: chunks are lost only once the collector has left one behind. */
  ghost predicate LeftBehind(s: State) {
    !s.reader.Over? ==> if s.collector.Running? then s.lost == {} else s.results != map[] || s.pending != map[]
  }

  lemma ReaderKeepsFull(c: Config, lossy: bool, s: State, e: Event)
    requires Full(s) && Can(c, s, e) && Usual(lossy, s, e) && OfReader(e)
    ensures Full(Do(c, s, e)) && (LeftBehind(s) ==> LeftBehind(Do(c, s, e)))
  {
  }

  lemma WorkersKeepFull(c: Config, lossy: bool, s: State, e: Event)
    requires Full(s) && OnePlace(s) && Can(c, s, e) && Usual(lossy, s, e) && OfWorkers(e)
    ensures Full(Do(c, s, e))
  {
  }

  lemma WorkersLeaveBehind(c: Config, s: State, e: Event)
    requires LeftBehind(s) && Can(c, s, e) && Usual(false, s, e) && OfWorkers(e)
    ensures LeftBehind(Do(c, s, e))
  {
  }

  lemma CollectorKeepsFull(c: Config, s: State, e: Event)
    requires Full(s) && Can(c, s, e) && !OfReader(e) && !OfWorkers(e)
    ensures Full(Do(c, s, e))
  {
  }

  /** As long as no chunk is lost, no worker is gone, and the collector cannot finish. */
  lemma CollectorLeavesBehind(c: Config, s: State, e: Event)
    requires Full(s) && LeftBehind(s) && WorkersOk(c, s) && Can(c, s, e) && !OfReader(e) && !OfWorkers(e)
    ensures LeftBehind(Do(c, s, e))
  {
  }

  ghost predicate Kept(c: Config, lossy: bool, s: State) {
    Inv(c, s) && Full(s) && (lossy || LeftBehind(s))
  }

  lemma StepKeeps(c: Config, lossy: bool, s: State, e: Event)
    requires Kept(c, lossy, s) && Can(c, s, e) && Usual(lossy, s, e)
    ensures Kept(c, lossy, Do(c, s, e))
  {
    StepKeepsInv(c, s, e);
    if OfReader(e) {
      ReaderKeepsFull(c, lossy, s, e);
    } else if OfWorkers(e) {
      WorkersKeepFull(c, lossy, s, e);
      if !lossy {
        WorkersLeaveBehind(c, s, e);
      }
    } else {
      CollectorKeepsFull(c, s, e);
      if !lossy {
        CollectorLeavesBehind(c, s, e);
      }
    }
  }

  lemma {:induction false} RunKeeps(c: Config, lossy: bool, s: State, es: seq<Event>, t: State)
    requires Kept(c, lossy, s) && UsuallyLeads(c, lossy, s, es, t)
    ensures Kept(c, lossy, t)
    decreases |es|
  {
    if es != [] {
      StepKeeps(c, lossy, s, es[0]);
      RunKeeps(c, lossy, Do(c, s, es[0]), es[1..], t);
    }
  }

  lemma UsuallyKept(c: Config, lossy: bool, s: State)
    requires c.workers > 0 && Usually(c, lossy, s)
    ensures Kept(c, lossy, s)
  {
    var es :| UsuallyLeads(c, lossy, Init(c), es, s);
    InitKeepsInv(c);
    RunKeeps(c, lossy, Init(c), es, s);
  }

  /** The chunks that were lost were taken and are not written, and so were those left behind. */
  lemma LostAreFew(s: State)
    requires PlacesOk(s) && OnePlace(s)
    ensures |s.lost| <= Taken(s) - s.next
    ensures s.results != map[] || s.pending != map[] ==> |s.lost| < Taken(s) - s.next
  {
    HeldAreFew(s.lost, s.results.Keys, s.pending.Keys, s.next, Taken(s));
    assert s.results != map[] ==> |s.results.Keys| > 0;
    assert s.pending != map[] ==> |s.pending.Keys| > 0;
  }

  /** The most bytes that are safe: two full chunks for each worker, and one more if no worker is lost. */
  function Safe(c: Config, lossy: bool): nat {
    (2 * c.workers + if lossy then 0 else 1) * CHUNK
  }

  /**
   A sender is stuck with as many chunks lost as there are workers, one left behind if they were not lost with their
   workers, and as many in the queue; a single worker has no slots for that many.
   */
  lemma StuckSenderSentMany(c: Config, lossy: bool, s: State)
    requires PlacesOk(s) && OnePlace(s) && WorkersOk(c, s) && SlotsOk(c, s) && ReaderOk(c, s) && Full(s)
    requires lossy || LeftBehind(s)
    requires StuckSending(c, s)
    ensures c.size > Safe(c, lossy) && (lossy || c.workers > 1)
  {
    LostAreFew(s);
  }

  /** A reader is stuck waiting for a slot only when a worker was lost, and it sent a chunk for each slot. */
  lemma StuckAcquirerSentMany(c: Config, lossy: bool, s: State)
    requires WorkersOk(c, s) && SlotsOk(c, s) && ReaderOk(c, s) && Full(s) && (lossy || LeftBehind(s))
    requires StuckAcquiring(c, s)
    ensures lossy && c.size > Safe(c, lossy)
  {
    assert |s.chunks| >= 3 * c.workers;
  }

  lemma StuckMeansBig(c: Config, lossy: bool, s: State)
    requires c.workers > 0 && Usually(c, lossy, s) && (StuckSending(c, s) || StuckAcquiring(c, s))
    ensures c.size > Safe(c, lossy) && (lossy || c.workers > 1)
  {
    UsuallyKept(c, lossy, s);
    if StuckSending(c, s) {
      StuckSenderSentMany(c, lossy, s);
    } else {
      StuckAcquirerSentMany(c, lossy, s);
    }
  }

  // ---- And every bigger file may be stuck ----

  /** The workers are lost one after the other. */
  lemma LosesAll(c: Config, s: State, x: seq<byte>) returns (t: State)
    requires Usually(c, true, s) && AtWork(s.busy, 0, c.workers, x)
    ensures Usually(c, true, t) && t == s.(busy := map[], gone := t.gone, lost := t.lost)
  {
    t := s;
    for i := 0 to c.workers
      invariant Usually(c, true, t) && t == s.(busy := t.busy, gone := t.gone, lost := t.lost)
      invariant AtWork(t.busy, i, c.workers, x)
    {
      t := Goes(c, true, t, Lose(i));
    }
    assert t.busy == map[];
  }

  /** Every worker at a chunk, the queue full, and the reader with one more. */
  lemma FillsQueue(c: Config, x: seq<byte>, y: seq<byte>) returns (t: State)
    requires c.workers > 0 && |x| == CHUNK && 0 < |y| <= CHUNK && 2 * c.workers * CHUNK + |y| <= c.size
    ensures Usually(c, true, t) && t.reader.Sending? && |t.queue| == c.workers && t.idle == 0 && t.live
    ensures AtWork(t.busy, 0, c.workers, x) && t.results == map[] && t.pending == map[] && t.collector.Running?
  {
    t := KeepsAllBusy(c, true, x);
    for i := 0 to c.workers
      invariant Usually(c, true, t) && Crowded(c, t, x) && |t.chunks| == c.workers + i && |t.queue| == i
      invariant t.idle == 0 && AtWork(t.busy, 0, c.workers, x) && t.results == map[]
    {
      SendsOneMore(c, true, t, x);
      t := Sent(t, x);
    }
    Holds(c, true, t, y);
    t := Held(t, y);
  }

  /** All workers lost with the queue full: the sender waits for ever. */
  lemma LossesHang(c: Config, x: seq<byte>, y: seq<byte>) returns (t: State)
    requires c.workers > 0 && |x| == CHUNK && 0 < |y| <= CHUNK && Safe(c, true) + |y| <= c.size
    ensures Usually(c, true, t) && StuckSending(c, t)
  {
    t := FillsQueue(c, x, y);
    t := LosesAll(c, t, x);
    t := Goes(c, true, t, Finish);
    t := Goes(c, true, t, Report);
  }

  /** The first chunk cannot be compressed, or not be written. */
  lemma FailsAtTheFirst(c: Config, s: State, x: seq<byte>) returns (t: State)
    requires Usually(c, false, s) && s.collector.Running? && s.pending == map[] && s.next == 0
    requires s.results == map[0 := c.deflate(x)]
    ensures Usually(c, false, t)
    ensures t == s.(collector := Ended(false), results := t.results, pending := t.pending)
  {
    t := Goes(c, false, s, Receive(0));
    if c.deflate(x).Some? {
      t := Goes(c, false, t, WriteFail);
    }
  }

  /** One failure with the queue full, and no worker lost: the sender waits for ever. */
  lemma FailureHangs(c: Config, x: seq<byte>, y: seq<byte>) returns (t: State)
    requires c.workers > 1 && |x| == CHUNK && 0 < |y| <= CHUNK && Safe(c, false) + |y| <= c.size
    ensures Usually(c, false, t) && StuckSending(c, t)
  {
    t := KeepsAllBusy(c, false, x);
    t := TurnsTo(c, false, t, x);
    t := FillsUp(c, false, t, x, y);
    t := FailsAtTheFirst(c, t, x);
    t := GivesUp(c, false, t, x);
    t := Goes(c, false, t, Report);
  }

  lemma BigFilesHang(c: Config, lossy: bool) returns (t: State)
    requires c.workers > 0 && c.size > Safe(c, lossy) && (lossy || c.workers > 1)
    ensures Usually(c, lossy, t) && StuckSending(c, t)
  {
    var rest := c.size - Safe(c, lossy);
    var x, y := seq(CHUNK, _ => 0), seq(if rest < CHUNK then rest else CHUNK, _ => 0);
    if lossy {
      t := LossesHang(c, x, y);
    } else {
      t := FailureHangs(c, x, y);
    }
  }

  /**
   What a caller can look at beforehand: whatever is lost at work and whatever fails, the pipeline always comes to an end
   exactly for files of no more than two full chunks for each worker, and of one more if only a write or a chunk may fail
   (with a single worker it then always does).
   */
  lemma NeverStuckExactlyUpTo(c: Config, lossy: bool)
    requires c.workers > 0
    ensures (forall s :: Usually(c, lossy, s) ==> Joinable(s) || CanGoOn(c, s))
            <==> c.size <= Safe(c, lossy) || (!lossy && c.workers == 1)
  {
    forall s | Usually(c, lossy, s)
      ensures Reachable(c, s) && (!Joinable(s) && !CanGoOn(c, s) <==> StuckSending(c, s) || StuckAcquiring(c, s))
    {
      UsuallyIsReachable(c, lossy, s);
      StuckInTwoWays(c, s);
    }
    if c.size <= Safe(c, lossy) || (!lossy && c.workers == 1) {
      forall s | Usually(c, lossy, s)
        ensures Joinable(s) || CanGoOn(c, s)
      {
        if StuckSending(c, s) || StuckAcquiring(c, s) {
          StuckMeansBig(c, lossy, s);
        }
      }
    } else {
      var t := BigFilesHang(c, lossy);
    }
  }
}
