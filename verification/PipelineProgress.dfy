/** When the pipeline comes to an end, and exactly when it hangs. */
module PipelineProgress {
  import opened Pipelines
  import opened PipelineOutcomes

  /** The steps of the program itself; the others are accidents, and the user's. */
  predicate Own(e: Event) {
    e != Cancel && e != Stray && !e.Lose? && e != WriteFail && e != FlushFail && e != ReadError
  }

  ghost predicate CanGoOn(c: Config, s: State) {
    exists e :: Own(e) && Can(c, s, e)
  }

  /** The queue is full, and nobody is left to empty it. */
  predicate StuckSending(c: Config, s: State) {
    s.reader.Sending? && |s.queue| == c.workers && s.idle == 0 && s.busy == map[] && s.collector.Ended? && !s.live
  }

  /** Every slot waits for a chunk that was lost, and the workers that are left wait for more. */
  predicate StuckAcquiring(c: Config, s: State) {
    && s.reader.Acquiring? && !s.canceled && s.used == Limit(c) && s.queue == [] && s.idle > 0 && s.busy == map[]
    && s.results == map[] && s.collector.Running? && s.next in s.lost
  }

  /** Where the workers can go on. */
  lemma WorkersGoOn(c: Config, s: State)
    ensures s.busy != map[] ==> CanGoOn(c, s)
    ensures s.idle > 0 && s.queue != [] ==> CanGoOn(c, s)
    ensures s.idle > 0 && s.reader.Over? ==> CanGoOn(c, s)
  {
    if s.busy != map[] {
      var k :| k in s.busy;
      assert Can(c, s, Deliver(k)) && Own(Deliver(k));
    }
    assert Can(c, s, Take) ==> Own(Take);
    assert Can(c, s, Leave) ==> Own(Leave);
  }

  /** Where the collector can go on. */
  lemma CollectorGoesOn(c: Config, s: State)
    ensures s.collector.Ended? && s.live ==> CanGoOn(c, s)
    ensures s.collector.Running? && (s.next in s.pending || s.results != map[] || (s.idle == 0 && s.busy == map[]))
      ==> CanGoOn(c, s)
  {
    if s.collector.Running? && s.next !in s.pending && s.results != map[] {
      var k :| k in s.results;
      assert Can(c, s, Receive(k)) && Own(Receive(k));
    }
    assert Can(c, s, Report) ==> Own(Report);
    assert Can(c, s, Write) ==> Own(Write);
    assert Can(c, s, Finish) ==> Own(Finish);
  }

  /** The places where the reader can go on. */
  lemma ReaderGoesOn(c: Config, s: State)
    ensures s.reader.Top? || s.reader.Filling? ==> CanGoOn(c, s)
    ensures s.reader.Acquiring? && (s.canceled || !s.live || s.used < Limit(c)) ==> CanGoOn(c, s)
    ensures s.reader.Sending? && |s.queue| < c.workers ==> CanGoOn(c, s)
  {
    assert Can(c, s, Look) ==> Own(Look);
    assert Can(c, s, ReadEnd) ==> Own(ReadEnd);
    assert Can(c, s, Acquire) ==> Own(Acquire);
    assert Can(c, s, Send) ==> Own(Send);
  }

  /** The queue never holds more than it has room for. */
  ghost predicate QueueFits(c: Config, s: State) {
    |s.queue| <= c.workers
  }

  lemma StepKeepsRoom(c: Config, s: State, e: Event)
    requires QueueFits(c, s) && Can(c, s, e)
    ensures QueueFits(c, Do(c, s, e))
  {
  }

  lemma {:induction false} RunKeepsRoom(c: Config, s: State, es: seq<Event>, t: State)
    requires QueueFits(c, s) && Leads(c, s, es, t)
    ensures QueueFits(c, t)
    decreases |es|
  {
    if es != [] {
      StepKeepsRoom(c, s, es[0]);
      RunKeepsRoom(c, Do(c, s, es[0]), es[1..], t);
    }
  }

  /** A chunk that should be written next and is nowhere to be found was lost. */
  lemma NextIsLost(c: Config, s: State)
    requires Inv(c, s) && s.reader.Acquiring? && s.used == Limit(c) && s.queue == [] && s.busy == map[]
    requires s.results == map[] && s.next !in s.pending
    ensures s.next in s.lost
  {
  }

  /** A state that is neither joined nor able to go on is stuck in one of the two ways, and in no other. */
  lemma StuckInTwoWays(c: Config, s: State)
    requires c.workers > 0 && Reachable(c, s)
    ensures !Joinable(s) && !CanGoOn(c, s) <==> StuckSending(c, s) || StuckAcquiring(c, s)
  {
    ReachableIsInv(c, s);
    var es :| Leads(c, Init(c), es, s);
    RunKeepsRoom(c, Init(c), es, s);
    WorkersGoOn(c, s);
    CollectorGoesOn(c, s);
    ReaderGoesOn(c, s);
    if !Joinable(s) && !CanGoOn(c, s) && s.reader.Acquiring? {
      NextIsLost(c, s);
    }
  }

  /** With every worker there and a collector that did not fail, an unfinished pipeline can always go on. */
  lemma NeverStuckWithoutLoss(c: Config, s: State)
    requires c.workers > 0 && Reachable(c, s) && !Joinable(s)
    requires s.lost == {} && s.strayed == 0 && s.collector != Ended(false)
    ensures CanGoOn(c, s)
  {
    ReachableIsInv(c, s);
    StuckInTwoWays(c, s);
  }

  /** What is still to be done. */
  function Work(c: Config, s: State): int {
    (match s.reader
     case Top => 3 + 8 * (c.size - s.readTotal)
     case Filling => 2 + 8 * (c.size - s.readTotal)
     case Acquiring(_) => 9 + 8 * (c.size - s.readTotal)
     case Sending(_) => 8 + 8 * (c.size - s.readTotal)
     case Over(_) => 0)
    + 4 * |s.queue| + s.idle + 4 * |s.busy| + 2 * |s.results| + |s.pending|
    + (if s.collector.Running? then 1 else 0) + (if s.live then 1 else 0) + (if s.canceled then 0 else 1)
  }

  lemma WorkIsNoLess(c: Config, s: State)
    requires Inv(c, s)
    ensures Work(c, s) >= 0
  {
  }

  lemma ReaderDoesWork(c: Config, s: State, e: Event)
    requires ReaderOk(c, s) && Can(c, s, e) && OfReader(e)
    ensures Work(c, Do(c, s, e)) < Work(c, s)
  {
  }

  lemma DeliveryDoesWork(c: Config, s: State, e: Event)
    requires OnePlace(s) && Can(c, s, e) && e.Deliver?
    ensures Work(c, Do(c, s, e)) < Work(c, s)
  {
    OneLess(s.busy, e.k);
    var t := Do(c, s, e);
    assert |t.busy| == |s.busy| - 1;
    if s.collector.Running? {
      OneMore(s.results, e.k, c.deflate(s.busy[e.k]));
      assert |t.results| <= |s.results| + 1 && t.idle == s.idle + 1;
    } else {
      assert t.results == s.results && t.idle == s.idle;
    }
  }

  lemma WorkersDoWork(c: Config, s: State, e: Event)
    requires QueueOk(s) && PlacesOk(s) && Can(c, s, e) && OfWorkers(e) && !e.Deliver?
    ensures Work(c, Do(c, s, e)) < Work(c, s)
  {
    match e
    case Take => OneMore(s.busy, s.queue[0].0, s.queue[0].1);
    case Lose(k) => OneLess(s.busy, k);
    case _ =>
  }

  lemma ReceivingDoesWork(c: Config, s: State, e: Event)
    requires OnePlace(s) && Can(c, s, e) && e.Receive?
    ensures Work(c, Do(c, s, e)) < Work(c, s)
  {
    OneLess(s.results, e.k);
    if s.results[e.k].Some? {
      OneMore(s.pending, e.k, s.results[e.k].value);
    }
  }

  lemma CollectorDoesWork(c: Config, s: State, e: Event)
    requires Can(c, s, e) && !OfReader(e) && !OfWorkers(e) && !e.Receive?
    ensures Work(c, Do(c, s, e)) < Work(c, s)
  {
    if e.Write? {
      OneLess(s.pending, s.next);
    }
  }

  /** Every step, own or not, leaves less to be done. */
  lemma EveryStepDoesWork(c: Config, s: State, e: Event)
    requires Inv(c, s) && Can(c, s, e)
    ensures Work(c, Do(c, s, e)) < Work(c, s)
  {
    if OfReader(e) {
      ReaderDoesWork(c, s, e);
    } else if e.Deliver? {
      DeliveryDoesWork(c, s, e);
    } else if OfWorkers(e) {
      WorkersDoWork(c, s, e);
    } else if e.Receive? {
      ReceivingDoesWork(c, s, e);
    } else {
      CollectorDoesWork(c, s, e);
    }
  }

  lemma {:induction false} RunsDoWork(c: Config, s: State, es: seq<Event>, t: State)
    requires Inv(c, s) && Leads(c, s, es, t)
    ensures Inv(c, t) && |es| <= Work(c, s) - Work(c, t)
    decreases |es|
  {
    if es != [] {
      StepKeepsInv(c, s, es[0]);
      EveryStepDoesWork(c, s, es[0]);
      RunsDoWork(c, Do(c, s, es[0]), es[1..], t);
    }
  }

  /** So every run ends, after a number of steps that the announced size and the workers bound. */
  lemma RunsAreBounded(c: Config, es: seq<Event>, t: State)
    requires c.workers > 0 && Leads(c, Init(c), es, t)
    ensures |es| <= 8 * c.size + c.workers + 6
  {
    InitKeepsInv(c);
    RunsDoWork(c, Init(c), es, t);
    WorkIsNoLess(c, t);
  }
}
