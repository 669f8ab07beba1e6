/** What the pipeline makes of a file, over every run. */
module PipelineOutcomes {
  import opened Wrappers
  import opened Crc
  import opened Containers
  import opened FlatFile
  import opened Pipelines

  /** The events lead from `s` to `t`. */
  predicate Leads(c: Config, s: State, es: seq<Event>, t: State)
    decreases |es|
  {
    if es == [] then s == t else Can(c, s, es[0]) && Leads(c, Do(c, s, es[0]), es[1..], t)
  }

  ghost predicate Reachable(c: Config, s: State) {
    exists es :: Leads(c, Init(c), es, s)
  }

  lemma {:induction false} RunKeepsInv(c: Config, s: State, es: seq<Event>, t: State)
    requires Inv(c, s) && Leads(c, s, es, t)
    ensures Inv(c, t)
    decreases |es|
  {
    if es != [] {
      StepKeepsInv(c, s, es[0]);
      RunKeepsInv(c, Do(c, s, es[0]), es[1..], t);
    }
  }

  lemma ReachableIsInv(c: Config, s: State)
    requires c.workers > 0 && Reachable(c, s)
    ensures Inv(c, s)
  {
    var es :| Leads(c, Init(c), es, s);
    InitKeepsInv(c);
    RunKeepsInv(c, Init(c), es, s);
  }

  /** Every thread was joined. */
  predicate Joinable(s: State) {
    s.reader.Over? && s.idle == 0 && s.busy == map[] && s.collector.Ended? && !s.live
  }

  datatype Outcome = Zip(body: seq<byte>, crc: bv32, raw: nat) | TooBig | Canceled | Failed

  /** What is made of a joined pipeline; `diskOk` says whether the last writes work. */
  function Verdict(c: Config, s: State, diskOk: bool): Outcome
    requires Joinable(s)
  {
    match s.reader.how
    case ReadFailed => Failed
    case Grew => TooBig
    case WasCanceled => Canceled
    case _ =>
      if !s.collector.ok || s.next != |s.chunks| then Failed
      else if s.readTotal != c.size then TooBig
      else if !diskOk then Failed
      else if |s.body| + |END_BLOCK| > MAX_SIZE then TooBig
      else Zip(s.body + END_BLOCK, s.crc ^ ONES, s.readTotal)
  }

  /** If a zip comes out, its body is every chunk that was sent, in order, with the checksum of just those chunks. */
  lemma ZipHoldsWhatWasSent(c: Config, s: State, diskOk: bool)
    requires c.workers > 0 && Reachable(c, s) && Joinable(s) && Verdict(c, s, diskOk).Zip?
    ensures var zip := Verdict(c, s, diskOk);
      && zip.body == Joined(c, s.chunks, |s.chunks|) + END_BLOCK
      && (forall j :: 0 <= j < |s.chunks| ==> c.deflate(s.chunks[j]).Some?)
      && zip.crc == Checksum(Flat(s.chunks)) && zip.raw == c.size == |s.seen| && s.lost == {}
  {
    ReachableIsInv(c, s);
    NothingLost(s);
  }

  lemma NothingLost(s: State)
    requires QueueOk(s) && PlacesOk(s) && s.next == |s.chunks|
    ensures s.lost == {}
  {
    assert forall k :: k in s.lost ==> s.next <= k < Taken(s);
  }

  /**
   That is the whole source, of the announced size, unless the reader was turned away with a chunk in hand. So the
   source comes out whole exactly if the reader saw its end.
   */
  lemma ZipIsWholeExactlyAtEof(c: Config, s: State, diskOk: bool)
    requires c.workers > 0 && Reachable(c, s) && Joinable(s) && Verdict(c, s, diskOk).Zip?
    ensures Flat(s.chunks) == s.seen <==> s.reader.how == AtEof
  {
    ReachableIsInv(c, s);
  }

  /** A reader that was turned away would mean a collector that did not end well. */
  lemma ReaderSawTheEnd(c: Config, s: State, diskOk: bool)
    requires ReaderOk(c, s) && EndingsOk(s) && s.lost == {} && s.strayed == 0
    requires Joinable(s) && Verdict(c, s, diskOk).Zip?
    ensures Flat(s.chunks) == s.seen
  {
  }

  /**
   Workers may be lost in the middle of a chunk, writes may fail, the source may change and the user may cancel: as
   long as no worker goes while it waits for work, a zip is right about the whole source.
   */
  lemma ZipIsRight(c: Config, s: State, diskOk: bool)
    requires c.workers > 0 && Reachable(c, s) && Joinable(s) && Verdict(c, s, diskOk).Zip?
    requires s.strayed == 0
    ensures var zip := Verdict(c, s, diskOk);
      && zip.body == Joined(c, s.chunks, |s.chunks|) + END_BLOCK
      && (forall j :: 0 <= j < |s.chunks| ==> c.deflate(s.chunks[j]).Some?)
      && Flat(s.chunks) == s.seen && |s.seen| == c.size && zip.raw == c.size
      && zip.crc == Checksum(s.seen)
  {
    ZipHoldsWhatWasSent(c, s, diskOk);
    assert ReaderOk(c, s) && EndingsOk(s) by {
      ReachableIsInv(c, s);
    }
    ReaderSawTheEnd(c, s, diskOk);
  }

  /** The slots in use are the chunks that have one and are not written, and they stay within three for each worker. */
  lemma SlotsAreBounded(c: Config, s: State)
    requires c.workers > 0 && Reachable(c, s)
    ensures s.used == Acquired(s) - s.next && s.used <= 3 * c.workers
    ensures |s.busy| + |s.results| + |s.pending| <= s.used
  {
    ReachableIsInv(c, s);
    HeldAreFew(s.busy.Keys, s.results.Keys, s.pending.Keys, s.next, Taken(s));
  }

  lemma HeldAreFew(a: set<nat>, b: set<nat>, c: set<nat>, lo: nat, hi: nat)
    requires lo <= hi && a !! b && a !! c && b !! c && forall k :: k in a || k in b || k in c ==> lo <= k < hi
    ensures |a| + |b| + |c| <= hi - lo
  {
    assert |a + b + c| == |a| + |b| + |c|;
    Within(a + b + c, lo, hi);
  }

  lemma {:induction false} Within(held: set<nat>, lo: nat, hi: nat)
    requires lo <= hi && forall k :: k in held ==> lo <= k < hi
    ensures |held| <= hi - lo
    decreases hi - lo
  {
    if lo == hi {
      assert held == {};
    } else {
      Within(held - {hi - 1}, lo, hi - 1);
      assert hi - 1 in held ==> held == (held - {hi - 1}) + {hi - 1};
      assert hi - 1 !in held ==> held == held - {hi - 1};
    }
  }

  /** The entry that a zip is sealed with. */
  function EntryFor(zip: Outcome, time: nat, date: nat): Entry
    requires zip.Zip?
  {
    Entry(|zip.body|, zip.raw, zip.crc as nat, time, date)
  }

  /**
   From the source to the file and back: the sealed file reads back to the chunks of the whole source, compressed one
   by one, with its size and checksum, unless the container is within 31 bytes of four gigabytes.
   */
  lemma SealedFileReadsBack(c: Config, s: State, time: nat, date: nat)
    requires c.workers > 0 && Reachable(c, s) && Joinable(s) && s.strayed == 0 && Verdict(c, s, true).Zip?
    requires c.size < 0x1_0000_0000 && time < 0x1_0000 && date < 0x1_0000
    requires |Verdict(c, s, true).body| + LOCAL_LEN < 0x1_0000_0000
    ensures var zip := Verdict(c, s, true); var e := EntryFor(zip, time, date);
      && Read(Archive(e, zip.body)) == Some(Found(e, Joined(c, s.chunks, |s.chunks|) + END_BLOCK))
      && Flat(s.chunks) == s.seen && e.raw == |s.seen| && e.crc == Checksum(s.seen) as nat
  {
    ZipIsRight(c, s, true);
    var zip := Verdict(c, s, true);
    ArchiveReadsBack(EntryFor(zip, time, date), zip.body);
  }
}
