/**
 The queue of compress requests that the backend keeps for its windows, as a value.

 A request leaves the queue only when its lease is acknowledged, or when the window that holds it
 dies after announcing that it is about to act. `Step` runs one backend call and keeps the history
 of what was answered; the lemmas below hold after every sequence of calls, whoever makes them and
 in whatever order they arrive.
 */
module LeaseQueue {
  import opened Wrappers

  type Session = string

  datatype BatchItem = BatchItem(input: string, output: string)

  datatype Launch = Launch(
    inputs: seq<string>,
    batch: seq<BatchItem>,
    autoStart: bool,
    output: Option<string>,
    format: Option<string>)

  datatype Lease = Lease(gen: nat, session: Session, dispatched: bool)

  datatype Entry = Entry(id: nat, launch: Launch, lease: Option<Lease>)

  datatype Queue = Queue(entries: seq<Entry>, nextId: nat, nextGen: nat, recent: seq<(nat, nat)>)

  datatype Ack = Okay | Already | Stale

  datatype Take = Take(id: nat, gen: nat, launch: Option<Launch>, more: bool)

  /** How many acknowledged (id, generation) pairs are remembered. */
  const KEEP := 32

  const NOTHING := Take(0, 0, None, false)

  const EMPTY := Queue([], 0, 0, [])

  function Last<T>(s: seq<T>, n: nat): seq<T> {
    if |s| <= n then s else s[|s| - n..]
  }

  function Push(q: Queue, launch: Launch): Queue {
    q.(nextId := q.nextId + 1, entries := q.entries + [Entry(q.nextId + 1, launch, None)])
  }

  function LeaseFront(q: Queue, s: Session): (Queue, Take) {
    var more := |q.entries| > 1;
    if |q.entries| == 0 then (q, NOTHING)
    else
      var front := q.entries[0];
      match front.lease
      case Some(l) =>
        if l.session == s then (q, Take(front.id, l.gen, Some(front.launch), more)) else (q, NOTHING)
      case None =>
        var gen := q.nextGen + 1;
        var leased := front.(lease := Some(Lease(gen, s, false)));
        (q.(nextGen := gen, entries := [leased] + q.entries[1..]), Take(front.id, gen, Some(front.launch), more))
  }

  /** The front of the queue is request `id`, leased under generation `gen`. */
  predicate FrontMatches(q: Queue, id: nat, gen: nat) {
    |q.entries| > 0 && q.entries[0].id == id && q.entries[0].lease.Some? && q.entries[0].lease.value.gen == gen
  }

  function Dispatch(q: Queue, id: nat, gen: nat): (Queue, Ack) {
    if |q.entries| > 0 && q.entries[0].id == id then
      if !FrontMatches(q, id, gen) then (q, Stale)
      else if q.entries[0].lease.value.dispatched then (q, Already)
      else
        var front := q.entries[0];
        (q.(entries := [front.(lease := Some(front.lease.value.(dispatched := true)))] + q.entries[1..]), Okay)
    else if (id, gen) in q.recent then (q, Already)
    else (q, Stale)
  }

  function Acknowledge(q: Queue, id: nat, gen: nat): (Queue, Ack) {
    if FrontMatches(q, id, gen) then
      (q.(entries := q.entries[1..], recent := Last(q.recent + [(id, gen)], KEEP)), Okay)
    else if (id, gen) in q.recent then (q, Already)
    else (q, Stale)
  }

  predicate HeldBy(e: Entry, s: Session) {
    e.lease.Some? && e.lease.value.session == s
  }

  /** What the death of session `s` leaves: undispatched requests go back, dispatched ones are dropped. */
  function Released(es: seq<Entry>, s: Session): seq<Entry> {
    if es == [] then []
    else if !HeldBy(es[0], s) then [es[0]] + Released(es[1..], s)
    else if es[0].lease.value.dispatched then Released(es[1..], s)
    else [es[0].(lease := None)] + Released(es[1..], s)
  }

  /** How many requests the death of session `s` gives back. */
  function Restored(es: seq<Entry>, s: Session): nat {
    if es == [] then 0
    else (if HeldBy(es[0], s) && !es[0].lease.value.dispatched then 1 else 0) + Restored(es[1..], s)
  }

  predicate HasUnleased(q: Queue) {
    exists i :: 0 <= i < |q.entries| && q.entries[i].lease.None?
  }

  // ---- Histories: one backend call at a time, with every positive answer written down ----

  datatype Call =
    | DoPush(launch: Launch)
    | DoLease(session: Session)
    | DoDispatch(id: nat, gen: nat)
    | DoAck(id: nat, gen: nat)
    | DoRelease(session: Session)

  datatype Answer = Pushed | Took(take: Take) | Answered(ack: Ack) | Freed

  /** How a request left the queue: acknowledged, or dropped with its window. */
  datatype Exit = Acked(gen: nat) | Discarded(gen: nat)

  /**
   `pushes[id - 1]` is the request numbered `id` and `leases[gen - 1]` what generation `gen` was granted
   to. `dispatches` maps a request to the generation its dispatch was granted under, `exits` lists how
   requests left, in the order they did, `acks` the acknowledged pairs, and `dead` the sessions that died.
   */
  datatype History = History(
    q: Queue,
    pushes: seq<Launch>,
    leases: seq<(nat, Session)>,
    dispatches: map<nat, nat>,
    exits: seq<Exit>,
    acks: seq<(nat, nat)>,
    dead: set<Session>)

  const START := History(EMPTY, [], [], map[], [], [], {})

  /** The exits that the death of `s` causes. */
  function Dropped(es: seq<Entry>, s: Session): seq<Exit> {
    if es == [] then []
    else if HeldBy(es[0], s) && es[0].lease.value.dispatched then
      [Discarded(es[0].lease.value.gen)] + Dropped(es[1..], s)
    else Dropped(es[1..], s)
  }

  function Step(h: History, c: Call): (History, Answer) {
    match c
    case DoPush(launch) => (h.(q := Push(h.q, launch), pushes := h.pushes + [launch]), Pushed)
    case DoLease(s) =>
      var (q, take) := LeaseFront(h.q, s);
      (h.(q := q, leases := if q.nextGen > h.q.nextGen then h.leases + [(take.id, s)] else h.leases), Took(take))
    case DoDispatch(id, gen) =>
      var (q, a) := Dispatch(h.q, id, gen);
      (h.(q := q, dispatches := if a.Okay? then h.dispatches[id := gen] else h.dispatches), Answered(a))
    case DoAck(id, gen) =>
      var (q, a) := Acknowledge(h.q, id, gen);
      (if a.Okay? then h.(q := q, acks := h.acks + [(id, gen)], exits := h.exits + [Acked(gen)]) else h, Answered(a))
    case DoRelease(s) =>
      (h.(q := h.q.(entries := Released(h.q.entries, s)),
          exits := h.exits + Dropped(h.q.entries, s),
          dead := h.dead + {s}), Freed)
  }

  /** The history after `calls`, starting from the empty queue. */
  function After(calls: seq<Call>): History {
    if calls == [] then START else Step(After(calls[..|calls| - 1]), calls[|calls| - 1]).0
  }

  /** What call number `i` of `calls` was answered. */
  function AnswerTo(calls: seq<Call>, i: nat): Answer
    requires i < |calls|
  {
    Step(After(calls[..i]), calls[i]).1
  }

  // ---- The invariant: requests are numbered as they come and leave in that order ----

  /** Generation `gen` was granted to session `s` for request `id`. */
  ghost predicate Granted(h: History, id: nat, gen: nat, s: Session) {
    1 <= gen <= |h.leases| && h.leases[gen - 1] == (id, s)
  }

  ghost predicate Queued(h: History, id: nat) {
    |h.exits| < id <= h.q.nextId
  }

  ghost predicate EntriesOk(h: History) {
    && |h.pushes| == h.q.nextId == |h.exits| + |h.q.entries|
    && (forall k :: 0 <= k < |h.q.entries| ==>
          h.q.entries[k].id == |h.exits| + 1 + k && h.q.entries[k].launch == h.pushes[|h.exits| + k])
    && (forall k :: 0 < k < |h.q.entries| ==> h.q.entries[k].lease.None?)
  }

  /** Only a front request was ever leased, and while its session lives the lease stays on it. */
  ghost predicate LeasesOk(h: History) {
    && |h.leases| == h.q.nextGen
    && (forall g :: 0 <= g < |h.leases| ==> 1 <= h.leases[g].0 <= h.q.nextId && h.leases[g].0 <= |h.exits| + 1)
    && (forall g :: 0 <= g < |h.leases| && h.leases[g].0 == |h.exits| + 1 && h.leases[g].1 !in h.dead ==>
          FrontMatches(h.q, |h.exits| + 1, g + 1))
  }

  /** The front's lease is one the history granted, and its flag tells whether it was dispatched. */
  ghost predicate FrontOk(h: History) {
    |h.q.entries| > 0 && h.q.entries[0].lease.Some? ==>
      var e := h.q.entries[0];
      && Granted(h, e.id, e.lease.value.gen, e.lease.value.session)
      && (e.lease.value.dispatched <==> e.id in h.dispatches)
  }

  /** A dispatched request that is still queued carries the lease it was dispatched under. */
  ghost predicate DispatchesOk(h: History) {
    forall id :: id in h.dispatches ==>
      && 1 <= id <= |h.exits| + 1
      && 1 <= h.dispatches[id] <= |h.leases|
      && h.leases[h.dispatches[id] - 1].0 == id
      && (id == |h.exits| + 1 ==> FrontMatches(h.q, id, h.dispatches[id]))
  }

  ghost predicate ExitsOk(h: History) {
    forall i :: 0 <= i < |h.exits| ==> ExitOk(h, i)
  }

  /** Request `i + 1` left under a generation granted to it; if discarded, after its dispatch, with its own session. */
  ghost predicate ExitOk(h: History, i: nat)
    requires i < |h.exits|
  {
    && 1 <= h.exits[i].gen <= |h.leases|
    && h.leases[h.exits[i].gen - 1].0 == i + 1
    && (h.exits[i].Acked? ==> (i + 1, h.exits[i].gen) in h.acks)
    && (h.exits[i].Discarded? ==>
          i + 1 in h.dispatches && h.dispatches[i + 1] == h.exits[i].gen && h.leases[h.exits[i].gen - 1].1 in h.dead)
  }

  ghost predicate AcksOk(h: History) {
    && (forall i, j :: 0 <= i < j < |h.acks| ==> h.acks[i].0 < h.acks[j].0)
    && (forall i :: 0 <= i < |h.acks| ==>
          1 <= h.acks[i].0 <= |h.exits| && h.exits[h.acks[i].0 - 1] == Acked(h.acks[i].1))
    && h.q.recent == Last(h.acks, KEEP)
  }

  ghost predicate Consistent(h: History) {
    EntriesOk(h) && LeasesOk(h) && FrontOk(h) && DispatchesOk(h) && ExitsOk(h) && AcksOk(h)
  }

  /** A death touches the front only, because nothing else is ever leased. */
  lemma {:induction false} DeathTouchesFront(es: seq<Entry>, s: Session)
    requires forall i :: 0 < i < |es| ==> es[i].lease.None?
    ensures |es| > 0 && HeldBy(es[0], s) && es[0].lease.value.dispatched ==>
              Released(es, s) == es[1..] && Dropped(es, s) == [Discarded(es[0].lease.value.gen)]
    ensures |es| > 0 && HeldBy(es[0], s) && !es[0].lease.value.dispatched ==>
              Released(es, s) == [es[0].(lease := None)] + es[1..] && Dropped(es, s) == []
    ensures |es| == 0 || !HeldBy(es[0], s) ==> Released(es, s) == es && Dropped(es, s) == []
  {
    if |es| > 0 {
      if |es| > 1 {
        assert es[1..][0] == es[1];
      }
      DeathTouchesFront(es[1..], s);
    }
  }

  /** The three shapes a call can leave the queue in: one more at the end, the same requests, or the front gone. */
  lemma EntriesKeptAtEnd(h: History, h': History, launch: Launch)
    requires EntriesOk(h)
    requires h'.q.nextId == h.q.nextId + 1 && h'.pushes == h.pushes + [launch] && h'.exits == h.exits
    requires h'.q.entries == h.q.entries + [Entry(h'.q.nextId, launch, None)]
    ensures EntriesOk(h')
  {
  }

  lemma EntriesKeptInPlace(h: History, h': History)
    requires EntriesOk(h)
    requires h'.q.nextId == h.q.nextId && h'.pushes == h.pushes && h'.exits == h.exits
    requires |h'.q.entries| == |h.q.entries| > 0 && h'.q.entries[1..] == h.q.entries[1..]
    requires h'.q.entries[0].id == h.q.entries[0].id && h'.q.entries[0].launch == h.q.entries[0].launch
    ensures EntriesOk(h')
  {
    forall k | 0 < k < |h.q.entries| ensures h'.q.entries[k] == h.q.entries[k] {
      assert h'.q.entries[k] == h'.q.entries[1..][k - 1];
    }
  }

  lemma EntriesKeptBehindFront(h: History, h': History)
    requires EntriesOk(h) && |h.q.entries| > 0
    requires h'.q.nextId == h.q.nextId && h'.pushes == h.pushes && |h'.exits| == |h.exits| + 1
    requires h'.q.entries == h.q.entries[1..]
    ensures EntriesOk(h')
  {
  }

  lemma EntriesKept(h: History, c: Call)
    requires Consistent(h)
    ensures EntriesOk(Step(h, c).0)
  {
    var h' := Step(h, c).0;
    if c.DoRelease? {
      DeathTouchesFront(h.q.entries, c.session);
    }
    if c.DoPush? {
      EntriesKeptAtEnd(h, h', c.launch);
    } else if |h'.exits| > |h.exits| {
      EntriesKeptBehindFront(h, h');
    } else if |h.q.entries| > 0 {
      EntriesKeptInPlace(h, h');
    }
  }

  /** What a death changes, said without `Released`. */
  lemma DeathShape(h: History, s: Session)
    requires Consistent(h)
    ensures var h' := Step(h, DoRelease(s)).0;
      if |h.q.entries| == 0 || !HeldBy(h.q.entries[0], s) then h' == h.(dead := h.dead + {s})
      else if h.q.entries[0].lease.value.dispatched then
        h' == h.(q := h.q.(entries := h.q.entries[1..]), dead := h.dead + {s},
                 exits := h.exits + [Discarded(h.q.entries[0].lease.value.gen)])
      else
        h' == h.(q := h.q.(entries := [h.q.entries[0].(lease := None)] + h.q.entries[1..]), dead := h.dead + {s})
  {
    DeathTouchesFront(h.q.entries, s);
    assert h.exits + [] == h.exits;
  }

  lemma LeasesKeptByDeath(h: History, s: Session)
    requires Consistent(h)
    ensures LeasesOk(Step(h, DoRelease(s)).0)
  {
    DeathShape(h, s);
  }

  lemma LeasesKeptByAck(h: History, id: nat, gen: nat)
    requires Consistent(h)
    ensures LeasesOk(Step(h, DoAck(id, gen)).0)
  {
  }

  lemma LeasesKeptByLease(h: History, s: Session)
    requires Consistent(h)
    ensures LeasesOk(Step(h, DoLease(s)).0)
  {
  }

  lemma LeasesKept(h: History, c: Call)
    requires Consistent(h)
    ensures LeasesOk(Step(h, c).0)
  {
    if c.DoRelease? {
      LeasesKeptByDeath(h, c.session);
    } else if c.DoAck? {
      LeasesKeptByAck(h, c.id, c.gen);
    } else if c.DoLease? {
      LeasesKeptByLease(h, c.session);
    }
  }

  lemma FrontKept(h: History, c: Call)
    requires Consistent(h)
    ensures FrontOk(Step(h, c).0)
  {
    if c.DoRelease? {
      DeathShape(h, c.session);
    }
  }

  lemma DispatchesKeptByDeath(h: History, s: Session)
    requires Consistent(h)
    ensures DispatchesOk(Step(h, DoRelease(s)).0)
  {
    DeathShape(h, s);
  }

  lemma DispatchesKept(h: History, c: Call)
    requires Consistent(h)
    ensures DispatchesOk(Step(h, c).0)
  {
    if c.DoRelease? {
      DispatchesKeptByDeath(h, c.session);
    }
  }

  lemma ExitsKept(h: History, c: Call)
    requires Consistent(h)
    ensures ExitsOk(Step(h, c).0)
  {
    var h' := Step(h, c).0;
    if c.DoRelease? {
      DeathTouchesFront(h.q.entries, c.session);
    }
    if h'.exits == h.exits {
      OldExitsStay(h, h', |h.exits|);
    } else {
      OldExitsStay(h, h', |h.exits|);
      assert h'.exits[..|h.exits|] == h.exits;
      if c.DoAck? {
        assert h'.acks[|h.acks|] == (c.id, c.gen);
      }
    }
  }

  lemma OldExitsStay(h: History, h': History, n: nat)
    requires ExitsOk(h) && n == |h.exits|
    requires h.exits <= h'.exits && h.leases <= h'.leases && h.acks <= h'.acks && h.dead <= h'.dead
    requires forall id :: id in h.dispatches ==> id in h'.dispatches && h'.dispatches[id] == h.dispatches[id]
    ensures forall i :: 0 <= i < n ==> ExitOk(h', i)
  {
    forall i | 0 <= i < n ensures ExitOk(h', i) {
      assert ExitOk(h, i);
    }
  }

  lemma AcksKept(h: History, c: Call)
    requires Consistent(h)
    ensures AcksOk(Step(h, c).0)
  {
    var h' := Step(h, c).0;
    if c.DoAck? && FrontMatches(h.q, c.id, c.gen) {
      assert c.id == |h.exits| + 1;
      LastOfLast(h.acks, (c.id, c.gen), KEEP);
      NewestAckIsLast(h, h', c.id, c.gen);
    } else {
      NoNewAck(h, h');
    }
  }

  lemma NoNewAck(h: History, h': History)
    requires AcksOk(h)
    requires h'.acks == h.acks && h.exits <= h'.exits && h'.q.recent == h.q.recent
    ensures AcksOk(h')
  {
  }

  lemma NewestAckIsLast(h: History, h': History, id: nat, gen: nat)
    requires AcksOk(h) && id == |h.exits| + 1
    requires h'.exits == h.exits + [Acked(gen)] && h'.acks == h.acks + [(id, gen)]
    requires h'.q.recent == Last(h'.acks, KEEP)
    ensures AcksOk(h')
  {
  }

  lemma LastOfLast<T>(s: seq<T>, x: T, n: nat)
    requires n > 0
    ensures Last(Last(s, n) + [x], n) == Last(s + [x], n)
  {
  }

  lemma StepKeepsConsistent(h: History, c: Call)
    requires Consistent(h)
    ensures Consistent(Step(h, c).0)
  {
    EntriesKept(h, c);
    LeasesKept(h, c);
    FrontKept(h, c);
    DispatchesKept(h, c);
    ExitsKept(h, c);
    AcksKept(h, c);
  }

  lemma {:induction false} AfterIsConsistent(calls: seq<Call>)
    ensures Consistent(After(calls))
  {
    if calls != [] {
      AfterIsConsistent(calls[..|calls| - 1]);
      StepKeepsConsistent(After(calls[..|calls| - 1]), calls[|calls| - 1]);
    }
  }

  // ---- What the calls and their answers promise ----

  predicate AckedOkay(calls: seq<Call>, i: nat, id: nat, gen: nat) {
    i < |calls| && calls[i] == DoAck(id, gen) && AnswerTo(calls, i) == Answered(Okay)
  }

  predicate DispatchedOkay(calls: seq<Call>, i: nat, id: nat, gen: nat) {
    i < |calls| && calls[i] == DoDispatch(id, gen) && AnswerTo(calls, i) == Answered(Okay)
  }

  predicate TookLaunch(calls: seq<Call>, i: nat, s: Session, id: nat, gen: nat) {
    && i < |calls| && calls[i] == DoLease(s)
    && var a := AnswerTo(calls, i); a.Took? && a.take.launch.Some? && a.take.id == id && a.take.gen == gen
  }

  /** The (id, gen) pairs of the acknowledgements answered Okay, in order. */
  function OkayAcks(calls: seq<Call>): seq<(nat, nat)> {
    if calls == [] then []
    else
      var i := |calls| - 1;
      var c := calls[i];
      OkayAcks(calls[..i]) + (if c.DoAck? && Step(After(calls[..i]), c).1 == Answered(Okay) then [(c.id, c.gen)] else [])
  }

  lemma {:induction false} AcksAreTheOkayOnes(calls: seq<Call>)
    ensures After(calls).acks == OkayAcks(calls)
  {
    if calls != [] {
      AcksAreTheOkayOnes(calls[..|calls| - 1]);
    }
  }

  /** A history only grows: what was granted, dispatched or acknowledged stays written. */
  ghost predicate Extends(h: History, h': History) {
    && h.pushes <= h'.pushes && h.leases <= h'.leases && h.acks <= h'.acks && h.exits <= h'.exits && h.dead <= h'.dead
    && forall id :: id in h.dispatches ==> id in h'.dispatches && h'.dispatches[id] == h.dispatches[id]
  }

  lemma StepExtends(h: History, c: Call)
    requires Consistent(h)
    ensures Extends(h, Step(h, c).0)
  {
    if c.DoDispatch? && Step(h, c).1 == Answered(Okay) {
      assert c.id !in h.dispatches;
    }
  }

  lemma {:induction false} PrefixExtends(calls: seq<Call>, i: nat)
    requires i <= |calls|
    ensures Extends(After(calls[..i]), After(calls))
  {
    if i < |calls| {
      var n := |calls| - 1;
      assert calls[..n][..i] == calls[..i];
      PrefixExtends(calls[..n], i);
      AfterIsConsistent(calls[..n]);
      StepExtends(After(calls[..n]), calls[n]);
    } else {
      assert calls[..i] == calls;
    }
  }

  lemma BetweenExtends(calls: seq<Call>, i: nat, j: nat)
    requires i < j <= |calls|
    ensures Extends(Step(After(calls[..i]), calls[i]).0, After(calls[..j]))
  {
    assert calls[..j][..i + 1] == calls[..i + 1];
    assert calls[..i + 1][..i] == calls[..i];
    PrefixExtends(calls[..j], i + 1);
  }

  /** No request is acknowledged Okay twice, and Okay acknowledgements come in push order. */
  lemma AcksOnceInPushOrder(calls: seq<Call>, i: nat, j: nat, id: nat, gen: nat, id': nat, gen': nat)
    requires i < j
    requires AckedOkay(calls, i, id, gen) && AckedOkay(calls, j, id', gen')
    ensures id < id'
  {
    AfterIsConsistent(calls[..j]);
    AfterIsConsistent(calls[..j] + [calls[j]]);
    var h, h' := After(calls[..j]), After(calls[..j] + [calls[j]]);
    assert (calls[..j] + [calls[j]])[..j] == calls[..j];
    BetweenExtends(calls, i, j);
    var before := After(calls[..i]);
    assert h.acks[|before.acks|] == (id, gen);
    assert h'.acks[|h.acks|] == (id', gen') && h'.acks[|before.acks|] == (id, gen);
  }

  /** No request is dispatched Okay twice, whatever the generations. */
  lemma DispatchesOnce(calls: seq<Call>, i: nat, j: nat, id: nat, gen: nat, gen': nat)
    requires i < j < |calls|
    requires DispatchedOkay(calls, i, id, gen) && calls[j] == DoDispatch(id, gen')
    ensures AnswerTo(calls, j) != Answered(Okay)
  {
    AfterIsConsistent(calls[..j]);
    BetweenExtends(calls, i, j);
    assert id in After(calls[..j]).dispatches;
  }

  /**
   An acknowledgement is answered Okay iff it names the front's lease, Already iff it repeats one of the last 32 Okay
   ones.
   */
  lemma AckAnswers(calls: seq<Call>, i: nat, id: nat, gen: nat)
    requires i < |calls| && calls[i] == DoAck(id, gen)
    ensures AnswerTo(calls, i) == Answered(Okay) <==> FrontMatches(After(calls[..i]).q, id, gen)
    ensures AnswerTo(calls, i) == Answered(Already) <==> (id, gen) in Last(OkayAcks(calls[..i]), KEEP)
  {
    var h := After(calls[..i]);
    AfterIsConsistent(calls[..i]);
    AcksAreTheOkayOnes(calls[..i]);
    if (id, gen) in h.q.recent {
      assert (id, gen) in h.acks;
    }
  }

  lemma TakenIsGranted(h: History, s: Session)
    requires Consistent(h)
    ensures var (h', a) := Step(h, DoLease(s));
      a.take.launch.Some? ==>
        && Granted(h', a.take.id, a.take.gen, s) && a.take.id == |h.exits| + 1 && Queued(h', a.take.id)
        && a.take.launch.value == h.pushes[a.take.id - 1]
  {
  }

  /** A generation names one request and one session for ever. */
  lemma GenerationsAreNeverReused(
      calls: seq<Call>, i: nat, j: nat, s: Session, s': Session, id: nat, id': nat, gen: nat)
    requires i <= j && TookLaunch(calls, i, s, id, gen) && TookLaunch(calls, j, s', id', gen)
    ensures s == s' && id == id'
  {
    AfterIsConsistent(calls[..i]);
    AfterIsConsistent(calls[..j]);
    TakenIsGranted(After(calls[..i]), s);
    TakenIsGranted(After(calls[..j]), s');
    if i < j {
      BetweenExtends(calls, i, j);
      StepExtends(After(calls[..j]), calls[j]);
    }
  }

  /** Asking again changes nothing and gets the same lease. */
  lemma LeaseIsIdempotent(q: Queue, s: Session)
    ensures LeaseFront(q, s).1.launch.Some? ==> LeaseFront(LeaseFront(q, s).0, s) == LeaseFront(q, s)
    ensures LeaseFront(q, s).1.launch.None? ==> LeaseFront(q, s).0 == q
  {
  }

  lemma QueuedMeansInTheQueue(h: History, id: nat)
    requires EntriesOk(h) && 1 <= id <= |h.pushes|
    ensures Queued(h, id) <==> exists k :: 0 <= k < |h.q.entries| && h.q.entries[k].id == id
    ensures !Queued(h, id) <==> id <= |h.exits|
  {
    if Queued(h, id) {
      assert h.q.entries[id - |h.exits| - 1].id == id;
    }
  }

  lemma OutMeansExit(h: History, id: nat)
    requires ExitsOk(h) && AcksOk(h) && 1 <= id <= |h.exits|
    ensures h.exits[id - 1].Acked? <==> exists gen :: (id, gen) in h.acks
    ensures h.exits[id - 1].Discarded? ==>
              && id in h.dispatches && h.dispatches[id] == h.exits[id - 1].gen
              && exists s :: Granted(h, id, h.exits[id - 1].gen, s) && s in h.dead
  {
    var gen := h.exits[id - 1].gen;
    assert ExitOk(h, id - 1);
    assert h.exits[id - 1].Acked? ==> (id, gen) in h.acks;
    assert h.exits[id - 1].Discarded? ==> Granted(h, id, gen, h.leases[gen - 1].1);
  }

  /**
   Every pushed request is in exactly one place: still queued, acknowledged Okay, or discarded;
   it is discarded only after a dispatch answered Okay, by the death of the session that dispatched it.
   */
  lemma EveryRequestIsAccountedFor(calls: seq<Call>, id: nat)
    requires 1 <= id <= |After(calls).pushes|
    ensures var h := After(calls);
      && (Queued(h, id) <==> exists k :: 0 <= k < |h.q.entries| && h.q.entries[k].id == id)
      && (!Queued(h, id) <==> id <= |h.exits|)
      && (!Queued(h, id) ==>
            (h.exits[id - 1].Acked? <==> exists gen :: (id, gen) in OkayAcks(calls)))
      && (!Queued(h, id) && h.exits[id - 1].Discarded? ==>
            && id in h.dispatches && h.dispatches[id] == h.exits[id - 1].gen
            && exists s :: Granted(h, id, h.exits[id - 1].gen, s) && s in h.dead)
  {
    AfterIsConsistent(calls);
    AcksAreTheOkayOnes(calls);
    QueuedMeansInTheQueue(After(calls), id);
    if !Queued(After(calls), id) {
      OutMeansExit(After(calls), id);
    }
  }

  /** The death of a session takes a request away only if that very session had it dispatched, and changes no other lease. */
  lemma DeathHurtsOnlyItsOwn(calls: seq<Call>, s: Session, k: nat)
    requires k < |After(calls).q.entries|
    ensures var e, es := After(calls).q.entries[k], Step(After(calls), DoRelease(s)).0.q.entries;
      && (!HeldBy(e, s) ==> e in es)
      && (HeldBy(e, s) && !e.lease.value.dispatched ==> e.(lease := None) in es)
      && (HeldBy(e, s) && e.lease.value.dispatched ==> forall e' :: e' in es ==> e'.id != e.id)
  {
    var h := After(calls);
    AfterIsConsistent(calls);
    DeathShape(h, s);
    if k > 0 {
      assert h.q.entries[k] == h.q.entries[1..][k - 1];
    }
  }
}
