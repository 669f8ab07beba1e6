/**
 One job at a time, started by windows that may die at any moment.

 The first part is the job manager as a value; the second lets the two-step start of a job (find out
 whom the call acts for, then register the job) interleave with windows opening and dying and with the
 shutdown of the program.
 */
module Jobs {
  import opened Wrappers
  import opened WindowSessions

  type JobId = string

  datatype JobInfo = JobInfo(kind: string, target: string, owner: Session)

  /** A running job and its cancel flag. */
  datatype Active = Active(cancel: bool, info: JobInfo)

  datatype JobState = JobState(active: map<JobId, Active>, retired: set<Session>, closing: bool)

  datatype StartError = ShuttingDown | WindowClosed | JobRunning

  const NO_JOBS := JobState(map[], {}, false)

  function StartJob(st: JobState, id: JobId, info: JobInfo): Result<JobState, StartError> {
    if st.closing then Err(ShuttingDown)
    else if info.owner in st.retired then Err(WindowClosed)
    else if st.active != map[] then Err(JobRunning)
    else Ok(st.(active := st.active[id := Active(false, info)]))
  }

  function CancelJob(st: JobState, id: JobId): JobState {
    if id in st.active then st.(active := st.active[id := st.active[id].(cancel := true)]) else st
  }

  predicate Owned(e: Active, s: Session) {
    e.info.owner == s
  }

  function Marked(e: Active, s: Session): Active {
    if Owned(e, s) then e.(cancel := true) else e
  }

  /** The jobs with the cancel flags set on those among `ids` that `s` owns. */
  function MarkedOn(active: map<JobId, Active>, ids: set<JobId>, s: Session): map<JobId, Active> {
    map id | id in active :: if id in ids then Marked(active[id], s) else active[id]
  }

  function OwnedAmong(active: map<JobId, Active>, ids: set<JobId>, s: Session): set<JobId> {
    set id | id in ids && id in active && Owned(active[id], s)
  }

  function RetireOwner(st: JobState, s: Session): JobState {
    st.(retired := st.retired + {s}, active := MarkedOn(st.active, st.active.Keys, s))
  }

  lemma MarkOneMore(active: map<JobId, Active>, ids: set<JobId>, id: JobId, s: Session)
    requires id in active && id !in ids
    ensures MarkedOn(active, ids + {id}, s) == MarkedOn(active, ids, s)[id := Marked(active[id], s)]
    ensures |OwnedAmong(active, ids + {id}, s)| == |OwnedAmong(active, ids, s)| + (if Owned(active[id], s) then 1 else 0)
    ensures MarkedOn(active, ids, s).Keys == active.Keys && MarkedOn(active, ids, s)[id] == active[id]
  {
    assert OwnedAmong(active, ids + {id}, s) == OwnedAmong(active, ids, s) + (if Owned(active[id], s) then {id} else {});
  }

  function FinishJob(st: JobState, id: JobId): JobState {
    st.(active := st.active - {id})
  }

  function ShutDown(st: JobState): JobState {
    st.(closing := true, active := map id | id in st.active :: st.active[id].(cancel := true))
  }

  class JobManager {
    var active: map<JobId, Active>
    var retired: set<Session>
    var closing: bool

    function View(): JobState
      reads this
    {
      JobState(active, retired, closing)
    }

    constructor ()
      ensures View() == NO_JOBS
    {
      active, retired, closing := map[], {}, false;
    }

    method Start(id: JobId, info: JobInfo) returns (r: Result<(), StartError>)
      modifies this
      ensures match StartJob(old(View()), id, info)
              case Ok(st) => r == Ok(()) && View() == st
              case Err(e) => r == Err(e) && View() == old(View())
    {
      if closing {
        return Err(ShuttingDown);
      }
      if info.owner in retired {
        return Err(WindowClosed);
      }
      if active != map[] {
        return Err(JobRunning);
      }
      active := active[id := Active(false, info)];
      r := Ok(());
    }

    method Cancel(id: JobId) returns (found: bool)
      modifies this
      ensures View() == CancelJob(old(View()), id) && (found <==> id in old(active))
    {
      found := id in active;
      if found {
        active := active[id := active[id].(cancel := true)];
      }
    }

    /** Goes over the running jobs and counts those it cancels. */
    method RetireSession(s: Session) returns (n: nat)
      modifies this
      ensures View() == RetireOwner(old(View()), s)
      ensures n == |OwnedAmong(old(active), old(active).Keys, s)|
    {
      retired := retired + {s};
      n := 0;
      ghost var before := active;
      var todo := active.Keys;
      ghost var done: set<JobId> := {};
      while todo != {}
        invariant todo <= before.Keys && done == before.Keys - todo
        invariant active == MarkedOn(before, done, s)
        invariant retired == old(retired) + {s} && closing == old(closing)
        invariant n == |OwnedAmong(before, done, s)|
        decreases todo
      {
        var id :| id in todo;
        MarkOneMore(before, done, id, s);
        if Owned(active[id], s) {
          active := active[id := active[id].(cancel := true)];
          n := n + 1;
        } else {
          assert MarkedOn(before, done + {id}, s) == active;
        }
        todo, done := todo - {id}, done + {id};
      }
      assert done == before.Keys;
    }

    /** Whether every job of the session is gone; the wait itself may end early. */
    method SessionIsOut(s: Session) returns (out: bool)
      ensures out <==> forall id :: id in active ==> !Owned(active[id], s)
    {
      out := forall id | id in active :: !Owned(active[id], s);
    }

    method Finish(id: JobId)
      modifies this
      ensures View() == FinishJob(old(View()), id)
    {
      active := active - {id};
    }

    /** The snapshot that goes to the log is taken before anything can change. */
    method BeginShutdown() returns (running: map<JobId, JobInfo>)
      modifies this
      ensures View() == ShutDown(old(View()))
      ensures running == map id | id in old(active) :: old(active)[id].info
    {
      closing := true;
      running := map id | id in active :: active[id].info;
      active := map id | id in active :: active[id].(cancel := true);
    }
  }

  // ---- Windows, starts and shutdown, interleaved ----

  /** `resolved` holds the starts that know their owner, whether or not they are registered yet. */
  datatype World = World(sessions: Sessions, jobs: JobState, resolved: set<(JobId, JobInfo)>)

  datatype Event =
    | OpenWindow(window: Label)
    | ResolveStart(window: Label, claimed: Option<Session>, id: JobId, kind: string, target: string)
    | RegisterStart(id: JobId, info: JobInfo)
    | CancelIt(id: JobId)
    | Retire(session: Session)
    | EndWindow(window: Label, session: Session)
    | FinishIt(id: JobId)
    | Quit

  const NEW_WORLD := World(NO_SESSIONS, NO_JOBS, {})

  /** A window is retired when it is destroyed, and its session ended only after that. */
  ghost predicate CanHappen(w: World, ev: Event) {
    match ev
    case RegisterStart(id, info) => (id, info) in w.resolved
    case Retire(s) => WasIssued(w.sessions, s)
    case EndWindow(_, s) => s in w.jobs.retired
    case _ => true
  }

  function Happen(w: World, ev: Event): World {
    match ev
    case OpenWindow(window) => w.(sessions := BeginSession(w.sessions, window).0)
    case ResolveStart(window, claimed, id, kind, target) =>
      (match ResolveSession(w.sessions, window, claimed)
       case None => w
       case Some(owner) => w.(resolved := w.resolved + {(id, JobInfo(kind, target, owner))}))
    case RegisterStart(id, info) =>
      (match StartJob(w.jobs, id, info)
       case Ok(jobs) => w.(jobs := jobs)
       case Err(_) => w)
    case CancelIt(id) => w.(jobs := CancelJob(w.jobs, id))
    case Retire(s) => w.(jobs := RetireOwner(w.jobs, s))
    case EndWindow(window, s) => w.(sessions := EndSession(w.sessions, window, s))
    case FinishIt(id) => w.(jobs := FinishJob(w.jobs, id))
    case Quit => w.(jobs := ShutDown(w.jobs))
  }

  ghost predicate Interleaving(ws: seq<World>, evs: seq<Event>) {
    && |ws| == |evs| + 1 && ws[0] == NEW_WORLD
    && forall i :: 0 <= i < |evs| ==> CanHappen(ws[i], evs[i]) && ws[i + 1] == Happen(ws[i], evs[i])
  }

  /** What every interleaving keeps. */
  ghost predicate WorldOk(w: World) {
    && |w.jobs.active| <= 1
    && (forall id :: id in w.jobs.active ==>
          (w.jobs.active[id].info.owner in w.jobs.retired || w.jobs.closing ==> w.jobs.active[id].cancel))
    && (forall s :: s in w.jobs.retired ==> WasIssued(w.sessions, s))
    && (forall l :: l in w.sessions.current ==> WasIssued(w.sessions, w.sessions.current[l]))
  }

  lemma HappenKeepsWorldOk(w: World, ev: Event)
    requires WorldOk(w) && CanHappen(w, ev)
    ensures WorldOk(Happen(w, ev))
  {
    var w' := Happen(w, ev);
    match ev
    case OpenWindow(window) => BeginIsFresh(w.sessions, window);
    case EndWindow(window, s) =>
      assert forall x :: WasIssued(w.sessions, x) ==> WasIssued(w'.sessions, x);
    case CancelIt(id) => assert id in w.jobs.active ==> w'.jobs.active.Keys == w.jobs.active.Keys;
    case Retire(s) => assert w'.jobs.active.Keys == w.jobs.active.Keys;
    case Quit => assert w'.jobs.active.Keys == w.jobs.active.Keys;
    case FinishIt(id) => assert w'.jobs.active.Keys == w.jobs.active.Keys - {id};
    case _ =>
  }

  lemma {:induction false} RunKeepsWorldOk(ws: seq<World>, evs: seq<Event>)
    requires Interleaving(ws, evs)
    ensures WorldOk(ws[|evs|])
  {
    if |evs| > 0 {
      var n := |evs| - 1;
      RunKeepsWorldOk(ws[..n + 1], evs[..n]);
      assert ws[..n + 1][n] == ws[n];
      HappenKeepsWorldOk(ws[n], evs[n]);
    }
  }

  /**
   At most one job runs, and none that belongs to a dead window or outlived the shutdown lacks its
   cancel flag, however starts, deaths and the shutdown interleave.
   */
  lemma NoOrphanRuns(ws: seq<World>, evs: seq<Event>)
    requires Interleaving(ws, evs)
    ensures var jobs := ws[|evs|].jobs;
      && |jobs.active| <= 1
      && (forall id :: id in jobs.active && jobs.active[id].info.owner in jobs.retired ==> jobs.active[id].cancel)
      && (jobs.closing ==> forall id :: id in jobs.active ==> jobs.active[id].cancel)
  {
    RunKeepsWorldOk(ws, evs);
  }

  /** Once the program is shutting down the running jobs only get fewer, and it shuts down for good. */
  lemma {:induction false} ShutdownOnlyDrains(ws: seq<World>, evs: seq<Event>, i: nat, j: nat)
    requires Interleaving(ws, evs) && i <= j <= |evs| && ws[i].jobs.closing
    ensures ws[j].jobs.closing && ws[j].jobs.active.Keys <= ws[i].jobs.active.Keys
  {
    if i < j {
      ShutdownOnlyDrains(ws, evs, i, j - 1);
      assert ws[j] == Happen(ws[j - 1], evs[j - 1]);
    }
  }

  /** A session that was retired stays retired, and no start made for it, however early, is registered afterwards. */
  lemma {:induction false} LateStartsAreRefused(ws: seq<World>, evs: seq<Event>, i: nat, j: nat, id: JobId, info: JobInfo)
    requires Interleaving(ws, evs) && i <= j < |evs|
    requires info.owner in ws[i].jobs.retired && evs[j] == RegisterStart(id, info)
    ensures ws[j + 1] == ws[j]
  {
    RetiredForGood(ws, evs, i, j, info.owner);
    assert ws[j + 1] == Happen(ws[j], evs[j]);
  }

  lemma {:induction false} RetiredForGood(ws: seq<World>, evs: seq<Event>, i: nat, j: nat, s: Session)
    requires Interleaving(ws, evs) && i <= j <= |evs| && s in ws[i].jobs.retired
    ensures s in ws[j].jobs.retired
  {
    if i < j {
      RetiredForGood(ws, evs, i, j - 1, s);
      assert ws[j] == Happen(ws[j - 1], evs[j - 1]);
    }
  }

  /**
   A window that is opened again under the same label is not held back by its predecessor: its session
   was never retired, so its start succeeds exactly when no job runs and the program is not shutting down.
   A call that still claims the old session is turned away.
   */
  lemma NewWindowsStartAfresh(ws: seq<World>, evs: seq<Event>, window: Label, id: JobId, kind: string, target: string)
    requires Interleaving(ws, evs)
    ensures var w := ws[|evs|]; var (sessions, s) := BeginSession(w.sessions, window);
      && ResolveSession(sessions, window, Some(s)) == Some(s)
      && (forall old_ :: WasIssued(w.sessions, old_) ==> ResolveSession(sessions, window, Some(old_)) == None)
      && (StartJob(w.jobs, id, JobInfo(kind, target, s)).Ok? <==> !w.jobs.closing && w.jobs.active == map[])
  {
    RunKeepsWorldOk(ws, evs);
    BeginIsFresh(ws[|evs|].sessions, window);
  }
}
