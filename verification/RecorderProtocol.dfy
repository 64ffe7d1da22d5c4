/** The DVR recorder (internal/dvr/recorder.go) as a concurrent protocol: every
    lock-protected section, store call, process start and process exit is a step
    of its own, and any number of threads interleave. */
module RecorderProtocol {
  type Id = string
  type Thread = nat

  datatype Status = Scheduled | Recording | Completed | Failed | Cancelled

  datatype Caller = ByResume | ByTick | BySchedule | BySeries

  /** The recordings a caller still has to go through. */
  datatype Job = Job(from: Caller, ids: seq<Id>)

  /** Where a thread stands. */
  datatype Pc =
    | Queue(job: Job)
    | AtLock(id: Id, job: Job)                  // maybeStart: due, about to take the lock
    | NoChannel(id: Id, job: Job)               // unlocked; about to store Failed
    | Inserted(id: Id, ctx: nat, job: Job)      // in `active`; about to store Recording
    | Starting(id: Id, ctx: nat, job: Job)      // about to start ffmpeg
    | StartFailed(id: Id, ctx: nat, job: Job)   // about to delete from `active`
    | StoreFailed(id: Id, job: Job)             // deleted; about to store Failed
    | Resave(id: Id, seen: Status)              // scheduleFromAiring: about to store its copy
    | Waiting(id: Id, ctx: nat)                 // watcher inside cmd.Wait
    | Exited(id: Id, ctx: nat)                  // watcher about to delete from `active`
    | ResumeFinalize(id: Id, job: Job)          // resume about to delete a missed one
    | FinalizeRead(id: Id, job: Job)            // deleted; about to read the record
    | FinalizeWrite(id: Id, job: Job)           // about to store Completed or Failed
    | CancelRead(id: Id, seen: Status)          // Cancel: record read; about to look at `active`
    | CancelRunning(id: Id, ctx: nat)           // holds the cancel function
    | CancelIdle(id: Id, seen: Status)          // was not running; about to store

  datatype State = State(
    threads: map<Thread, Pc>,
    active: map<Id, nat>,        // recording -> its context
    running: map<nat, Id>,       // live ffmpeg processes by context
    cancelled: set<nat>,
    made: seq<Id>,               // made[c] is the recording context c was made for
    store: map<Id, Status>,
    booting: bool)               // the resume pass, thread 0, is not over

  datatype Action =
    | Create(t: Thread, id: Id, from: Caller)   // Schedule: the record is stored
    | Tick(t: Thread, due: seq<Id>)             // tick: snapshot of the scheduled recordings
    | Skip(t: Thread)                           // the next recording is not due
    | Missed(t: Thread)                         // the next recording is over
    | Enter(t: Thread)                          // the next recording is due
    | Lock(t: Thread, channel: bool)
    | Save(t: Thread)
    | Start(t: Thread, ok: bool, watcher: Thread)
    | Exit(ctx: nat)
    | WaitReturns(t: Thread)
    | Delete(t: Thread)
    | Read(t: Thread)
    | Write(t: Thread, hasFile: bool)
    | Cancel(t: Thread, id: Id)
    | LookUp(t: Thread)
    | CallFunc(t: Thread)
    | Close
    | Finish(t: Thread)

  // ------------------------------------------------------------------ the steps

  function Put(store: map<Id, Status>, id: Id, st: Status): map<Id, Status> {
    if id in store then store[id := st] else store
  }

  /** A series expansion stores its own copy of the record once maybeStart is over. */
  function Done(id: Id, job: Job, seen: Status): Pc {
    if job.from.BySeries? then Resave(id, seen) else Queue(job)
  }

  predicate Pending(s: State, t: Thread) { t in s.threads && s.threads[t].Queue? && s.threads[t].job.ids != [] }

  predicate Saves(pc: Pc) { pc.NoChannel? || pc.Inserted? || pc.StoreFailed? || pc.Resave? || pc.CancelIdle? }

  predicate Deletes(pc: Pc) { pc.StartFailed? || pc.Exited? || pc.ResumeFinalize? }

  /** No thread but resume's and the watchers it spawns exists while booting. */
  predicate Enabled(s: State, a: Action) {
    match a
    case Create(t, id, from) => !s.booting && t !in s.threads && id !in s.store && (from.BySchedule? || from.BySeries?)
    case Tick(t, due) =>
      !s.booting && t !in s.threads && forall i :: 0 <= i < |due| ==> due[i] in s.store && s.store[due[i]] == Scheduled
    case Skip(t) => Pending(s, t)
    case Missed(t) => Pending(s, t) && (s.threads[t].job.from.ByTick? || s.threads[t].job.from.ByResume?)
    case Enter(t) => Pending(s, t)
    case Lock(t, _) => t in s.threads && s.threads[t].AtLock?
    case Save(t) => t in s.threads && Saves(s.threads[t])
    case Start(t, ok, w) =>
      t in s.threads && s.threads[t].Starting? && w !in s.threads && (ok ==> s.threads[t].ctx !in s.cancelled)
    case Exit(c) => c in s.running
    case WaitReturns(t) => t in s.threads && s.threads[t].Waiting? && s.threads[t].ctx !in s.running
    case Delete(t) => t in s.threads && Deletes(s.threads[t])
    case Read(t) => t in s.threads && s.threads[t].FinalizeRead?
    case Write(t, _) => t in s.threads && s.threads[t].FinalizeWrite?
    case Cancel(t, id) => !s.booting && t !in s.threads && id in s.store
    case LookUp(t) => t in s.threads && s.threads[t].CancelRead?
    case CallFunc(t) => t in s.threads && s.threads[t].CancelRunning?
    case Close => !s.booting
    case Finish(t) => t in s.threads && s.threads[t].Queue? && s.threads[t].job.ids == []
  }

  function At(s: State, t: Thread, pc: Pc): State { s.(threads := s.threads[t := pc]) }

  function Rest(job: Job): Job
    requires job.ids != []
  {
    job.(ids := job.ids[1..])
  }

  /** maybeStart's locked section. */
  function ApplyLock(s: State, t: Thread, channel: bool): State
    requires t in s.threads && s.threads[t].AtLock?
  {
    var AtLock(id, job) := s.threads[t];
    if id in s.active then At(s, t, Done(id, job, Scheduled))
    else if !channel then At(s, t, NoChannel(id, job))
    else At(s.(active := s.active[id := |s.made|], made := s.made + [id]), t, Inserted(id, |s.made|, job))
  }

  function ApplySave(s: State, t: Thread): State
    requires t in s.threads && Saves(s.threads[t])
  {
    match s.threads[t]
    case NoChannel(id, job) => At(s.(store := Put(s.store, id, Failed)), t, Done(id, job, Failed))
    case StoreFailed(id, job) => At(s.(store := Put(s.store, id, Failed)), t, Done(id, job, Failed))
    case Inserted(id, c, job) => At(s.(store := Put(s.store, id, Recording)), t, Starting(id, c, job))
    case Resave(id, seen) => At(s.(store := Put(s.store, id, seen)), t, Queue(Job(BySeries, [])))
    case CancelIdle(id, seen) =>
      At(if seen.Scheduled? then s.(store := Put(s.store, id, Cancelled)) else s, t, Queue(Job(BySchedule, [])))
  }

  function ApplyDelete(s: State, t: Thread): State
    requires t in s.threads && Deletes(s.threads[t])
  {
    var pc := s.threads[t];
    At(s.(active := s.active - {pc.id}), t,
       match pc
       case StartFailed(id, _, job) => StoreFailed(id, job)
       case ResumeFinalize(id, job) => FinalizeRead(id, job)
       case Exited(id, _) => FinalizeRead(id, Job(BySchedule, [])))
  }

  function Apply(s: State, a: Action): State
    requires Enabled(s, a)
  {
    match a
    case Create(t, id, from) => At(s.(store := s.store[id := Scheduled]), t, Queue(Job(from, [id])))
    case Tick(t, due) => At(s, t, Queue(Job(ByTick, due)))
    case Skip(t) => At(s, t, Done(s.threads[t].job.ids[0], Rest(s.threads[t].job), Scheduled))
    case Missed(t) =>
      var job := s.threads[t].job;
      if job.from.ByResume? then At(s, t, ResumeFinalize(job.ids[0], Rest(job)))
      else At(s.(store := Put(s.store, job.ids[0], Failed)), t, Queue(Rest(job)))
    case Enter(t) => At(s, t, AtLock(s.threads[t].job.ids[0], Rest(s.threads[t].job)))
    case Lock(t, channel) => ApplyLock(s, t, channel)
    case Save(t) => ApplySave(s, t)
    case Start(t, ok, w) =>
      var Starting(id, c, job) := s.threads[t];
      if ok then At(At(s.(running := s.running[c := id]), t, Done(id, job, Recording)), w, Waiting(id, c))
      else At(s.(cancelled := s.cancelled + {c}), t, StartFailed(id, c, job))
    case Exit(c) => s.(running := s.running - {c})
    case WaitReturns(t) =>
      At(s.(cancelled := s.cancelled + {s.threads[t].ctx}), t, Exited(s.threads[t].id, s.threads[t].ctx))
    case Delete(t) => ApplyDelete(s, t)
    case Read(t) =>
      var FinalizeRead(id, job) := s.threads[t];
      if id !in s.store || s.store[id] == Cancelled then At(s, t, Queue(job)) else At(s, t, FinalizeWrite(id, job))
    case Write(t, hasFile) =>
      var FinalizeWrite(id, job) := s.threads[t];
      At(s.(store := Put(s.store, id, if hasFile then Completed else Failed)), t, Queue(job))
    case Cancel(t, id) => At(s, t, CancelRead(id, s.store[id]))
    case LookUp(t) =>
      var CancelRead(id, seen) := s.threads[t];
      At(s, t, if id in s.active then CancelRunning(id, s.active[id]) else CancelIdle(id, seen))
    case CallFunc(t) => At(s.(cancelled := s.cancelled + {s.threads[t].ctx}), t, Queue(Job(BySchedule, [])))
    case Close => s.(cancelled := s.cancelled + (set id | id in s.active :: s.active[id]))
    case Finish(t) => s.(threads := s.threads - {t}, booting := s.booting && t != 0)
  }

  // -------------------------------------------------------------- the invariant

  /** The thread put `id` into `active` under `ctx` and has yet to delete it. */
  predicate Owns(pc: Pc, id: Id, ctx: nat) { Owner(pc) && pc.id == id && pc.ctx == ctx }

  predicate Owner(pc: Pc) { pc.Inserted? || pc.Starting? || pc.StartFailed? || pc.Waiting? || pc.Exited? }

  ghost predicate OwnedBy(s: State, t: Thread, id: Id, ctx: nat) { t in s.threads && Owns(s.threads[t], id, ctx) }

  /** What an owner knows: the entry is its own. */
  ghost predicate OwnersActive(s: State) {
    forall t, id, c :: OwnedBy(s, t, id, c) ==> id in s.active && s.active[id] == c
  }

  ghost predicate OneOwner(s: State) {
    forall t, u, id, c, d :: OwnedBy(s, t, id, c) && OwnedBy(s, u, id, d) ==> t == u
  }

  ghost predicate ActiveOwned(s: State) {
    forall id :: id in s.active ==> exists t :: OwnedBy(s, t, id, s.active[id])
  }

  /** A live process has its watcher waiting for it. */
  ghost predicate RunningWatched(s: State) {
    forall c :: c in s.running ==> exists t :: t in s.threads && s.threads[t] == Waiting(s.running[c], c)
  }

  ghost predicate ContextsRight(s: State) {
    && (forall id :: id in s.active ==> s.active[id] < |s.made| && s.made[s.active[id]] == id)
    && forall t :: t in s.threads && s.threads[t].CancelRunning? ==>
         s.threads[t].ctx < |s.made| && s.made[s.threads[t].ctx] == s.threads[t].id
  }

  predicate HasJob(pc: Pc) {
    pc.Queue? || pc.AtLock? || pc.NoChannel? || pc.Inserted? || pc.Starting? || pc.StartFailed?
    || pc.StoreFailed? || pc.FinalizeRead? || pc.FinalizeWrite? || pc.ResumeFinalize?
  }

  predicate FromResume(pc: Pc) { HasJob(pc) && pc.job.from.ByResume? }

  ghost predicate NoRepeat(ids: seq<Id>) { forall i, j :: 0 <= i < j < |ids| ==> ids[i] != ids[j] }

  /** A resume pass that has got to `pc` lists each recording once, and neither what
      it still lists nor what it is about to finalize is active. */
  ghost predicate ResumeAhead(pc: Pc, active: map<Id, nat>) {
    FromResume(pc) ==>
      && NoRepeat(pc.job.ids)
      && (!pc.Queue? ==> pc.id !in pc.job.ids)
      && (forall i :: 0 <= i < |pc.job.ids| ==> pc.job.ids[i] !in active)
      && (pc.ResumeFinalize? ==> pc.id !in active)
  }

  /** The resume pass is thread 0's alone, and while it lasts the other threads are
      watchers on their way out. */
  ghost predicate ResumeApart(s: State) {
    forall t :: t in s.threads ==>
      && ResumeAhead(s.threads[t], s.active)
      && (FromResume(s.threads[t]) ==> t == 0 && s.booting)
      && (s.threads[t].ResumeFinalize? ==> FromResume(s.threads[t]))
      && (s.booting && t != 0 ==> Leaving(s.threads[t]))
  }

  predicate Leaving(pc: Pc) {
    pc.Waiting? || pc.Exited? || ((pc.FinalizeRead? || pc.FinalizeWrite? || pc.Queue?) && pc.job.ids == [])
  }

  ghost predicate Inv(s: State) {
    OwnersActive(s) && OneOwner(s) && ActiveOwned(s) && RunningWatched(s) && ContextsRight(s) && ResumeApart(s)
  }

  /** Right after a restart: nothing is active, resume has listed the recordings
      that were in progress. */
  ghost predicate Init(s: State) {
    && s.active == map[] && s.running == map[] && s.cancelled == {} && s.made == [] && s.booting
    && s.threads.Keys == {0} && s.threads[0].Queue? && s.threads[0].job.from.ByResume? && NoRepeat(s.threads[0].job.ids)
  }

  lemma InitInv(s: State)
    requires Init(s)
    ensures Inv(s)
  {
  }

  // ------------------------------------------------------ one step keeps it

  /** A thread moves without gaining, losing or passing on ownership. */
  ghost predicate Moves(s: State, t: Thread, pc: Pc, s': State) {
    && s'.threads == s.threads[t := pc] && s'.active == s.active && s'.running == s.running && s'.made == s.made
    && s'.booting == s.booting
    && (Owner(pc) <==> t in s.threads && Owner(s.threads[t]))
    && (Owner(pc) ==> pc.id == s.threads[t].id && pc.ctx == s.threads[t].ctx)
    && (t in s.threads && s.threads[t].Waiting? ==> s.threads[t].ctx !in s.running)
    && (pc.CancelRunning? ==> pc.ctx < |s.made| && s.made[pc.ctx] == pc.id)
    && ResumeAhead(pc, s.active)
    && (FromResume(pc) ==> t == 0 && s.booting)
    && (pc.ResumeFinalize? ==> FromResume(pc))
    && (s.booting && t != 0 ==> Leaving(pc))
  }

  lemma MoveKeeps(s: State, t: Thread, pc: Pc, s': State)
    requires Inv(s) && Moves(s, t, pc, s')
    ensures Inv(s')
  {
    forall u, id, c ensures OwnedBy(s', u, id, c) <==> OwnedBy(s, u, id, c) {
    }
    forall id | id in s'.active ensures exists u :: OwnedBy(s', u, id, s'.active[id]) {
      var u :| OwnedBy(s, u, id, s.active[id]);
      assert OwnedBy(s', u, id, s'.active[id]);
    }
    forall c | c in s'.running ensures exists u :: u in s'.threads && s'.threads[u] == Waiting(s'.running[c], c) {
      var u :| u in s.threads && s.threads[u] == Waiting(s.running[c], c);
      assert u != t;
      assert s'.threads[u] == Waiting(s'.running[c], c);
    }
  }

  /** maybeStart enters the recording it has just found absent. */
  lemma InsertOwners(s: State, t: Thread)
    requires Inv(s) && t in s.threads && s.threads[t].AtLock? && s.threads[t].id !in s.active
    ensures var s' := ApplyLock(s, t, true); OwnersActive(s') && OneOwner(s') && ActiveOwned(s')
  {
    var s' := ApplyLock(s, t, true);
    var id := s.threads[t].id;
    forall u, j, c ensures OwnedBy(s', u, j, c) <==> OwnedBy(s, u, j, c) || (u == t && j == id && c == |s.made|) {
    }
    forall j | j in s'.active ensures exists u :: OwnedBy(s', u, j, s'.active[j]) {
      if j == id {
        assert OwnedBy(s', t, id, |s.made|);
      } else {
        var u :| OwnedBy(s, u, j, s.active[j]);
        assert OwnedBy(s', u, j, s'.active[j]);
      }
    }
  }

  lemma InsertRest(s: State, t: Thread)
    requires Inv(s) && t in s.threads && s.threads[t].AtLock? && s.threads[t].id !in s.active
    ensures var s' := ApplyLock(s, t, true); RunningWatched(s') && ContextsRight(s')
  {
    var s' := ApplyLock(s, t, true);
    forall c | c in s'.running ensures exists u :: u in s'.threads && s'.threads[u] == Waiting(s'.running[c], c) {
      var u :| u in s.threads && s.threads[u] == Waiting(s.running[c], c);
      assert s'.threads[u] == Waiting(s'.running[c], c);
    }
  }

  lemma InsertResume(s: State, t: Thread)
    requires ResumeApart(s) && t in s.threads && s.threads[t].AtLock? && s.threads[t].id !in s.active
    ensures ResumeApart(ApplyLock(s, t, true))
  {
    var s' := ApplyLock(s, t, true);
    assert !s.booting || t == 0;
    forall u | u in s'.threads ensures ResumeAhead(s'.threads[u], s'.active) {
      if u != t {
        assert FromResume(s.threads[u]) ==> u == 0 && s.booting;
      }
    }
  }

  lemma InsertKeeps(s: State, t: Thread)
    requires Inv(s) && t in s.threads && s.threads[t].AtLock? && s.threads[t].id !in s.active
    ensures Inv(ApplyLock(s, t, true))
  {
    InsertOwners(s, t);
    InsertRest(s, t);
    InsertResume(s, t);
  }

  /** ffmpeg starts: ownership passes from the starter to the watcher. */
  lemma StartOwners(s: State, t: Thread, w: Thread)
    requires Inv(s) && Enabled(s, Start(t, true, w))
    ensures var s' := Apply(s, Start(t, true, w)); OwnersActive(s') && OneOwner(s') && ActiveOwned(s')
  {
    var s' := Apply(s, Start(t, true, w));
    var Starting(id, c, job) := s.threads[t];
    assert OwnedBy(s, t, id, c);
    forall u, j, d ensures OwnedBy(s', u, j, d) <==> (u != t && OwnedBy(s, u, j, d)) || (u == w && j == id && d == c) {
    }
    forall j | j in s'.active ensures exists u :: OwnedBy(s', u, j, s'.active[j]) {
      var u :| OwnedBy(s, u, j, s.active[j]);
      assert OwnedBy(s', if u == t then w else u, j, s'.active[j]);
    }
  }

  lemma StartWatched(s: State, t: Thread, w: Thread)
    requires RunningWatched(s) && Enabled(s, Start(t, true, w))
    ensures RunningWatched(Apply(s, Start(t, true, w)))
  {
    var s' := Apply(s, Start(t, true, w));
    var Starting(id, c, job) := s.threads[t];
    forall d | d in s'.running ensures exists u :: u in s'.threads && s'.threads[u] == Waiting(s'.running[d], d) {
      if d == c {
        assert s'.threads[w] == Waiting(s'.running[d], d);
      } else {
        var u :| u in s.threads && s.threads[u] == Waiting(s.running[d], d);
        assert s'.threads[u] == Waiting(s'.running[d], d);
      }
    }
  }

  lemma StartRest(s: State, t: Thread, w: Thread)
    requires ContextsRight(s) && ResumeApart(s) && Enabled(s, Start(t, true, w))
    ensures var s' := Apply(s, Start(t, true, w)); ContextsRight(s') && ResumeApart(s')
  {
    assert !s.booting || t == 0;
  }

  lemma StartKeeps(s: State, t: Thread, w: Thread)
    requires Inv(s) && Enabled(s, Start(t, true, w))
    ensures Inv(Apply(s, Start(t, true, w)))
  {
    StartOwners(s, t, w);
    StartWatched(s, t, w);
    StartRest(s, t, w);
  }

  lemma DeleteOwners(s: State, t: Thread)
    requires OwnersActive(s) && OneOwner(s) && ActiveOwned(s) && t in s.threads && Deletes(s.threads[t])
    requires s.threads[t].ResumeFinalize? ==> s.threads[t].id !in s.active
    ensures var s' := ApplyDelete(s, t); OwnersActive(s') && OneOwner(s') && ActiveOwned(s')
  {
    var s' := ApplyDelete(s, t);
    var pc := s.threads[t];
    if !pc.ResumeFinalize? {
      assert OwnedBy(s, t, pc.id, pc.ctx);
    }
    forall u, j, c ensures OwnedBy(s', u, j, c) <==> u != t && OwnedBy(s, u, j, c) {
    }
    forall j | j in s'.active ensures exists u :: OwnedBy(s', u, j, s'.active[j]) {
      var u :| OwnedBy(s, u, j, s.active[j]);
      assert OwnedBy(s', u, j, s'.active[j]);
    }
  }

  lemma DeleteRest(s: State, t: Thread)
    requires RunningWatched(s) && ContextsRight(s) && ResumeApart(s) && t in s.threads && Deletes(s.threads[t])
    ensures var s' := ApplyDelete(s, t); RunningWatched(s') && ContextsRight(s') && ResumeApart(s')
  {
    var s' := ApplyDelete(s, t);
    forall c | c in s'.running ensures exists u :: u in s'.threads && s'.threads[u] == Waiting(s'.running[c], c) {
      var u :| u in s.threads && s.threads[u] == Waiting(s.running[c], c);
      assert s'.threads[u] == Waiting(s'.running[c], c);
    }
  }

  /** A thread deletes the entry it owns, or (resume) one that is not there. */
  lemma DeleteKeeps(s: State, t: Thread)
    requires Inv(s) && t in s.threads && Deletes(s.threads[t])
    ensures Inv(ApplyDelete(s, t))
  {
    assert ResumeAhead(s.threads[t], s.active);
    DeleteOwners(s, t);
    DeleteRest(s, t);
  }

  lemma FinishKeeps(s: State, t: Thread)
    requires Inv(s) && Enabled(s, Finish(t))
    ensures Inv(Apply(s, Finish(t)))
  {
    var s' := Apply(s, Finish(t));
    forall u, j, c ensures OwnedBy(s', u, j, c) <==> OwnedBy(s, u, j, c) {
    }
    forall j | j in s'.active ensures exists u :: OwnedBy(s', u, j, s'.active[j]) {
      var u :| OwnedBy(s, u, j, s.active[j]);
      assert OwnedBy(s', u, j, s'.active[j]);
    }
    forall c | c in s'.running ensures exists u :: u in s'.threads && s'.threads[u] == Waiting(s'.running[c], c) {
      var u :| u in s.threads && s.threads[u] == Waiting(s.running[c], c);
      assert s'.threads[u] == Waiting(s'.running[c], c);
    }
  }

  lemma NoThreadKeeps(s: State, a: Action)
    requires Inv(s) && Enabled(s, a) && (a.Exit? || a.Close?)
    ensures Inv(Apply(s, a))
  {
    var s' := Apply(s, a);
    forall u, j, c ensures OwnedBy(s', u, j, c) <==> OwnedBy(s, u, j, c) {
    }
    forall j | j in s'.active ensures exists u :: OwnedBy(s', u, j, s'.active[j]) {
      var u :| OwnedBy(s, u, j, s.active[j]);
      assert OwnedBy(s', u, j, s'.active[j]);
    }
  }

  /** A new caller arrives; it owns nothing. */
  lemma ArrivalKeeps(s: State, a: Action)
    requires Inv(s) && Enabled(s, a) && (a.Create? || a.Tick? || a.Cancel?)
    ensures Inv(Apply(s, a))
  {
    MoveKeeps(s, a.t, Apply(s, a).threads[a.t], Apply(s, a));
  }

  lemma RestAhead(from: Caller, ids: seq<Id>, active: map<Id, nat>)
    requires ids != [] && ResumeAhead(Queue(Job(from, ids)), active)
    ensures ResumeAhead(Queue(Job(from, ids[1..])), active)
    ensures ResumeAhead(AtLock(ids[0], Job(from, ids[1..])), active)
    ensures ResumeAhead(ResumeFinalize(ids[0], Job(from, ids[1..])), active)
  {
    assert forall i :: 0 <= i < |ids[1..]| ==> ids[1..][i] == ids[i + 1];
    if from.ByResume? {
      assert ids[0] !in active;
      assert ids[0] !in ids[1..];
    }
  }

  lemma ListMoves(s: State, a: Action)
    requires ResumeApart(s) && Enabled(s, a) && (a.Skip? || a.Missed? || a.Enter?)
    ensures Moves(s, a.t, Apply(s, a).threads[a.t], Apply(s, a))
  {
    var job := s.threads[a.t].job;
    assert s.threads[a.t] == Queue(Job(job.from, job.ids));
    RestAhead(job.from, job.ids, s.active);
  }

  /** A caller goes on to the next recording on its list. */
  lemma ListKeeps(s: State, a: Action)
    requires Inv(s) && Enabled(s, a) && (a.Skip? || a.Missed? || a.Enter?)
    ensures Inv(Apply(s, a))
  {
    ListMoves(s, a);
    MoveKeeps(s, a.t, Apply(s, a).threads[a.t], Apply(s, a));
  }

  lemma PassMoves(s: State, t: Thread, channel: bool)
    requires ResumeApart(s) && t in s.threads && s.threads[t].AtLock? && (s.threads[t].id in s.active || !channel)
    ensures Moves(s, t, ApplyLock(s, t, channel).threads[t], ApplyLock(s, t, channel))
  {
  }

  lemma LockKeeps(s: State, t: Thread, channel: bool)
    requires Inv(s) && t in s.threads && s.threads[t].AtLock?
    ensures Inv(ApplyLock(s, t, channel))
  {
    if s.threads[t].id !in s.active && channel {
      InsertKeeps(s, t);
    } else {
      PassMoves(s, t, channel);
      MoveKeeps(s, t, ApplyLock(s, t, channel).threads[t], ApplyLock(s, t, channel));
    }
  }

  lemma SaveMoves(s: State, t: Thread)
    requires ResumeApart(s) && t in s.threads && Saves(s.threads[t])
    ensures Moves(s, t, ApplySave(s, t).threads[t], ApplySave(s, t))
  {
    var pc, next := s.threads[t], ApplySave(s, t).threads[t];
    assert ResumeAhead(pc, s.active);
    assert ResumeAhead(next, s.active);
  }

  lemma SaveKeeps(s: State, t: Thread)
    requires Inv(s) && t in s.threads && Saves(s.threads[t])
    ensures Inv(ApplySave(s, t))
  {
    SaveMoves(s, t);
    MoveKeeps(s, t, ApplySave(s, t).threads[t], ApplySave(s, t));
  }

  lemma FailedStartKeeps(s: State, t: Thread, w: Thread)
    requires Inv(s) && Enabled(s, Start(t, false, w))
    ensures Inv(Apply(s, Start(t, false, w)))
  {
    var s' := Apply(s, Start(t, false, w));
    MoveKeeps(s, t, s'.threads[t], s');
  }

  /** The watcher's cmd.Wait returns: its process is gone. */
  lemma WaitKeeps(s: State, t: Thread)
    requires Inv(s) && Enabled(s, WaitReturns(t))
    ensures Inv(Apply(s, WaitReturns(t)))
  {
    var s' := Apply(s, WaitReturns(t));
    assert OwnedBy(s, t, s.threads[t].id, s.threads[t].ctx);
    MoveKeeps(s, t, s'.threads[t], s');
  }

  lemma FinalizeMoves(s: State, a: Action)
    requires ResumeApart(s) && Enabled(s, a) && (a.Read? || a.Write?)
    ensures Moves(s, a.t, Apply(s, a).threads[a.t], Apply(s, a))
  {
    var pc, next := s.threads[a.t], Apply(s, a).threads[a.t];
    assert next.job == pc.job;
    assert ResumeAhead(next, s.active);
  }

  /** finalize reads the record and stores its verdict. */
  lemma FinalizeKeeps(s: State, a: Action)
    requires Inv(s) && Enabled(s, a) && (a.Read? || a.Write?)
    ensures Inv(Apply(s, a))
  {
    FinalizeMoves(s, a);
    MoveKeeps(s, a.t, Apply(s, a).threads[a.t], Apply(s, a));
  }

  lemma CancelMoves(s: State, a: Action)
    requires ResumeApart(s) && ContextsRight(s) && Enabled(s, a) && (a.LookUp? || a.CallFunc?)
    ensures Moves(s, a.t, Apply(s, a).threads[a.t], Apply(s, a))
  {
  }

  /** Cancel looks the recording up in `active`, then calls what it found. */
  lemma CancelKeeps(s: State, a: Action)
    requires Inv(s) && Enabled(s, a) && (a.LookUp? || a.CallFunc?)
    ensures Inv(Apply(s, a))
  {
    CancelMoves(s, a);
    MoveKeeps(s, a.t, Apply(s, a).threads[a.t], Apply(s, a));
  }

  lemma StepKeeps(s: State, a: Action)
    requires Inv(s) && Enabled(s, a)
    ensures Inv(Apply(s, a))
  {
    match a
    case Exit(_) => NoThreadKeeps(s, a);
    case Close => NoThreadKeeps(s, a);
    case Finish(t) => FinishKeeps(s, t);
    case Delete(t) => DeleteKeeps(s, t);
    case Lock(t, channel) => LockKeeps(s, t, channel);
    case Save(t) => SaveKeeps(s, t);
    case Start(t, ok, w) =>
      if ok {
        StartKeeps(s, t, w);
      } else {
        FailedStartKeeps(s, t, w);
      }
    case Create(_, _, _) => ArrivalKeeps(s, a);
    case Tick(_, _) => ArrivalKeeps(s, a);
    case Cancel(_, _) => ArrivalKeeps(s, a);
    case Skip(_) => ListKeeps(s, a);
    case Missed(_) => ListKeeps(s, a);
    case Enter(_) => ListKeeps(s, a);
    case WaitReturns(t) => WaitKeeps(s, t);
    case Read(_) => FinalizeKeeps(s, a);
    case Write(_, _) => FinalizeKeeps(s, a);
    case LookUp(_) => CancelKeeps(s, a);
    case CallFunc(_) => CancelKeeps(s, a);
  }

  // ------------------------------------------------------------ the theorems

  ghost predicate Runs(s: State, run: seq<Action>)
    decreases run
  {
    run == [] || (Enabled(s, run[0]) && Runs(Apply(s, run[0]), run[1..]))
  }

  ghost function After(s: State, run: seq<Action>): State
    requires Runs(s, run)
    decreases run
  {
    if run == [] then s else After(Apply(s, run[0]), run[1..])
  }

  lemma {:induction false} InvHolds(s: State, run: seq<Action>)
    requires Inv(s) && Runs(s, run)
    ensures Inv(After(s, run))
    decreases run
  {
    if run != [] {
      StepKeeps(s, run[0]);
      InvHolds(Apply(s, run[0]), run[1..]);
    }
  }

  /** Under every interleaving, a recording is in `active` exactly when a thread
      owns it; that thread is the only one and the entry is its own. */
  lemma ActiveIffOwned(s: State, run: seq<Action>, id: Id)
    requires Init(s) && Runs(s, run)
    ensures var r := After(s, run);
      id in r.active <==> exists t, c :: OwnedBy(r, t, id, c)
    ensures forall t, u, c, d :: OwnedBy(After(s, run), t, id, c) && OwnedBy(After(s, run), u, id, d) ==>
      t == u && c == d == After(s, run).active[id]
  {
    InitInv(s);
    InvHolds(s, run);
    var r := After(s, run);
    if id in r.active {
      var t :| OwnedBy(r, t, id, r.active[id]);
    }
  }

  /** No recording ever has two live ffmpeg processes, and one that has a live
      process is in `active` under that process's context. */
  lemma OneProcessPerRecording(s: State, run: seq<Action>, c: nat, d: nat)
    requires Init(s) && Runs(s, run)
    requires c in After(s, run).running && d in After(s, run).running
    requires After(s, run).running[c] == After(s, run).running[d]
    ensures c == d && After(s, run).running[c] in After(s, run).active
      && After(s, run).active[After(s, run).running[c]] == c
  {
    InitInv(s);
    InvHolds(s, run);
    var r := After(s, run);
    var t :| t in r.threads && r.threads[t] == Waiting(r.running[c], c);
    var u :| u in r.threads && r.threads[u] == Waiting(r.running[d], d);
    assert OwnedBy(r, t, r.running[c], c) && OwnedBy(r, u, r.running[d], d);
  }

  /** A Cancel that found its recording running, however late it gets to call the
      function it holds, can only stop a process of that recording. */
  lemma CancelHitsOwnRecording(s: State, run: seq<Action>, t: Thread)
    requires Init(s) && Runs(s, run)
    requires t in After(s, run).threads && After(s, run).threads[t].CancelRunning?
    ensures var r := After(s, run);
      var pc := r.threads[t];
      && pc.ctx < |r.made| && r.made[pc.ctx] == pc.id
      && (pc.ctx in r.running ==> r.running[pc.ctx] == pc.id)
  {
    InitInv(s);
    InvHolds(s, run);
    var r := After(s, run);
    var c := r.threads[t].ctx;
    if c in r.running {
      var u :| u in r.threads && r.threads[u] == Waiting(r.running[c], c);
      assert OwnedBy(r, u, r.running[c], c);
    }
  }

  // ------------------------------------- what does not hold at this granularity

  lemma UnfoldRun(s: State, run: seq<Action>, next: State)
    requires run != [] && Enabled(s, run[0]) && next == Apply(s, run[0])
    ensures Runs(next, run[1..]) ==> Runs(s, run) && After(s, run) == After(next, run[1..])
  {
  }

  /** From `s`, `run` leads to `end`. */
  ghost predicate Leads(s: State, run: seq<Action>, end: State) { Runs(s, run) && After(s, run) == end }

  lemma LeadsNext(s: State, a: Action, run: seq<Action>, end: State)
    requires Enabled(s, a) && Leads(Apply(s, a), run, end)
    ensures Leads(s, [a] + run, end)
  {
    assert ([a] + run)[1..] == run;
    UnfoldRun(s, [a] + run, Apply(s, a));
  }

  lemma {:induction false} LeadsTrans(s: State, early: seq<Action>, mid: State, late: seq<Action>, end: State)
    requires Leads(s, early, mid) && Leads(mid, late, end)
    ensures Leads(s, early + late, end)
    decreases early
  {
    if early == [] {
      assert early + late == late;
    } else {
      assert [early[0]] + (early[1..] + late) == early + late;
      LeadsTrans(Apply(s, early[0]), early[1..], mid, late, end);
      LeadsNext(s, early[0], early[1..] + late, end);
    }
  }

  ghost predicate Three(s: State, a: Action, b: Action, c: Action) {
    Enabled(s, a) && Enabled(Apply(s, a), b) && Enabled(Apply(Apply(s, a), b), c)
  }

  ghost function AfterThree(s: State, a: Action, b: Action, c: Action): State
    requires Three(s, a, b, c)
  {
    Apply(Apply(Apply(s, a), b), c)
  }

  lemma LeadsThree(s: State, a: Action, b: Action, c: Action)
    requires Three(s, a, b, c)
    ensures Leads(s, [a, b, c], AfterThree(s, a, b, c))
  {
    var s1, s2, s3 := Apply(s, a), Apply(Apply(s, a), b), AfterThree(s, a, b, c);
    assert Leads(s3, [], s3);
    LeadsNext(s2, c, [], s3);
    LeadsNext(s1, b, [c], s3);
    LeadsNext(s, a, [b, c], s3);
    assert [c] + [] == [c] && [b] + [c] == [b, c] && [a] + [b, c] == [a, b, c];
  }

  /** A tick has listed a scheduled recording it has not got to, and thread u is free. */
  ghost predicate Exposed(s: State, t: Thread, u: Thread, id: Id) {
    && !s.booting && Pending(s, t) && s.threads[t].job.ids[0] == id && u !in s.threads
    && id in s.store && s.store[id] == Scheduled && id !in s.active
  }

  lemma CancelSteps(s: State, t: Thread, u: Thread, id: Id)
    requires Exposed(s, t, u, id)
    ensures Three(s, Cancel(u, id), LookUp(u), Save(u))
    ensures var mid := AfterThree(s, Cancel(u, id), LookUp(u), Save(u));
      && mid.store == s.store[id := Cancelled] && mid.active == s.active
      && t in mid.threads && mid.threads[t] == s.threads[t]
  {
    var s2 := Apply(Apply(s, Cancel(u, id)), LookUp(u));
    assert s2.threads[u] == CancelIdle(id, Scheduled);
  }

  /** A whole Cancel by thread u: it stores Cancelled and leaves the tick as it was. */
  lemma CancelRuns(s: State, t: Thread, u: Thread, id: Id)
    requires Exposed(s, t, u, id)
    ensures exists mid: State ::
      && Leads(s, [Cancel(u, id), LookUp(u), Save(u)], mid)
      && mid.store == s.store[id := Cancelled] && mid.active == s.active
      && t in mid.threads && mid.threads[t] == s.threads[t]
  {
    CancelSteps(s, t, u, id);
    LeadsThree(s, Cancel(u, id), LookUp(u), Save(u));
  }

  lemma TickSteps(s: State, t: Thread, id: Id)
    requires Pending(s, t) && s.threads[t].job.ids[0] == id && id !in s.active && id in s.store
    ensures Three(s, Enter(t), Lock(t, true), Save(t))
    ensures AfterThree(s, Enter(t), Lock(t, true), Save(t)).store == s.store[id := Recording]
  {
    var s2 := Apply(Apply(s, Enter(t)), Lock(t, true));
    assert s2.threads[t].Inserted? && s2.threads[t].id == id;
  }

  /** The tick goes on with the recording it listed, whatever is stored by now. */
  lemma TickRuns(s: State, t: Thread, id: Id)
    requires Pending(s, t) && s.threads[t].job.ids[0] == id && id !in s.active && id in s.store
    ensures exists end: State ::
      Leads(s, [Enter(t), Lock(t, true), Save(t)], end) && end.store == s.store[id := Recording]
  {
    TickSteps(s, t, id);
    LeadsThree(s, Enter(t), Lock(t, true), Save(t));
  }

  /** With every call atomic a cancelled recording stays cancelled. Between steps it
      does not: whenever a tick has listed a scheduled recording and not yet got to
      it, a Cancel can store Cancelled and the tick still start the recording. */
  lemma CancelledMayBeRevived(s: State, t: Thread, u: Thread, id: Id)
    requires Exposed(s, t, u, id)
    ensures exists mid: State, end: State ::
      && Leads(s, [Cancel(u, id), LookUp(u), Save(u)], mid) && mid.store == s.store[id := Cancelled]
      && Leads(mid, [Enter(t), Lock(t, true), Save(t)], end) && end.store == s.store[id := Recording]
  {
    CancelRuns(s, t, u, id);
    var mid: State :|
      && Leads(s, [Cancel(u, id), LookUp(u), Save(u)], mid)
      && mid.store == s.store[id := Cancelled] && mid.active == s.active
      && t in mid.threads && mid.threads[t] == s.threads[t];
    TickRuns(mid, t, id);
    var end: State :|
      Leads(mid, [Enter(t), Lock(t, true), Save(t)], end) && end.store == mid.store[id := Recording];
    assert end.store == s.store[id := Recording];
  }

  /** Such a moment is reached from a restart with nothing to resume. */
  lemma ExposedReachable(id: Id)
    ensures exists s: State, run: seq<Action>, end: State :: Init(s) && Leads(s, run, end) && Exposed(end, 2, 3, id)
  {
    var s := Restarted();
    ExposedSteps(id);
    LeadsThree(s, Finish(0), Create(1, id, BySchedule), Tick(2, [id]));
    assert Init(s);
  }

  /** A restart with nothing to resume, and what is left when resume is over. */
  function Restarted(): State { State(map[0 := Queue(Job(ByResume, []))], map[], map[], {}, [], map[], true) }
  function Resumed(): State { State(map[], map[], map[], {}, [], map[], false) }

  lemma ExposedSteps(id: Id)
    ensures Three(Restarted(), Finish(0), Create(1, id, BySchedule), Tick(2, [id]))
    ensures Exposed(AfterThree(Restarted(), Finish(0), Create(1, id, BySchedule), Tick(2, [id])), 2, 3, id)
  {
    assert Apply(Restarted(), Finish(0)) == Resumed();
    var s1 := Apply(Resumed(), Create(1, id, BySchedule));
    assert s1.store == map[id := Scheduled] && s1.threads.Keys == {1};
  }

  /** Every thread but w stands in `s'` where it stood in `s`. */
  ghost predicate OthersStay(s: State, w: Thread, s': State) {
    forall t :: t in s.threads && t != w ==> t in s'.threads && s'.threads[t] == s.threads[t]
  }

  lemma ExitSteps(s: State, w: Thread, id: Id, c: nat)
    requires w in s.threads && s.threads[w] == Waiting(id, c) && c in s.running
    ensures Three(s, Exit(c), WaitReturns(w), Delete(w))
    ensures var mid := AfterThree(s, Exit(c), WaitReturns(w), Delete(w));
      && mid.store == s.store && mid.active == s.active - {id} && OthersStay(s, w, mid)
      && w in mid.threads && mid.threads[w] == FinalizeRead(id, Job(BySchedule, []))
  {
    var s2 := Apply(Apply(s, Exit(c)), WaitReturns(w));
    assert s2.threads[w] == Exited(id, c);
  }

  lemma ExitRuns(s: State, w: Thread, id: Id, c: nat)
    requires w in s.threads && s.threads[w] == Waiting(id, c) && c in s.running
    ensures exists mid: State ::
      && Leads(s, [Exit(c), WaitReturns(w), Delete(w)], mid)
      && mid.store == s.store && mid.active == s.active - {id} && OthersStay(s, w, mid)
      && w in mid.threads && mid.threads[w] == FinalizeRead(id, Job(BySchedule, []))
  {
    ExitSteps(s, w, id, c);
    LeadsThree(s, Exit(c), WaitReturns(w), Delete(w));
  }

  lemma FinalizeRuns(s: State, w: Thread, id: Id)
    requires w in s.threads && s.threads[w] == FinalizeRead(id, Job(BySchedule, []))
    requires id in s.store && s.store[id] != Cancelled
    ensures exists end: State ::
      && Leads(s, [Read(w), Write(w, true)], end)
      && end.store == s.store[id := Completed] && end.active == s.active && OthersStay(s, w, end)
  {
    var s1 := Apply(s, Read(w));
    var s2 := Apply(s1, Write(w, true));
    assert Leads(s2, [], s2);
    LeadsNext(s1, Write(w, true), [], s2);
    LeadsNext(s, Read(w), [Write(w, true)], s2);
  }

  /** A watcher sees its process out: it stores Completed if there is a file. */
  lemma WatcherRuns(s: State, w: Thread, id: Id, c: nat)
    requires w in s.threads && s.threads[w] == Waiting(id, c) && c in s.running
    requires id in s.store && s.store[id] != Cancelled
    ensures exists end: State ::
      && Leads(s, [Exit(c), WaitReturns(w), Delete(w), Read(w), Write(w, true)], end)
      && end.store == s.store[id := Completed] && end.active == s.active - {id} && OthersStay(s, w, end)
  {
    ExitRuns(s, w, id, c);
    var mid: State :|
      && Leads(s, [Exit(c), WaitReturns(w), Delete(w)], mid)
      && mid.store == s.store && mid.active == s.active - {id} && OthersStay(s, w, mid)
      && w in mid.threads && mid.threads[w] == FinalizeRead(id, Job(BySchedule, []));
    FinalizeRuns(mid, w, id);
    var end: State :|
      && Leads(mid, [Read(w), Write(w, true)], end)
      && end.store == mid.store[id := Completed] && end.active == mid.active && OthersStay(mid, w, end);
    LeadsTrans(s, [Exit(c), WaitReturns(w), Delete(w)], mid, [Read(w), Write(w, true)], end);
    assert [Exit(c), WaitReturns(w), Delete(w)] + [Read(w), Write(w, true)]
        == [Exit(c), WaitReturns(w), Delete(w), Read(w), Write(w, true)];
  }

  lemma ReopenRuns(s: State, t: Thread, id: Id)
    requires t in s.threads && s.threads[t] == Resave(id, Recording) && id in s.store && id !in s.active
    ensures exists end: State :: Leads(s, [Save(t)], end) && end.store == s.store[id := Recording] && id !in end.active
  {
    var end := Apply(s, Save(t));
    assert Leads(end, [], end);
    assert [Save(t)] + [] == [Save(t)];
    LeadsNext(s, Save(t), [], end);
  }

  lemma StartRuns(s: State, t: Thread, w: Thread, id: Id, c: nat)
    requires t in s.threads && s.threads[t] == Starting(id, c, Job(BySeries, []))
    requires w !in s.threads && c !in s.cancelled
    ensures Enabled(s, Start(t, true, w))
    ensures var s1 := Apply(s, Start(t, true, w));
      && s1.threads == s.threads[t := Resave(id, Recording)][w := Waiting(id, c)]
      && c in s1.running && s1.store == s.store && s1.active == s.active
  {
  }

  lemma EndsFirst(s: State, t: Thread, w: Thread, id: Id, c: nat) returns (mid: State)
    requires t in s.threads && s.threads[t] == Starting(id, c, Job(BySeries, []))
    requires w !in s.threads && c !in s.cancelled && id in s.store && s.store[id] != Cancelled
    ensures Leads(s, [Start(t, true, w), Exit(c), WaitReturns(w), Delete(w), Read(w), Write(w, true)], mid)
    ensures mid.store == s.store[id := Completed] && id !in mid.active
    ensures t in mid.threads && mid.threads[t] == Resave(id, Recording)
  {
    StartRuns(s, t, w, id, c);
    var s1 := Apply(s, Start(t, true, w));
    var watch := [Exit(c), WaitReturns(w), Delete(w), Read(w), Write(w, true)];
    WatcherRuns(s1, w, id, c);
    mid :| Leads(s1, watch, mid)
      && mid.store == s1.store[id := Completed] && mid.active == s1.active - {id} && OthersStay(s1, w, mid);
    LeadsNext(s, Start(t, true, w), watch, mid);
    assert [Start(t, true, w)] + watch
        == [Start(t, true, w), Exit(c), WaitReturns(w), Delete(w), Read(w), Write(w, true)];
  }

  /** Nor does a stored Recording always have an owner between steps: whenever a series
      expansion is about to start ffmpeg, the process can end and be finalized before
      the expansion stores its own copy, which then says Recording of a recording that
      is over and that nothing will finalize until a restart. */
  lemma CompletedMayBeReopened(s: State, t: Thread, w: Thread, id: Id, c: nat)
    requires t in s.threads && s.threads[t] == Starting(id, c, Job(BySeries, []))
    requires w !in s.threads && c !in s.cancelled && id in s.store && s.store[id] != Cancelled
    ensures exists mid: State, end: State ::
      && Leads(s, [Start(t, true, w), Exit(c), WaitReturns(w), Delete(w), Read(w), Write(w, true)], mid)
      && mid.store == s.store[id := Completed]
      && Leads(mid, [Save(t)], end) && end.store == s.store[id := Recording] && id !in end.active
  {
    var mid := EndsFirst(s, t, w, id, c);
    ReopenRuns(mid, t, id);
    var end: State :| Leads(mid, [Save(t)], end) && end.store == mid.store[id := Recording] && id !in end.active;
    assert end.store == s.store[id := Recording];
  }

  /** Thread 1 expands a series in a fresh recorder and is about to start ffmpeg. */
  ghost predicate Reopenable(s: State, id: Id) {
    && 1 in s.threads && s.threads[1] == Starting(id, 0, Job(BySeries, []))
    && 2 !in s.threads && 0 !in s.cancelled && id in s.store && s.store[id] == Recording
  }

  lemma SeriesRuns(s: State, id: Id) returns (end: State)
    requires s == State(map[1 := Queue(Job(BySeries, [id]))], map[], map[], {}, [], map[id := Scheduled], false)
    ensures Leads(s, [Enter(1), Lock(1, true), Save(1)], end) && Reopenable(end, id)
  {
    SeriesSteps(s, id);
    LeadsThree(s, Enter(1), Lock(1, true), Save(1));
    end := AfterThree(s, Enter(1), Lock(1, true), Save(1));
  }

  /** Such a moment, too, is reached from a restart with nothing to resume. */
  lemma ReopenableReachable(id: Id)
    ensures exists s: State, run: seq<Action>, end: State :: Init(s) && Leads(s, run, end) && Reopenable(end, id)
  {
    var s1 := State(map[1 := Queue(Job(BySeries, [id]))], map[], map[], {}, [], map[id := Scheduled], false);
    var end := SeriesRuns(s1, id);
    var run := [Enter(1), Lock(1, true), Save(1)];
    assert Apply(Resumed(), Create(1, id, BySeries)) == s1;
    LeadsNext(Resumed(), Create(1, id, BySeries), run, end);
    assert Apply(Restarted(), Finish(0)) == Resumed();
    LeadsNext(Restarted(), Finish(0), [Create(1, id, BySeries)] + run, end);
    assert Init(Restarted());
  }

  lemma SeriesSteps(s: State, id: Id)
    requires s == State(map[1 := Queue(Job(BySeries, [id]))], map[], map[], {}, [], map[id := Scheduled], false)
    ensures Three(s, Enter(1), Lock(1, true), Save(1))
    ensures Reopenable(AfterThree(s, Enter(1), Lock(1, true), Save(1)), id)
  {
    assert [id][1..] == [];
    var s1 := Apply(s, Enter(1));
    assert s1.threads[1] == AtLock(id, Job(BySeries, []));
    var s2 := Apply(s1, Lock(1, true));
    assert s2.threads[1] == Inserted(id, 0, Job(BySeries, []));
  }
}
