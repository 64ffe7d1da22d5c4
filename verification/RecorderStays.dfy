/** When a cancelled or completed recording stays so under every interleaving of the
    recorder's steps (internal/dvr/recorder.go): exactly when no thread still carries
    a store of it. */
module RecorderStays {
  import opened RecorderProtocol

  predicate Listed(pc: Pc, id: Id) { HasJob(pc) && id in pc.job.ids }

  /** The thread is past the decision to start the recording, or about to store it. */
  predicate AboutToStore(pc: Pc, id: Id) {
    && (pc.AtLock? || pc.NoChannel? || pc.Inserted? || pc.Starting? || pc.StartFailed? || pc.StoreFailed? || pc.Resave?
        || pc.FinalizeWrite?)
    && pc.id == id
  }

  /** The thread will read the record and may then store over Completed; over
      Cancelled it will not. */
  predicate AboutToRead(pc: Pc, id: Id) {
    || ((pc.FinalizeRead? || pc.Waiting? || pc.Exited? || pc.ResumeFinalize?) && pc.id == id)
    || ((pc.CancelRead? || pc.CancelIdle?) && pc.id == id && pc.seen.Scheduled?)
  }

  /** The thread holds `id` in a way that can end in a store other than `st`. */
  predicate Carries(pc: Pc, id: Id, st: Status) {
    Listed(pc, id) || AboutToStore(pc, id) || (st.Completed? && AboutToRead(pc, id))
  }

  ghost predicate Stored(s: State, id: Id, st: Status) { id in s.store && s.store[id] == st }

  ghost predicate NobodyCarries(s: State, id: Id, st: Status) {
    forall t :: t in s.threads ==> !Carries(s.threads[t], id, st)
  }

  // --------------------------------------------------- without a carrier it stays

  ghost predicate Settled(s: State, id: Id, st: Status) {
    Stored(s, id, st) && NobodyCarries(s, id, st) && (st.Cancelled? || st.Completed?)
  }

  /** Callers that arrive, callers that go through their lists, and the rest. */
  predicate Arrives(a: Action) { a.Create? || a.Tick? || a.Cancel? }
  predicate Goes(a: Action) { a.Skip? || a.Missed? || a.Enter? }
  predicate Ends(a: Action) { a.Exit? || a.WaitReturns? || a.Close? || a.Finish? }

  lemma SettledArrives(s: State, a: Action, id: Id, st: Status)
    requires Enabled(s, a) && Settled(s, id, st) && Arrives(a)
    ensures Settled(Apply(s, a), id, st)
  {
  }

  lemma SettledGoes(s: State, a: Action, id: Id, st: Status)
    requires Enabled(s, a) && Settled(s, id, st) && Goes(a)
    ensures Settled(Apply(s, a), id, st)
  {
    var pc := s.threads[a.t];
    assert id !in pc.job.ids && pc.job.ids[0] != id;
  }

  lemma SettledEnds(s: State, a: Action, id: Id, st: Status)
    requires Enabled(s, a) && Settled(s, id, st) && Ends(a)
    ensures Settled(Apply(s, a), id, st)
  {
  }

  lemma SettledStart(s: State, a: Action, id: Id, st: Status)
    requires Enabled(s, a) && Settled(s, id, st) && a.Start?
    ensures Settled(Apply(s, a), id, st)
  {
  }

  lemma SettledSave(s: State, t: Thread, id: Id, st: Status)
    requires t in s.threads && Saves(s.threads[t]) && Settled(s, id, st)
    ensures Settled(ApplySave(s, t), id, st)
  {
    assert !Carries(ApplySave(s, t).threads[t], id, st);
  }

  lemma SettledFinalize(s: State, a: Action, id: Id, st: Status)
    requires Enabled(s, a) && Settled(s, id, st) && (a.Read? || a.Write?)
    ensures Settled(Apply(s, a), id, st)
  {
  }

  lemma SettledLock(s: State, t: Thread, channel: bool, id: Id, st: Status)
    requires t in s.threads && s.threads[t].AtLock? && Settled(s, id, st)
    ensures Settled(ApplyLock(s, t, channel), id, st)
  {
    assert !Carries(ApplyLock(s, t, channel).threads[t], id, st);
  }

  lemma SettledDelete(s: State, t: Thread, id: Id, st: Status)
    requires t in s.threads && Deletes(s.threads[t]) && Settled(s, id, st)
    ensures Settled(ApplyDelete(s, t), id, st)
  {
    assert !Carries(ApplyDelete(s, t).threads[t], id, st);
  }

  lemma SettledCancel(s: State, a: Action, id: Id, st: Status)
    requires Enabled(s, a) && Settled(s, id, st) && (a.LookUp? || a.CallFunc?)
    ensures Settled(Apply(s, a), id, st)
  {
  }

  lemma SettledStep(s: State, a: Action, id: Id, st: Status)
    requires Enabled(s, a) && Settled(s, id, st)
    ensures Settled(Apply(s, a), id, st)
  {
    match a
    case Start(_, _, _) => SettledStart(s, a, id, st);
    case Save(t) => SettledSave(s, t, id, st);
    case Lock(t, channel) => SettledLock(s, t, channel, id, st);
    case Delete(t) => SettledDelete(s, t, id, st);
    case Read(_) => SettledFinalize(s, a, id, st);
    case Write(_, _) => SettledFinalize(s, a, id, st);
    case LookUp(_) => SettledCancel(s, a, id, st);
    case CallFunc(_) => SettledCancel(s, a, id, st);
    case _ =>
      if Arrives(a) {
        SettledArrives(s, a, id, st);
      } else if Goes(a) {
        SettledGoes(s, a, id, st);
      } else {
        SettledEnds(s, a, id, st);
      }
  }

  lemma {:induction false} SettledRun(s: State, run: seq<Action>, id: Id, st: Status)
    requires Runs(s, run) && Settled(s, id, st)
    ensures Stored(After(s, run), id, st)
    decreases run
  {
    if run != [] {
      SettledStep(s, run[0], id, st);
      SettledRun(Apply(s, run[0]), run[1..], id, st);
    }
  }

  // ------------------------------------------ a carrier can be driven to its store

  /** A series expansion works on one recording at a time, and never stores Cancelled
      or Completed. */
  predicate OneAtATime(pc: Pc) {
    && (HasJob(pc) && pc.job.from.BySeries? ==> |pc.job.ids| <= (if pc.Queue? then 1 else 0))
    && (pc.Resave? ==> !pc.seen.Cancelled? && !pc.seen.Completed?)
  }

  ghost predicate SeriesApart(s: State) { forall t :: t in s.threads ==> OneAtATime(s.threads[t]) }

  lemma SeriesArrives(s: State, a: Action)
    requires Enabled(s, a) && SeriesApart(s) && Arrives(a)
    ensures SeriesApart(Apply(s, a))
  {
  }

  lemma SeriesGoes(s: State, a: Action)
    requires Enabled(s, a) && SeriesApart(s) && Goes(a)
    ensures SeriesApart(Apply(s, a))
  {
    assert OneAtATime(s.threads[a.t]);
  }

  lemma SeriesEnds(s: State, a: Action)
    requires Enabled(s, a) && SeriesApart(s) && Ends(a)
    ensures SeriesApart(Apply(s, a))
  {
  }

  lemma SeriesStart(s: State, a: Action)
    requires Enabled(s, a) && SeriesApart(s) && a.Start?
    ensures SeriesApart(Apply(s, a))
  {
  }

  lemma SeriesSave(s: State, t: Thread)
    requires t in s.threads && Saves(s.threads[t]) && SeriesApart(s)
    ensures SeriesApart(ApplySave(s, t))
  {
    assert OneAtATime(ApplySave(s, t).threads[t]);
  }

  lemma SeriesLock(s: State, t: Thread, channel: bool)
    requires t in s.threads && s.threads[t].AtLock? && SeriesApart(s)
    ensures SeriesApart(ApplyLock(s, t, channel))
  {
    assert OneAtATime(ApplyLock(s, t, channel).threads[t]);
  }

  lemma SeriesDelete(s: State, t: Thread)
    requires t in s.threads && Deletes(s.threads[t]) && SeriesApart(s)
    ensures SeriesApart(ApplyDelete(s, t))
  {
    assert OneAtATime(ApplyDelete(s, t).threads[t]);
  }

  lemma SeriesRest(s: State, a: Action)
    requires Enabled(s, a) && SeriesApart(s) && (a.Read? || a.Write? || a.LookUp? || a.CallFunc?)
    ensures SeriesApart(Apply(s, a))
  {
    assert OneAtATime(Apply(s, a).threads[a.t]);
  }

  lemma SeriesStep(s: State, a: Action)
    requires Enabled(s, a) && SeriesApart(s)
    ensures SeriesApart(Apply(s, a))
  {
    if Arrives(a) {
      SeriesArrives(s, a);
    } else if Goes(a) {
      SeriesGoes(s, a);
    } else if Ends(a) {
      SeriesEnds(s, a);
    } else if a.Start? {
      SeriesStart(s, a);
    } else if a.Save? {
      SeriesSave(s, a.t);
    } else if a.Lock? {
      SeriesLock(s, a.t, a.channel);
    } else if a.Delete? {
      SeriesDelete(s, a.t);
    } else {
      SeriesRest(s, a);
    }
  }

  /** Some run stores something else. */
  ghost predicate CanChange(s: State, id: Id, st: Status) {
    exists run :: Runs(s, run) && !Stored(After(s, run), id, st)
  }

  lemma ChangesNow(s: State, a: Action, id: Id, st: Status)
    requires Enabled(s, a) && !Stored(Apply(s, a), id, st)
    ensures CanChange(s, id, st)
  {
    UnfoldRun(s, [a], Apply(s, a));
    assert [a][1..] == [];
    assert Runs(s, [a]);
  }

  lemma ChangesLater(s: State, a: Action, id: Id, st: Status)
    requires Enabled(s, a) && CanChange(Apply(s, a), id, st)
    ensures CanChange(s, id, st)
  {
    var run :| Runs(Apply(s, a), run) && !Stored(After(Apply(s, a), run), id, st);
    assert ([a] + run)[1..] == run;
    UnfoldRun(s, [a] + run, Apply(s, a));
  }

  ghost predicate Good(s: State, id: Id, st: Status) {
    Inv(s) && SeriesApart(s) && Stored(s, id, st) && (st.Cancelled? || st.Completed?)
  }

  lemma GoodStep(s: State, a: Action, id: Id, st: Status)
    requires Good(s, id, st) && Enabled(s, a) && Stored(Apply(s, a), id, st)
    ensures Good(Apply(s, a), id, st)
  {
    StepKeeps(s, a);
    SeriesStep(s, a);
  }

  ghost predicate Above(m: map<Thread, Pc>, w: Thread) { forall t :: t in m ==> t < w }

  lemma {:induction false} FreshThread(m: map<Thread, Pc>) returns (w: Thread)
    ensures Above(m, w)
    decreases m.Keys
  {
    w := 0;
    if k :| k in m.Keys {
      w := FreshThread(m - {k});
      assert forall t :: t in m ==> t == k || t in m - {k};
      w := if w > k then w else k + 1;
    }
  }

  lemma SaveChanges(s: State, t: Thread, id: Id, st: Status)
    requires Good(s, id, st) && t in s.threads && AboutToStore(s.threads[t], id) && Saves(s.threads[t])
    ensures CanChange(s, id, st)
  {
    ChangesNow(s, Save(t), id, st);
  }

  lemma StartFailedChanges(s: State, t: Thread, id: Id, st: Status)
    requires Good(s, id, st) && t in s.threads && s.threads[t].StartFailed? && s.threads[t].id == id
    ensures CanChange(s, id, st)
  {
    GoodStep(s, Delete(t), id, st);
    SaveChanges(Apply(s, Delete(t)), t, id, st);
    ChangesLater(s, Delete(t), id, st);
  }

  lemma StartingChanges(s: State, t: Thread, id: Id, st: Status)
    requires Good(s, id, st) && t in s.threads && s.threads[t].Starting? && s.threads[t].id == id
    ensures CanChange(s, id, st)
  {
    var w := FreshThread(s.threads);
    GoodStep(s, Start(t, false, w), id, st);
    StartFailedChanges(Apply(s, Start(t, false, w)), t, id, st);
    ChangesLater(s, Start(t, false, w), id, st);
  }

  lemma WriteChanges(s: State, t: Thread, id: Id, st: Status)
    requires Good(s, id, st) && t in s.threads && s.threads[t].FinalizeWrite? && s.threads[t].id == id
    ensures CanChange(s, id, st)
  {
    ChangesNow(s, Write(t, false), id, st);
  }

  lemma ReadChanges(s: State, t: Thread, id: Id, st: Status)
    requires Good(s, id, st) && st.Completed? && t in s.threads && s.threads[t].FinalizeRead? && s.threads[t].id == id
    ensures CanChange(s, id, st)
  {
    GoodStep(s, Read(t), id, st);
    WriteChanges(Apply(s, Read(t)), t, id, st);
    ChangesLater(s, Read(t), id, st);
  }

  /** The lock is free for the taking. */
  lemma LockChanges(s: State, t: Thread, id: Id, st: Status)
    requires Good(s, id, st) && t in s.threads && s.threads[t].AtLock? && s.threads[t].id == id && id !in s.active
    ensures CanChange(s, id, st)
  {
    GoodStep(s, Lock(t, false), id, st);
    SaveChanges(Apply(s, Lock(t, false)), t, id, st);
    ChangesLater(s, Lock(t, false), id, st);
  }

  /** What waits for the owner of `id` to leave `active`. */
  predicate WaitsForOwner(pc: Pc, id: Id, st: Status) {
    (pc.AtLock? || (pc.CancelRead? && pc.seen.Scheduled? && st.Completed?)) && pc.id == id
  }

  lemma NoOwnerChanges(s: State, t: Thread, id: Id, st: Status)
    requires Good(s, id, st) && t in s.threads && WaitsForOwner(s.threads[t], id, st)
    requires id !in s.active
    ensures CanChange(s, id, st)
  {
    if s.threads[t].AtLock? {
      LockChanges(s, t, id, st);
    } else {
      GoodStep(s, LookUp(t), id, st);
      ChangesNow(Apply(s, LookUp(t)), Save(t), id, st);
      ChangesLater(s, LookUp(t), id, st);
    }
  }

  lemma ExitedChanges(s: State, u: Thread, t: Thread, id: Id, st: Status)
    requires Good(s, id, st) && u in s.threads && s.threads[u].Exited? && s.threads[u].id == id
    requires st.Completed? || (t in s.threads && t != u && WaitsForOwner(s.threads[t], id, st))
    ensures CanChange(s, id, st)
  {
    GoodStep(s, Delete(u), id, st);
    var s1 := Apply(s, Delete(u));
    if st.Completed? {
      ReadChanges(s1, u, id, st);
    } else {
      NoOwnerChanges(s1, t, id, st);
    }
    ChangesLater(s, Delete(u), id, st);
  }

  lemma WaitOverChanges(s: State, u: Thread, t: Thread, id: Id, st: Status)
    requires Good(s, id, st) && u in s.threads && s.threads[u].Waiting? && s.threads[u].id == id
    requires s.threads[u].ctx !in s.running
    requires st.Completed? || (t in s.threads && t != u && WaitsForOwner(s.threads[t], id, st))
    ensures CanChange(s, id, st)
  {
    GoodStep(s, WaitReturns(u), id, st);
    ExitedChanges(Apply(s, WaitReturns(u)), u, t, id, st);
    ChangesLater(s, WaitReturns(u), id, st);
  }

  lemma WaitingChanges(s: State, u: Thread, t: Thread, id: Id, st: Status)
    requires Good(s, id, st) && u in s.threads && s.threads[u].Waiting? && s.threads[u].id == id
    requires st.Completed? || (t in s.threads && t != u && WaitsForOwner(s.threads[t], id, st))
    ensures CanChange(s, id, st)
  {
    var c := s.threads[u].ctx;
    if c in s.running {
      GoodStep(s, Exit(c), id, st);
      WaitOverChanges(Apply(s, Exit(c)), u, t, id, st);
      ChangesLater(s, Exit(c), id, st);
    } else {
      WaitOverChanges(s, u, t, id, st);
    }
  }

  lemma OwnerChanges(s: State, u: Thread, t: Thread, id: Id, st: Status)
    requires Good(s, id, st) && u in s.threads && Owner(s.threads[u]) && s.threads[u].id == id
    requires st.Completed? || (t in s.threads && t != u && WaitsForOwner(s.threads[t], id, st))
    ensures CanChange(s, id, st)
  {
    match s.threads[u]
    case Inserted(_, _, _) => SaveChanges(s, u, id, st);
    case Starting(_, _, _) => StartingChanges(s, u, id, st);
    case StartFailed(_, _, _) => StartFailedChanges(s, u, id, st);
    case Waiting(_, _) => WaitingChanges(s, u, t, id, st);
    case Exited(_, _) => ExitedChanges(s, u, t, id, st);
  }

  lemma WaiterChanges(s: State, t: Thread, id: Id, st: Status)
    requires Good(s, id, st) && t in s.threads && WaitsForOwner(s.threads[t], id, st)
    ensures CanChange(s, id, st)
  {
    if id in s.active {
      var u :| OwnedBy(s, u, id, s.active[id]);
      OwnerChanges(s, u, t, id, st);
    } else {
      NoOwnerChanges(s, t, id, st);
    }
  }

  lemma ResumedChanges(s: State, t: Thread, id: Id, st: Status)
    requires Good(s, id, st) && st.Completed? && t in s.threads && s.threads[t].ResumeFinalize? && s.threads[t].id == id
    ensures CanChange(s, id, st)
  {
    GoodStep(s, Delete(t), id, st);
    ReadChanges(Apply(s, Delete(t)), t, id, st);
    ChangesLater(s, Delete(t), id, st);
  }

  /** A thread at work on `id` itself. */
  predicate AtWork(pc: Pc, id: Id, st: Status) { AboutToStore(pc, id) || (st.Completed? && AboutToRead(pc, id)) }

  lemma WorkChanges(s: State, t: Thread, id: Id, st: Status)
    requires Good(s, id, st) && t in s.threads && AtWork(s.threads[t], id, st)
    ensures CanChange(s, id, st)
  {
    match s.threads[t]
    case AtLock(_, _) => WaiterChanges(s, t, id, st);
    case CancelRead(_, _) => WaiterChanges(s, t, id, st);
    case Starting(_, _, _) => StartingChanges(s, t, id, st);
    case StartFailed(_, _, _) => StartFailedChanges(s, t, id, st);
    case FinalizeWrite(_, _) => WriteChanges(s, t, id, st);
    case FinalizeRead(_, _) => ReadChanges(s, t, id, st);
    case Waiting(_, _) => WaitingChanges(s, t, t, id, st);
    case Exited(_, _) => ExitedChanges(s, t, t, id, st);
    case ResumeFinalize(_, _) => ResumedChanges(s, t, id, st);
    case CancelIdle(_, _) => ChangesNow(s, Save(t), id, st);
    case _ => SaveChanges(s, t, id, st);
  }

  /** How far a caller is from the end of its list. */
  function Ahead(pc: Pc): nat
    requires HasJob(pc)
  {
    10 * |pc.job.ids| +
    match pc
    case AtLock(_, _) => 6
    case Inserted(_, _, _) => 5
    case Starting(_, _, _) => 4
    case StartFailed(_, _, _) => 3
    case ResumeFinalize(_, _) => 3
    case FinalizeRead(_, _) => 2
    case Queue(_) => 0
    case _ => 1
  }

  /** The step that gets a caller on with its list. */
  function Onward(pc: Pc, t: Thread, w: Thread): Action
    requires HasJob(pc)
  {
    match pc
    case Queue(_) => Skip(t)
    case AtLock(_, _) => Lock(t, false)
    case Starting(_, _, _) => Start(t, false, w)
    case StartFailed(_, _, _) => Delete(t)
    case ResumeFinalize(_, _) => Delete(t)
    case FinalizeRead(_, _) => Read(t)
    case FinalizeWrite(_, _) => Write(t, false)
    case _ => Save(t)
  }

  /** A caller not on the recording itself, but with it on its list. */
  ghost predicate HasAhead(s: State, t: Thread, id: Id, st: Status) {
    && Good(s, id, st) && t in s.threads && Listed(s.threads[t], id) && !AtWork(s.threads[t], id, st)
    && (s.threads[t].Queue? ==> s.threads[t].job.ids[0] != id)
  }

  /** It still has it on its list after its next step, and is further on. */
  ghost predicate GotOn(s: State, a: Action, t: Thread, id: Id, st: Status) {
    && Enabled(s, a) && Stored(Apply(s, a), id, st)
    && t in s.threads && HasJob(s.threads[t])
    && t in Apply(s, a).threads && Listed(Apply(s, a).threads[t], id)
    && Ahead(Apply(s, a).threads[t]) < Ahead(s.threads[t])
  }

  lemma NotSeries(s: State, t: Thread, id: Id, st: Status)
    requires HasAhead(s, t, id, st)
    ensures !s.threads[t].job.from.BySeries?
  {
    assert OneAtATime(s.threads[t]);
  }

  lemma OnwardQueue(s: State, t: Thread, id: Id, st: Status)
    requires HasAhead(s, t, id, st) && s.threads[t].Queue?
    ensures GotOn(s, Skip(t), t, id, st)
  {
    NotSeries(s, t, id, st);
    var ids := s.threads[t].job.ids;
    assert ids == [ids[0]] + ids[1..];
  }

  lemma OnwardSave(s: State, t: Thread, id: Id, st: Status)
    requires HasAhead(s, t, id, st) && Saves(s.threads[t])
    ensures GotOn(s, Save(t), t, id, st)
  {
    NotSeries(s, t, id, st);
    OthersSaved(s, t, id, st);
  }

  /** A store of another recording goes on with the same list. */
  lemma OthersSaved(s: State, t: Thread, id: Id, st: Status)
    requires Stored(s, id, st) && t in s.threads && HasJob(s.threads[t]) && Saves(s.threads[t])
    requires s.threads[t].id != id && !s.threads[t].job.from.BySeries?
    ensures var s' := ApplySave(s, t);
      && Stored(s', id, st) && t in s'.threads && HasJob(s'.threads[t]) && s'.threads[t].job == s.threads[t].job
      && Ahead(s'.threads[t]) < Ahead(s.threads[t])
  {
  }

  lemma OnwardLock(s: State, t: Thread, w: Thread, id: Id, st: Status)
    requires HasAhead(s, t, id, st) && (s.threads[t].AtLock? || s.threads[t].Starting?) && Above(s.threads, w)
    ensures GotOn(s, Onward(s.threads[t], t, w), t, id, st)
  {
    NotSeries(s, t, id, st);
  }

  lemma OnwardDelete(s: State, t: Thread, id: Id, st: Status)
    requires HasAhead(s, t, id, st) && Deletes(s.threads[t])
    ensures GotOn(s, Delete(t), t, id, st)
  {
    assert HasJob(ApplyDelete(s, t).threads[t]);
  }

  lemma OnwardRead(s: State, t: Thread, id: Id, st: Status)
    requires HasAhead(s, t, id, st) && s.threads[t].FinalizeRead?
    ensures GotOn(s, Read(t), t, id, st)
  {
  }

  lemma OnwardWrite(s: State, t: Thread, id: Id, st: Status)
    requires HasAhead(s, t, id, st) && s.threads[t].FinalizeWrite?
    ensures GotOn(s, Write(t, false), t, id, st)
  {
  }

  lemma OnwardStep(s: State, t: Thread, w: Thread, id: Id, st: Status)
    requires HasAhead(s, t, id, st) && Above(s.threads, w)
    ensures GotOn(s, Onward(s.threads[t], t, w), t, id, st)
  {
    var pc := s.threads[t];
    if pc.Queue? {
      OnwardQueue(s, t, id, st);
    } else if Saves(pc) {
      OnwardSave(s, t, id, st);
    } else if pc.AtLock? || pc.Starting? {
      OnwardLock(s, t, w, id, st);
    } else if Deletes(pc) {
      OnwardDelete(s, t, id, st);
    } else if pc.FinalizeRead? {
      OnwardRead(s, t, id, st);
    } else {
      OnwardWrite(s, t, id, st);
    }
  }

  lemma {:induction false} ListedChanges(s: State, t: Thread, id: Id, st: Status)
    requires Good(s, id, st) && t in s.threads && Listed(s.threads[t], id)
    ensures CanChange(s, id, st)
    decreases Ahead(s.threads[t])
  {
    if AtWork(s.threads[t], id, st) {
      WorkChanges(s, t, id, st);
    } else if s.threads[t].Queue? && s.threads[t].job.ids[0] == id {
      GoodStep(s, Enter(t), id, st);
      WorkChanges(Apply(s, Enter(t)), t, id, st);
      ChangesLater(s, Enter(t), id, st);
    } else {
      var w := FreshThread(s.threads);
      OnwardStep(s, t, w, id, st);
      var a := Onward(s.threads[t], t, w);
      GoodStep(s, a, id, st);
      ListedChanges(Apply(s, a), t, id, st);
      ChangesLater(s, a, id, st);
    }
  }

  // ------------------------------------------------------------------- the theorem

  lemma {:induction false} SeriesRun(s: State, run: seq<Action>)
    requires SeriesApart(s) && Runs(s, run)
    ensures SeriesApart(After(s, run))
    decreases run
  {
    if run != [] {
      SeriesStep(s, run[0]);
      SeriesRun(Apply(s, run[0]), run[1..]);
    }
  }

  ghost predicate AlwaysStored(s: State, id: Id, st: Status) {
    forall run :: Runs(s, run) ==> Stored(After(s, run), id, st)
  }

  lemma CarrierChanges(s: State, t: Thread, id: Id, st: Status)
    requires Good(s, id, st) && t in s.threads && Carries(s.threads[t], id, st)
    ensures !AlwaysStored(s, id, st)
  {
    if AtWork(s.threads[t], id, st) {
      WorkChanges(s, t, id, st);
    } else {
      ListedChanges(s, t, id, st);
    }
  }

  /** In every reachable state a recording stored as Cancelled, or as Completed, stays so
      whatever happens next if and only if no thread carries it. */
  lemma StaysExactly(start: State, early: seq<Action>, s: State, id: Id, st: Status)
    requires Init(start) && Leads(start, early, s) && Stored(s, id, st) && (st.Cancelled? || st.Completed?)
    ensures AlwaysStored(s, id, st) <==> NobodyCarries(s, id, st)
  {
    InitInv(start);
    InvHolds(start, early);
    SeriesRun(start, early);
    if NobodyCarries(s, id, st) {
      forall run | Runs(s, run) ensures Stored(After(s, run), id, st) {
        SettledRun(s, run, id, st);
      }
    } else {
      var t :| t in s.threads && Carries(s.threads[t], id, st);
      CarrierChanges(s, t, id, st);
    }
  }
}
