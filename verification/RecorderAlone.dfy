/** What the recorder's threads do when nobody interferes (internal/dvr/recorder.go): each
    path through maybeStart, finalize, resume and Cancel, from its first step to its last. */
module RecorderAlone {
  import opened RecorderProtocol

  lemma LeadsTwo(s: State, a: Action, b: Action)
    requires Enabled(s, a) && Enabled(Apply(s, a), b)
    ensures Leads(s, [a, b], Apply(Apply(s, a), b))
  {
    var s1, s2 := Apply(s, a), Apply(Apply(s, a), b);
    assert Leads(s2, [], s2);
    LeadsNext(s1, b, [], s2);
    LeadsNext(s, a, [b], s2);
    assert [b] + [] == [b] && [a] + [b] == [a, b];
  }

  /** Thread t has come to recording `id`, which is stored. */
  ghost predicate AtNext(s: State, t: Thread, id: Id) {
    Pending(s, t) && s.threads[t].job.ids[0] == id && id in s.store
  }

  /** Apart from the threads and the status of `id`, nothing has changed. */
  ghost predicate OnlyStored(s: State, s': State, id: Id, st: Status) {
    s'.store == s.store[id := st] && s'.active == s.active && s'.running == s.running
  }

  lemma EnterLock(s: State, t: Thread, id: Id, channel: bool)
    requires AtNext(s, t, id) && id !in s.active
    ensures Three(s, Enter(t), Lock(t, channel), Save(t))
    ensures var s3 := AfterThree(s, Enter(t), Lock(t, channel), Save(t));
      if channel then
        && s3.store == s.store[id := Recording] && s3.active == s.active[id := |s.made|] && s3.made == s.made + [id]
        && s3.running == s.running && s3.cancelled == s.cancelled
        && s3.threads == s.threads[t := Starting(id, |s.made|, Rest(s.threads[t].job))]
      else OnlyStored(s, s3, id, Failed) && s3.threads.Keys == s.threads.Keys
  {
    var job := Rest(s.threads[t].job);
    var s1 := Apply(s, Enter(t));
    assert s1.threads[t] == AtLock(id, job);
    var s2 := Apply(s1, Lock(t, channel));
    assert s2.threads[t] == if channel then Inserted(id, |s.made|, job) else NoChannel(id, job);
    assert s.threads.Keys + {t} == s.threads.Keys;
  }

  /** A due recording without a stream is stored as Failed. */
  lemma NoChannelAlone(s: State, t: Thread, id: Id) returns (end: State)
    requires AtNext(s, t, id) && id !in s.active
    ensures Leads(s, [Enter(t), Lock(t, false), Save(t)], end) && OnlyStored(s, end, id, Failed)
  {
    EnterLock(s, t, id, false);
    LeadsThree(s, Enter(t), Lock(t, false), Save(t));
    end := AfterThree(s, Enter(t), Lock(t, false), Save(t));
  }

  /** A due recording that is active already is passed over. */
  lemma ActiveAlone(s: State, t: Thread, id: Id, channel: bool) returns (end: State)
    requires AtNext(s, t, id) && id in s.active
    ensures Leads(s, [Enter(t), Lock(t, channel)], end)
    ensures end.store == s.store && end.active == s.active && end.running == s.running && end.cancelled == s.cancelled
  {
    var s1 := Apply(s, Enter(t));
    assert s1.threads[t] == AtLock(id, Rest(s.threads[t].job));
    LeadsTwo(s, Enter(t), Lock(t, channel));
    end := Apply(s1, Lock(t, channel));
  }

  /** A due recording with a stream is active under a new context and runs, with a thread
      watching it, when ffmpeg starts. */
  lemma StartAlone(s: State, t: Thread, w: Thread, id: Id) returns (end: State)
    requires AtNext(s, t, id) && id !in s.active && w !in s.threads && |s.made| !in s.cancelled
    ensures Leads(s, [Enter(t), Lock(t, true), Save(t)] + [Start(t, true, w)], end)
    ensures end.store == s.store[id := Recording] && end.active == s.active[id := |s.made|]
    ensures end.running == s.running[|s.made| := id] && w in end.threads && end.threads[w] == Waiting(id, |s.made|)
  {
    EnterLock(s, t, id, true);
    LeadsThree(s, Enter(t), Lock(t, true), Save(t));
    var s3 := AfterThree(s, Enter(t), Lock(t, true), Save(t));
    end := Apply(s3, Start(t, true, w));
    assert Leads(end, [], end);
    LeadsNext(s3, Start(t, true, w), [], end);
    assert [Start(t, true, w)] + [] == [Start(t, true, w)];
    LeadsTrans(s, [Enter(t), Lock(t, true), Save(t)], s3, [Start(t, true, w)], end);
  }

  lemma FailedStart(s: State, t: Thread, w: Thread, id: Id, c: nat, job: Job)
    requires t in s.threads && s.threads[t] == Starting(id, c, job) && w !in s.threads && id in s.store
    ensures Three(s, Start(t, false, w), Delete(t), Save(t))
    ensures var end := AfterThree(s, Start(t, false, w), Delete(t), Save(t));
      && end.store == s.store[id := Failed] && end.active == s.active - {id} && end.running == s.running
      && end.cancelled == s.cancelled + {c}
  {
    var s1 := Apply(s, Start(t, false, w));
    assert s1.threads[t] == StartFailed(id, c, job);
    var s2 := Apply(s1, Delete(t));
    assert s2.threads[t] == StoreFailed(id, job);
  }

  /** When ffmpeg does not start, the recording is Failed and no longer active. */
  lemma StartFailsAlone(s: State, t: Thread, w: Thread, id: Id) returns (end: State)
    requires AtNext(s, t, id) && id !in s.active && w !in s.threads
    ensures Leads(s, [Enter(t), Lock(t, true), Save(t)] + [Start(t, false, w), Delete(t), Save(t)], end)
    ensures OnlyStored(s, end, id, Failed)
  {
    EnterLock(s, t, id, true);
    LeadsThree(s, Enter(t), Lock(t, true), Save(t));
    var s3 := AfterThree(s, Enter(t), Lock(t, true), Save(t));
    FailedStart(s3, t, w, id, |s.made|, Rest(s.threads[t].job));
    LeadsThree(s3, Start(t, false, w), Delete(t), Save(t));
    end := AfterThree(s3, Start(t, false, w), Delete(t), Save(t));
    LeadsTrans(s, [Enter(t), Lock(t, true), Save(t)], s3, [Start(t, false, w), Delete(t), Save(t)], end);
    assert s.active[id := |s.made|] - {id} == s.active;
  }

  lemma Judged(s: State, t: Thread, id: Id, job: Job, hasFile: bool) returns (end: State)
    requires t in s.threads && s.threads[t] == FinalizeRead(id, job) && id in s.store && s.store[id] != Cancelled
    ensures Leads(s, [Read(t), Write(t, hasFile)], end)
    ensures OnlyStored(s, end, id, if hasFile then Completed else Failed) && end.cancelled == s.cancelled
  {
    var s1 := Apply(s, Read(t));
    assert s1.threads[t] == FinalizeWrite(id, job);
    LeadsTwo(s, Read(t), Write(t, hasFile));
    end := Apply(s1, Write(t, hasFile));
  }

  /** When its process ends, a recording is no longer active and is judged by its file. */
  lemma ExitAlone(s: State, w: Thread, id: Id, c: nat, hasFile: bool) returns (end: State)
    requires w in s.threads && s.threads[w] == Waiting(id, c) && c in s.running
    requires id in s.store && s.store[id] != Cancelled
    ensures Leads(s, [Exit(c), WaitReturns(w), Delete(w)] + [Read(w), Write(w, hasFile)], end)
    ensures end.store == s.store[id := if hasFile then Completed else Failed] && end.active == s.active - {id}
    ensures end.running == s.running - {c} && c in end.cancelled
  {
    ExitSteps(s, w, id, c);
    LeadsThree(s, Exit(c), WaitReturns(w), Delete(w));
    var mid := AfterThree(s, Exit(c), WaitReturns(w), Delete(w));
    Ended(s, w, c);
    end := Judged(mid, w, id, Job(BySchedule, []), hasFile);
    LeadsTrans(s, [Exit(c), WaitReturns(w), Delete(w)], mid, [Read(w), Write(w, hasFile)], end);
  }

  lemma Ended(s: State, w: Thread, c: nat)
    requires w in s.threads && s.threads[w].Waiting? && s.threads[w].ctx == c && c in s.running
    requires Three(s, Exit(c), WaitReturns(w), Delete(w))
    ensures var mid := AfterThree(s, Exit(c), WaitReturns(w), Delete(w));
      mid.running == s.running - {c} && c in mid.cancelled
  {
  }

  /** A recording whose window is over fails when the ticker comes to it. */
  lemma MissedByTick(s: State, t: Thread, id: Id)
    requires AtNext(s, t, id) && s.threads[t].job.from.ByTick?
    ensures Enabled(s, Missed(t)) && OnlyStored(s, Apply(s, Missed(t)), id, Failed)
  {
  }

  /** And is judged by its file when the resume pass does. */
  lemma MissedByResume(s: State, t: Thread, id: Id, hasFile: bool) returns (end: State)
    requires AtNext(s, t, id) && s.threads[t].job.from.ByResume? && s.store[id] != Cancelled && id !in s.active
    ensures Leads(s, [Missed(t), Delete(t)] + [Read(t), Write(t, hasFile)], end)
    ensures OnlyStored(s, end, id, if hasFile then Completed else Failed)
  {
    var job := Rest(s.threads[t].job);
    var s1 := Apply(s, Missed(t));
    assert s1.threads[t] == ResumeFinalize(id, job);
    LeadsTwo(s, Missed(t), Delete(t));
    var s2 := Apply(s1, Delete(t));
    assert s2.threads[t] == FinalizeRead(id, job) && s2.active == s.active;
    end := Judged(s2, t, id, job, hasFile);
    LeadsTrans(s, [Missed(t), Delete(t)], s2, [Read(t), Write(t, hasFile)], end);
  }

  /** Cancel of a running recording tells its own process to stop, and stores nothing. */
  lemma CancelActiveAlone(s: State, u: Thread, id: Id) returns (end: State)
    requires !s.booting && u !in s.threads && id in s.store && id in s.active
    ensures Leads(s, [Cancel(u, id), LookUp(u), CallFunc(u)], end)
    ensures end.cancelled == s.cancelled + {s.active[id]}
    ensures end.store == s.store && end.active == s.active && end.running == s.running
  {
    var s1 := Apply(s, Cancel(u, id));
    assert s1.threads[u] == CancelRead(id, s.store[id]);
    var s2 := Apply(s1, LookUp(u));
    assert s2.threads[u] == CancelRunning(id, s.active[id]);
    LeadsThree(s, Cancel(u, id), LookUp(u), CallFunc(u));
    end := AfterThree(s, Cancel(u, id), LookUp(u), CallFunc(u));
  }

  /** Cancel of an idle recording stores Cancelled for a scheduled one and nothing for one
      that has ended. */
  lemma CancelIdleAlone(s: State, u: Thread, id: Id) returns (end: State)
    requires !s.booting && u !in s.threads && id in s.store && id !in s.active
    ensures Leads(s, [Cancel(u, id), LookUp(u), Save(u)], end)
    ensures OnlyStored(s, end, id, if s.store[id].Scheduled? then Cancelled else s.store[id])
    ensures end.cancelled == s.cancelled
  {
    var s1 := Apply(s, Cancel(u, id));
    assert s1.threads[u] == CancelRead(id, s.store[id]);
    var s2 := Apply(s1, LookUp(u));
    assert s2.threads[u] == CancelIdle(id, s.store[id]);
    LeadsThree(s, Cancel(u, id), LookUp(u), Save(u));
    end := AfterThree(s, Cancel(u, id), LookUp(u), Save(u));
  }

  /** Close tells every active recording to stop, at once. */
  lemma CloseAlone(s: State, id: Id)
    requires !s.booting && id in s.active
    ensures Enabled(s, Close) && s.active[id] in Apply(s, Close).cancelled
    ensures Apply(s, Close) == s.(cancelled := Apply(s, Close).cancelled) && s.cancelled <= Apply(s, Close).cancelled
  {
  }
}
