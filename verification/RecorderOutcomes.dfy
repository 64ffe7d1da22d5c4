/** What each event of the recorder (internal/dvr/recorder.go) makes of a recording, in
    every reachable state, told from the clock, the stored record and the world alone. */
module RecorderOutcomes {
  import opened Wrappers
  import opened L = RecorderLife

  // -------------------------------------------------------------------- windows

  /** Only windows with an end after their start are ever stored. */
  ghost predicate WindowsOk(s: State) { forall id :: id in s.recs ==> s.recs[id].start < s.recs[id].end }

  lemma {:induction false} PairsWindows(p: Progress, pairs: seq<Pair>, dir: string, env: Env)
    requires WindowsOk(p.s)
    ensures WindowsOk(ExpandPairs(p, pairs, dir, env).s)
  {
    if pairs != [] {
      PairsWindows(p, pairs[..|pairs| - 1], dir, env);
    }
  }

  lemma StepWindows(s: State, e: Event, dir: string, env: Env)
    requires WindowsOk(s)
    ensures WindowsOk(Step(s, e, dir, env))
  {
    match e
    case Expand(listing, programs, ids) =>
      if programs.Some? {
        PairsWindows(Progress(s, Covered(s.recs), ids), Pairs(listing, programs.value), dir, env);
      }
    case ScheduleSeries(ask, newId, listing, programs, ids) =>
      if newId.Some? && programs.Some? {
        var s1 := s.(timers := s.timers[newId.value := ask.(id := newId.value)]);
        PairsWindows(Progress(s1, Covered(s1.recs), ids), Pairs(listing, programs.value), dir, env);
      }
    case _ =>
  }

  lemma {:induction false} RunWindows(s: State, clock: Instant, dir: string, run: seq<(Event, Env)>)
    requires WindowsOk(s)
    ensures WindowsOk(After(s, dir, run))
    decreases |run|
  {
    if run != [] {
      StepWindows(s, run[0].0, dir, run[0].1);
      RunWindows(Step(s, run[0].0, dir, run[0].1), clock, dir, run[1..]);
    }
  }

  // ------------------------------------------------------------------- the events

  /** The recording is being captured to its file. */
  predicate Capturing(s: State, id: Id, dir: string) {
    id in s.recs && s.recs[id].status.Recording? && id in s.active && s.recs[id].path == dir + "/" + id + ".ts"
  }

  predicate EndedFailed(s: State, id: Id) { id in s.recs && s.recs[id].status.Failed? && id !in s.active }

  /** A tick: what is past fails; what is due is captured exactly when its channel has a
      stream and ffmpeg starts, and fails otherwise; what lies ahead is left alone. */
  lemma TickOutcome(clock: Instant, dir: string, run: seq<(Event, Env)>, env: Env, id: Id)
    requires Runs(EMPTY, clock, dir, run) && ClockAfter(clock, run) <= env.now
    requires id in After(EMPTY, dir, run).recs
    ensures var s, s' := After(EMPTY, dir, run), Step(After(EMPTY, dir, run), Event.Tick, dir, env);
      var r := s.recs[id];
      if !r.status.Scheduled? || env.now < r.start then
        id in s'.recs && s'.recs[id] == r && (id in s'.active <==> id in s.active)
      else if r.end <= env.now then EndedFailed(s', id)
      else if r.channel in env.streams && id !in env.broken then Capturing(s', id, dir)
      else EndedFailed(s', id)
  {
    RunKeeps(EMPTY, clock, dir, run);
    RunWindows(EMPTY, clock, dir, run);
  }

  /** The end of a recording's process: it is Completed exactly when its file is there
      and not empty, else Failed; either way it is no longer active. */
  lemma ExitOutcome(clock: Instant, dir: string, run: seq<(Event, Env)>, env: Env, id: Id)
    requires Runs(EMPTY, clock, dir, run) && id in After(EMPTY, dir, run).active
    ensures var s, s' := After(EMPTY, dir, run), Step(After(EMPTY, dir, run), Exit(id), dir, env);
      && id in s'.recs && id !in s'.active && id !in s'.stopping
      && (s'.recs[id].status.Completed? <==> dir + "/" + id + ".ts" in env.files)
      && (s'.recs[id].status.Failed? <==> dir + "/" + id + ".ts" !in env.files)
      && s'.active == s.active - {id}
      && forall k :: k in s.recs && k != id ==> k in s'.recs && s'.recs[k] == s.recs[k]
  {
    RunKeeps(EMPTY, clock, dir, run);
  }

  /** A restart: what was in progress goes on for the rest of its window when it can,
      and is judged by its file when the window is over; nothing else changes. */
  lemma RestartOutcome(clock: Instant, dir: string, run: seq<(Event, Env)>, env: Env, id: Id)
    requires Runs(EMPTY, clock, dir, run) && ClockAfter(clock, run) <= env.now
    requires id in After(EMPTY, dir, run).recs
    ensures var s, s' := After(EMPTY, dir, run), Step(After(EMPTY, dir, run), Event.Restart, dir, env);
      var r := s.recs[id];
      if !r.status.Recording? then id in s'.recs && s'.recs[id] == r && id !in s'.active
      else if env.now < r.end then
        if r.channel in env.streams && id !in env.broken then Capturing(s', id, dir) else EndedFailed(s', id)
      else if dir + "/" + id + ".ts" in env.files then
        id in s'.recs && s'.recs[id].status.Completed? && id !in s'.active
      else EndedFailed(s', id)
    ensures Step(After(EMPTY, dir, run), Event.Restart, dir, env).stopping == {}
  {
    RunKeeps(EMPTY, clock, dir, run);
  }

  /** The record holds what was asked for. */
  predicate AskedFor(r: Record, a: Airing) {
    r.channel == a.channel && r.program == a.program && r.name == a.title && r.start == a.start && r.end == a.stop
  }

  /** Schedule: refused exactly when the window is over, or empty, or no id can be drawn;
      else one record is added, captured if it is due and can be, and waiting if it lies
      ahead. */
  lemma ScheduleOutcome(clock: Instant, dir: string, run: seq<(Event, Env)>, env: Env, a: Airing, newId: Option<Id>)
    requires Runs(EMPTY, clock, dir, run) && ClockAfter(clock, run) <= env.now
    requires Enabled(After(EMPTY, dir, run), Event.Schedule(a, newId))
    ensures var s, s' := After(EMPTY, dir, run), Step(After(EMPTY, dir, run), Event.Schedule(a, newId), dir, env);
      if a.stop < env.now || a.stop <= a.start || newId.None? then s' == s
      else
        var id := newId.value;
        && s'.recs.Keys == s.recs.Keys + {id} && s'.timers == s.timers
        && (forall k :: k in s.recs ==> s'.recs[k] == s.recs[k])
        && AskedFor(s'.recs[id], a) && s'.recs[id].id == id && s'.recs[id].timer == ""
        && if env.now < a.start || env.now == a.stop then s'.recs[id].status.Scheduled? && s'.active == s.active
           else if a.channel in env.streams && id !in env.broken then
             Capturing(s', id, dir) && s'.active == s.active + {id}
           else EndedFailed(s', id) && s'.active == s.active
  {
    RunKeeps(EMPTY, clock, dir, run);
    var s := After(EMPTY, dir, run);
    if newId.Some? {
      assert [newId][0] == newId;
      EnlistKeeps(s, Asked(a, newId.value), ClockAfter(clock, run), dir, env);
    }
  }

  /** Series timers come and go by their own calls only, under the id drawn for them. */
  lemma TimersOutcome(clock: Instant, dir: string, run: seq<(Event, Env)>, env: Env, e: Event)
    requires Runs(EMPTY, clock, dir, run) && ClockAfter(clock, run) <= env.now
    requires Enabled(After(EMPTY, dir, run), e)
    ensures var s, s' := After(EMPTY, dir, run), Step(After(EMPTY, dir, run), e, dir, env);
      match e
      case ScheduleSeries(ask, newId, _, _, _) =>
        if ask.name == "" || newId.None? then s' == s
        else s'.timers == s.timers[newId.value := SeriesTimer(newId.value, ask.channel, ask.name, ask.anyChannel)]
      case CancelSeries(id) =>
        && (forall k :: k in s'.timers <==> k in s.timers && k != id)
        && (forall k :: k in s'.timers ==> s'.timers[k] == s.timers[k]) && s'.recs == s.recs && s'.active == s.active
      case _ => s'.timers == s.timers
  {
    RunKeeps(EMPTY, clock, dir, run);
    var s, c := After(EMPTY, dir, run), ClockAfter(clock, run);
    match e
    case Expand(listing, programs, ids) => ExpandKeeps(s, listing, programs, ids, c, dir, env);
    case ScheduleSeries(ask, newId, listing, programs, ids) =>
      if newId.Some? && ask.name != "" {
        var s1 := s.(timers := s.timers[newId.value := ask.(id := newId.value)]);
        ExpandKeeps(s1, listing, programs, ids, c, dir, env);
      }
    case _ =>
  }

  /** Closing tells every active recording to stop, and nothing else. */
  lemma CloseOutcome(clock: Instant, dir: string, run: seq<(Event, Env)>, env: Env)
    requires Runs(EMPTY, clock, dir, run)
    ensures var s, s' := After(EMPTY, dir, run), Step(After(EMPTY, dir, run), Event.Close, dir, env);
      s'.stopping == s.active && s'.recs == s.recs && s'.active == s.active
  {
    RunKeeps(EMPTY, clock, dir, run);
  }
}
