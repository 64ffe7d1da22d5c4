/** The DVR recorder (internal/dvr/recorder.go) with each call, process exit and
    restart one step at one instant: the life cycle of recordings. */
module RecorderLife {
  import opened Wrappers
  import Titles

  type Id = string
  type Instant = int

  datatype Status = Scheduled | Recording | Completed | Failed | Cancelled

  datatype Record = Record(id: Id, channel: string, program: string, name: string, start: Instant, end: Instant,
                           status: Status, path: string, timer: Id)

  datatype SeriesTimer = SeriesTimer(id: Id, channel: string, name: string, anyChannel: bool)

  datatype Airing = Airing(program: string, channel: string, title: string, start: Instant, stop: Instant)

  /** What a call sees of the world: the clock, the channels with a stream, the
      recordings ffmpeg would fail to start for, the paths with a non-empty file. */
  datatype Env = Env(now: Instant, streams: set<string>, broken: set<Id>, files: set<string>)

  /** `stopping` holds the active recordings whose cancel function has been called. */
  datatype State = State(recs: map<Id, Record>, timers: map<Id, SeriesTimer>, active: set<Id>, stopping: set<Id>)

  /** The outcomes of the coming calls of NewID; past the end it fails. */
  type Ids = seq<Option<Id>>

  function NextId(ids: Ids): Option<Id> { if ids == [] then None else ids[0] }

  function RestIds(ids: Ids): Ids { if ids == [] then [] else ids[1..] }

  // --------------------------------------------------------- one recording's steps

  function PathOf(dir: string, id: Id): string { dir + "/" + id + ".ts" }

  predicate Due(r: Record, now: Instant) { r.start <= now < r.end }

  predicate Terminal(st: Status) { st.Completed? || st.Failed? || st.Cancelled? }

  /** maybeStart, past its guards. */
  function Started(r: Record, dir: string, env: Env): Record {
    if r.channel !in env.streams then r.(status := Failed)
    else r.(path := PathOf(dir, r.id), status := if r.id in env.broken then Failed else Recording)
  }

  function Begun(r: Record, isActive: bool, dir: string, env: Env): Record {
    if Due(r, env.now) && !isActive then Started(r, dir, env) else r
  }

  /** maybeStart of a stored record. */
  function MaybeStartStep(s: State, r: Record, dir: string, env: Env): State {
    if !Due(r, env.now) || r.id in s.active then s
    else
      var r' := Started(r, dir, env);
      s.(recs := if r.id in s.recs then s.recs[r.id := r'] else s.recs,
         active := if r'.status.Recording? then s.active + {r.id} else s.active)
  }

  function Finalized(r: Record, env: Env): Record {
    if r.status.Cancelled? then r
    else r.(status := if r.path in env.files then Completed else Failed)
  }

  function FinalizeStep(s: State, id: Id, env: Env): State {
    s.(active := s.active - {id}, stopping := s.stopping - {id},
       recs := if id in s.recs then s.recs[id := Finalized(s.recs[id], env)] else s.recs)
  }

  // ------------------------------------------------------------- the operations

  predicate ValidWindow(start: Instant, end: Instant, now: Instant) { now <= end && start < end }

  function Asked(a: Airing, id: Id): Record {
    Record(id, a.channel, a.program, a.title, a.start, a.stop, Scheduled, "", "")
  }

  /** CreateRecording followed by maybeStart. */
  function Enlist(s: State, r: Record, dir: string, env: Env): State {
    MaybeStartStep(s.(recs := s.recs[r.id := r]), r, dir, env)
  }

  /** Schedule for the channel, programme, name and window of `a`. */
  function ScheduleStep(s: State, a: Airing, id: Option<Id>, dir: string, env: Env): State {
    if !ValidWindow(a.start, a.stop, env.now) || id.None? then s else Enlist(s, Asked(a, id.value), dir, env)
  }

  function CancelStep(s: State, id: Id): State {
    if id !in s.recs then s
    else if id in s.active then s.(stopping := s.stopping + {id})
    else if s.recs[id].status.Scheduled? then s.(recs := s.recs[id := s.recs[id].(status := Cancelled)])
    else s
  }

  function TickRecord(r: Record, isActive: bool, dir: string, env: Env): Record {
    if !r.status.Scheduled? then r
    else if r.end <= env.now then r.(status := Failed)
    else Begun(r, isActive, dir, env)
  }

  function TickStep(s: State, dir: string, env: Env): State {
    var recs := map id | id in s.recs :: TickRecord(s.recs[id], id in s.active, dir, env);
    s.(recs := recs,
       active := s.active + set id | id in recs && s.recs[id].status.Scheduled? && recs[id].status.Recording?)
  }

  function ResumeRecord(r: Record, dir: string, env: Env): Record {
    if !r.status.Recording? then r
    else if env.now < r.end then Begun(r, false, dir, env)
    else Finalized(r, env)
  }

  /** A new process over the stored recordings: nothing is active, then resume. */
  function RestartStep(s: State, dir: string, env: Env): State {
    var recs := map id | id in s.recs :: ResumeRecord(s.recs[id], dir, env);
    s.(recs := recs, stopping := {},
       active := set id | id in recs && Due(s.recs[id], env.now) && recs[id].status.Recording?)
  }

  // ------------------------------------------------------------ series expansion

  /** The guards of expandSeries' inner loop but for the programme being covered. */
  predicate Wanted(st: SeriesTimer, a: Airing, now: Instant) {
    && now <= a.stop
    && a.program != ""
    && (st.anyChannel || st.channel == "" || a.channel == st.channel)
    && Titles.TitleMatches(Titles.Join(Titles.Words(a.title)), Titles.Join(Titles.Words(st.name)))
  }

  /** Where an expansion has got to: `covered` is its `recorded` map. */
  datatype Progress = Progress(s: State, covered: set<string>, ids: Ids)

  /** scheduleFromAiring with a valid window and a new id. */
  function Adopt(s: State, st: SeriesTimer, a: Airing, id: Id, dir: string, env: Env): State {
    var s' := Enlist(s, Asked(a, id), dir, env);
    s'.(recs := s'.recs[id := s'.recs[id].(timer := st.id)])
  }

  function ExpandOne(p: Progress, st: SeriesTimer, a: Airing, dir: string, env: Env): Progress {
    if !Wanted(st, a, env.now) || a.program in p.covered || !ValidWindow(a.start, a.stop, env.now) then p
    else if NextId(p.ids).None? then p.(ids := RestIds(p.ids))
    else Progress(Adopt(p.s, st, a, p.ids[0].value, dir, env), p.covered + {a.program}, p.ids[1..])
  }

  type Pair = (SeriesTimer, Airing)

  function ExpandPairs(p: Progress, pairs: seq<Pair>, dir: string, env: Env): Progress {
    if pairs == [] then p
    else
      var n := |pairs| - 1;
      ExpandOne(ExpandPairs(p, pairs[..n], dir, env), pairs[n].0, pairs[n].1, dir, env)
  }

  function Row(st: SeriesTimer, airings: seq<Airing>): seq<Pair> {
    seq(|airings|, i requires 0 <= i < |airings| => (st, airings[i]))
  }

  /** Every timer of the listing with every airing, timer by timer. */
  function Pairs(timers: seq<SeriesTimer>, airings: seq<Airing>): seq<Pair> {
    if timers == [] then [] else Pairs(timers[..|timers| - 1], airings) + Row(timers[|timers| - 1], airings)
  }

  function Covered(recs: map<Id, Record>): set<string> {
    set id | id in recs && recs[id].program != "" :: recs[id].program
  }

  /** expandSeries over the guide's airings (None when there is no guide). */
  function ExpandStep(s: State, listing: seq<SeriesTimer>, programs: Option<seq<Airing>>, ids: Ids, dir: string,
                      env: Env): Progress
  {
    var p := Progress(s, Covered(s.recs), ids);
    if programs.None? then p else ExpandPairs(p, Pairs(listing, programs.value), dir, env)
  }

  /** ScheduleSeries with the name, channel and rule of `ask`. */
  function ScheduleSeriesStep(s: State, ask: SeriesTimer, newId: Option<Id>, listing: seq<SeriesTimer>,
                          programs: Option<seq<Airing>>, ids: Ids, dir: string, env: Env): State
  {
    if ask.name == "" || newId.None? then s
    else
      ExpandStep(s.(timers := s.timers[newId.value := ask.(id := newId.value)]), listing, programs, ids, dir, env).s
  }

  // -------------------------------------------------------------------- the runs

  datatype Event =
    | Schedule(a: Airing, newId: Option<Id>)
    | Cancel(id: Id)
    | Tick
    | Expand(listing: seq<SeriesTimer>, programs: Option<seq<Airing>>, ids: Ids)
    | ScheduleSeries(ask: SeriesTimer, newId: Option<Id>, listing: seq<SeriesTimer>,
                     programs: Option<seq<Airing>>, ids: Ids)
    | CancelSeries(id: Id)
    | Exit(id: Id)
    | Restart
    | Close

  function Step(s: State, e: Event, dir: string, env: Env): State {
    match e
    case Schedule(a, newId) => ScheduleStep(s, a, newId, dir, env)
    case Cancel(id) => CancelStep(s, id)
    case Tick => TickStep(s, dir, env)
    case Expand(listing, programs, ids) => ExpandStep(s, listing, programs, ids, dir, env).s
    case ScheduleSeries(ask, newId, listing, programs, ids) =>
      ScheduleSeriesStep(s, ask, newId, listing, programs, ids, dir, env)
    case CancelSeries(id) => s.(timers := s.timers - {id})
    case Exit(id) => FinalizeStep(s, id, env)
    case Restart => RestartStep(s, dir, env)
    case Close => s.(stopping := s.stopping + s.active)
  }

  /** ListSeriesTimers: every timer once, in no particular order. */
  ghost predicate Lists(listing: seq<SeriesTimer>, timers: map<Id, SeriesTimer>) {
    && (forall i :: 0 <= i < |listing| ==> listing[i].id in timers && timers[listing[i].id] == listing[i])
    && (forall id :: id in timers ==> timers[id] in listing)
    && forall i, j :: 0 <= i < j < |listing| ==> listing[i].id != listing[j].id
  }

  /** NewID's results are non-empty, new to the store and never repeat. */
  ghost predicate FreshIds(ids: Ids, recs: map<Id, Record>) {
    && (forall i :: 0 <= i < |ids| && ids[i].Some? ==> ids[i].value != "" && ids[i].value !in recs)
    && forall i, j :: 0 <= i < j < |ids| && ids[i].Some? ==> ids[i] != ids[j]
  }

  ghost predicate Enabled(s: State, e: Event) {
    match e
    case Schedule(_, newId) => FreshIds([newId], s.recs)
    case Expand(listing, _, ids) => Lists(listing, s.timers) && FreshIds(ids, s.recs)
    case ScheduleSeries(ask, newId, listing, _, ids) =>
      newId.Some? ==>
        && newId.value != "" && newId.value !in s.timers && FreshIds(ids, s.recs)
        && Lists(listing, s.timers[newId.value := ask.(id := newId.value)])
    case Exit(id) => id in s.active
    case _ => true
  }

  /** Events with what they see of the world; the clock never runs back. */
  ghost predicate Runs(s: State, clock: Instant, dir: string, run: seq<(Event, Env)>)
    decreases |run|
  {
    run == [] ||
    var (e, env) := run[0];
    clock <= env.now && Enabled(s, e) && Runs(Step(s, e, dir, env), env.now, dir, run[1..])
  }

  ghost function After(s: State, dir: string, run: seq<(Event, Env)>): State
    decreases |run|
  {
    if run == [] then s else After(Step(s, run[0].0, dir, run[0].1), dir, run[1..])
  }

  const EMPTY := State(map[], map[], {}, {})

  // -------------------------------------------------------------- the invariant

  predicate RecordOk(r: Record, id: Id, clock: Instant, dir: string) {
    && r.id == id
    && (r.status.Recording? ==> r.start <= clock)
    && (r.status.Recording? || r.status.Completed? ==> r.path == PathOf(dir, id))
  }

  ghost predicate StoredOk(s: State, clock: Instant, dir: string) {
    forall id :: id in s.recs ==> RecordOk(s.recs[id], id, clock, dir)
  }

  ghost predicate ActiveOk(s: State) {
    && (forall id :: id in s.active <==> id in s.recs && s.recs[id].status.Recording?)
    && s.stopping <= s.active
  }

  ghost predicate Inv(s: State, clock: Instant, dir: string) { StoredOk(s, clock, dir) && ActiveOk(s) }

  /** The moves of the life cycle. */
  predicate MayBecome(st: Status, st': Status) {
    || st' == st
    || (st.Scheduled? && (st'.Recording? || st'.Failed? || st'.Cancelled?))
    || (st.Recording? && (st'.Completed? || st'.Failed?))
  }

  /** `r'` is a later version of `r`: what was asked for is unchanged. */
  predicate Moved(r: Record, r': Record) {
    && MayBecome(r.status, r'.status)
    && r' == r.(status := r'.status, path := r'.path)
    && (Terminal(r.status) ==> r' == r)
  }

  /** Every recording is still there, each at most moved on. */
  ghost predicate AllMoved(s: State, s': State) {
    forall id :: id in s.recs ==> id in s'.recs && Moved(s.recs[id], s'.recs[id])
  }

  // ------------------------------------------------------ one event keeps it

  lemma EnlistKeeps(s: State, r: Record, clock: Instant, dir: string, env: Env)
    requires Inv(s, clock, dir) && clock <= env.now && r.id !in s.recs && r.status.Scheduled?
    ensures var s' := Enlist(s, r, dir, env);
      && Inv(s', env.now, dir) && s'.timers == s.timers
      && s'.recs == s.recs[r.id := Begun(r, false, dir, env)]
  {
  }

  lemma AdoptKeeps(s: State, st: SeriesTimer, a: Airing, id: Id, clock: Instant, dir: string, env: Env)
    requires Inv(s, clock, dir) && clock <= env.now && id !in s.recs
    ensures var s' := Adopt(s, st, a, id, dir, env);
      && Inv(s', env.now, dir) && s'.timers == s.timers
      && s'.recs == s.recs[id := Begun(Asked(a, id), false, dir, env).(timer := st.id)]
  {
    EnlistKeeps(s, Asked(a, id), clock, dir, env);
  }

  /** What an expansion keeps, however far it has got: the invariant, the timers
      and the old recordings; its ids stay fresh and its `recorded` map exact. */
  ghost predicate ExpandInv(s: State, p: Progress, env: Env, dir: string) {
    && Inv(p.s, env.now, dir) && p.s.timers == s.timers
    && (forall id :: id in s.recs ==> id in p.s.recs && p.s.recs[id] == s.recs[id])
    && FreshIds(p.ids, p.s.recs) && p.covered == Covered(p.s.recs)
  }

  lemma ExpandOneKeeps(s: State, p: Progress, st: SeriesTimer, a: Airing, dir: string, env: Env)
    requires ExpandInv(s, p, env, dir)
    ensures ExpandInv(s, ExpandOne(p, st, a, dir, env), env, dir)
  {
    var p' := ExpandOne(p, st, a, dir, env);
    var next := RestIds(p.ids);
    assert forall i :: 0 <= i < |next| ==> next[i] == p.ids[i + 1];
    if p'.s != p.s {
      var id := p.ids[0].value;
      AdoptKeeps(p.s, st, a, id, env.now, dir, env);
      CoveredAdds(p.s.recs, id, p'.s.recs[id]);
      forall i | 0 <= i < |next| && next[i].Some? ensures next[i].value !in p'.s.recs {
        assert p.ids[0] != p.ids[i + 1];
      }
    }
  }

  lemma CoveredAdds(recs: map<Id, Record>, id: Id, r: Record)
    requires id !in recs && r.program != ""
    ensures Covered(recs[id := r]) == Covered(recs) + {r.program}
  {
    var recs' := recs[id := r];
    forall x | x in Covered(recs) ensures x in Covered(recs') {
      var j :| j in recs && recs[j].program != "" && recs[j].program == x;
      assert j in recs' && recs'[j] == recs[j];
    }
    assert id in recs' && recs'[id].program != "";
  }

  lemma {:induction false} ExpandPairsKeeps(s: State, p: Progress, pairs: seq<Pair>, dir: string, env: Env)
    requires ExpandInv(s, p, env, dir)
    ensures ExpandInv(s, ExpandPairs(p, pairs, dir, env), env, dir)
  {
    if pairs != [] {
      var n := |pairs| - 1;
      ExpandPairsKeeps(s, p, pairs[..n], dir, env);
      ExpandOneKeeps(s, ExpandPairs(p, pairs[..n], dir, env), pairs[n].0, pairs[n].1, dir, env);
    }
  }

  lemma ExpandKeeps(s: State, listing: seq<SeriesTimer>, programs: Option<seq<Airing>>, ids: Ids, clock: Instant,
                    dir: string, env: Env)
    requires Inv(s, clock, dir) && clock <= env.now && FreshIds(ids, s.recs)
    ensures ExpandInv(s, ExpandStep(s, listing, programs, ids, dir, env), env, dir)
  {
    var p := Progress(s, Covered(s.recs), ids);
    assert ExpandInv(s, p, env, dir);
    if programs.Some? {
      ExpandPairsKeeps(s, p, Pairs(listing, programs.value), dir, env);
    }
  }

  lemma TickKeeps(s: State, clock: Instant, dir: string, env: Env)
    requires Inv(s, clock, dir) && clock <= env.now
    ensures Inv(TickStep(s, dir, env), env.now, dir) && AllMoved(s, TickStep(s, dir, env))
  {
  }

  /** resume needs the stored records only: after a crash `active` may be anything. */
  lemma RestartRestores(s: State, clock: Instant, dir: string, env: Env)
    requires StoredOk(s, clock, dir) && clock <= env.now
    ensures Inv(RestartStep(s, dir, env), env.now, dir) && AllMoved(s, RestartStep(s, dir, env))
  {
  }

  lemma ScheduleKeeps(s: State, a: Airing, newId: Option<Id>, clock: Instant, dir: string, env: Env)
    requires Inv(s, clock, dir) && clock <= env.now && FreshIds([newId], s.recs)
    ensures Inv(ScheduleStep(s, a, newId, dir, env), env.now, dir) && AllMoved(s, ScheduleStep(s, a, newId, dir, env))
  {
    if newId.Some? {
      assert [newId][0] == newId;
      EnlistKeeps(s, Asked(a, newId.value), clock, dir, env);
    }
  }

  lemma CancelKeeps(s: State, id: Id, clock: Instant, dir: string, now: Instant)
    requires Inv(s, clock, dir) && clock <= now
    ensures Inv(CancelStep(s, id), now, dir) && AllMoved(s, CancelStep(s, id))
  {
  }

  lemma ExitKeeps(s: State, id: Id, clock: Instant, dir: string, env: Env)
    requires Inv(s, clock, dir) && clock <= env.now && id in s.active
    ensures Inv(FinalizeStep(s, id, env), env.now, dir) && AllMoved(s, FinalizeStep(s, id, env))
  {
  }

  lemma StepKeeps(s: State, e: Event, clock: Instant, dir: string, env: Env)
    requires Inv(s, clock, dir) && clock <= env.now && Enabled(s, e)
    ensures Inv(Step(s, e, dir, env), env.now, dir) && AllMoved(s, Step(s, e, dir, env))
  {
    match e
    case Schedule(a, newId) => ScheduleKeeps(s, a, newId, clock, dir, env);
    case Cancel(id) => CancelKeeps(s, id, clock, dir, env.now);
    case Exit(id) => ExitKeeps(s, id, clock, dir, env);
    case Tick => TickKeeps(s, clock, dir, env);
    case Restart => RestartRestores(s, clock, dir, env);
    case Expand(listing, programs, ids) => ExpandKeeps(s, listing, programs, ids, clock, dir, env);
    case ScheduleSeries(ask, newId, listing, programs, ids) =>
      if newId.Some? && ask.name != "" {
        var s1 := s.(timers := s.timers[newId.value := ask.(id := newId.value)]);
        ExpandKeeps(s1, listing, programs, ids, clock, dir, env);
      }
    case _ =>
  }

  // ------------------------------------------------------------- the life cycle

  ghost function ClockAfter(clock: Instant, run: seq<(Event, Env)>): Instant {
    if run == [] then clock else run[|run| - 1].1.now
  }

  lemma {:induction false} RunKeeps(s: State, clock: Instant, dir: string, run: seq<(Event, Env)>)
    requires Inv(s, clock, dir) && Runs(s, clock, dir, run)
    ensures Inv(After(s, dir, run), ClockAfter(clock, run), dir)
    decreases |run|
  {
    if run != [] {
      var (e, env) := run[0];
      StepKeeps(s, e, clock, dir, env);
      RunKeeps(Step(s, e, dir, env), env.now, dir, run[1..]);
    }
  }

  /** In every reachable state the recordings stored as Recording are exactly the
      active ones, and those and the completed ones have the file dir/ID.ts. */
  lemma RecordingIffActive(clock: Instant, dir: string, run: seq<(Event, Env)>, id: Id)
    requires Runs(EMPTY, clock, dir, run)
    ensures var s := After(EMPTY, dir, run);
      && (id in s.active <==> id in s.recs && s.recs[id].status.Recording?)
      && (id in s.recs && (s.recs[id].status.Recording? || s.recs[id].status.Completed?) ==>
            s.recs[id].path == dir + "/" + id + ".ts")
  {
    RunKeeps(EMPTY, clock, dir, run);
  }

  /** Along every run each recording survives and moves only forward through the
      life cycle; one that has ended is never touched again. */
  lemma {:induction false} StatusForward(s: State, clock: Instant, dir: string, run: seq<(Event, Env)>, id: Id)
    requires Inv(s, clock, dir) && Runs(s, clock, dir, run) && id in s.recs
    ensures var s' := After(s, dir, run);
      && id in s'.recs
      && s'.recs[id] == s.recs[id].(status := s'.recs[id].status, path := s'.recs[id].path)
      && (Terminal(s.recs[id].status) ==> s'.recs[id] == s.recs[id])
      && (s.recs[id].status.Recording? ==> !s'.recs[id].status.Scheduled? && !s'.recs[id].status.Cancelled?)
    decreases |run|
  {
    if run != [] {
      var (e, env) := run[0];
      StepKeeps(s, e, clock, dir, env);
      StatusForward(Step(s, e, dir, env), env.now, dir, run[1..], id);
    }
  }

  /** After a tick nothing scheduled is due or past: all of it lies ahead. */
  lemma TickLeavesNoneDue(clock: Instant, dir: string, run: seq<(Event, Env)>, env: Env, id: Id)
    requires Runs(EMPTY, clock, dir, run) && ClockAfter(clock, run) <= env.now
    requires var s := TickStep(After(EMPTY, dir, run), dir, env); id in s.recs && s.recs[id].status.Scheduled?
    ensures env.now < TickStep(After(EMPTY, dir, run), dir, env).recs[id].start
  {
    RunKeeps(EMPTY, clock, dir, run);
  }

  /** A cancelled call is not lost: a scheduled recording becomes Cancelled, one in
      progress is told to stop, one that has ended is left alone. */
  lemma CancelTakes(clock: Instant, dir: string, run: seq<(Event, Env)>, id: Id)
    requires Runs(EMPTY, clock, dir, run) && id in After(EMPTY, dir, run).recs
    ensures var s, s' := After(EMPTY, dir, run), CancelStep(After(EMPTY, dir, run), id);
      match s.recs[id].status
      case Scheduled => s'.recs[id].status.Cancelled? && id !in s'.active
      case Recording => id in s'.stopping && s'.recs == s.recs
      case _ => s' == s
  {
    RunKeeps(EMPTY, clock, dir, run);
  }
}
