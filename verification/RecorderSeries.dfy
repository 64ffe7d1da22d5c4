/** Series expansion (internal/dvr/recorder.go, expandSeries) is sound, complete,
    idempotent, and never records a programme twice. */
module RecorderSeries {
  import opened Wrappers
  import opened L = RecorderLife
  import Titles

  /** Timer `st` asks for airing `a`: right channel, its title begins with the
      timer's words, it has an id, and its window can still be recorded. */
  ghost predicate Matches(st: SeriesTimer, a: Airing, now: Instant) {
    && (st.anyChannel || st.channel == "" || st.channel == a.channel)
    && Titles.Words(st.name) != [] && Titles.Words(st.name) <= Titles.Words(a.title)
    && a.program != ""
    && now <= a.stop && a.start < a.stop
  }

  ghost predicate MatchedIn(pairs: seq<Pair>, program: string, now: Instant) {
    exists i :: 0 <= i < |pairs| && pairs[i].1.program == program && Matches(pairs[i].0, pairs[i].1, now)
  }

  /** Some timer of the listing asks for an airing of this programme. */
  ghost predicate AskedFor(listing: seq<SeriesTimer>, airings: seq<Airing>, program: string, now: Instant) {
    exists st, a :: st in listing && a in airings && a.program == program && Matches(st, a, now)
  }

  /** NewID will not fail during this expansion. */
  ghost predicate Enough(ids: Ids, n: nat) { n <= |ids| && forall i :: 0 <= i < |ids| ==> ids[i].Some? }

  lemma WantedIffMatches(st: SeriesTimer, a: Airing, now: Instant)
    ensures Wanted(st, a, now) && ValidWindow(a.start, a.stop, now) <==> Matches(st, a, now)
  {
    Titles.MatchesIffWordPrefix(a.title, st.name);
  }

  lemma {:induction false} PairsLength(listing: seq<SeriesTimer>, airings: seq<Airing>)
    ensures |Pairs(listing, airings)| == |listing| * |airings|
  {
    if listing != [] {
      var n := |listing| - 1;
      PairsLength(listing[..n], airings);
      assert (n + 1) * |airings| == n * |airings| + |airings|;
    }
  }

  lemma {:induction false} PairsMembers(listing: seq<SeriesTimer>, airings: seq<Airing>, pair: Pair)
    ensures pair in Pairs(listing, airings) <==> pair.0 in listing && pair.1 in airings
  {
    if listing != [] {
      var n := |listing| - 1;
      PairsMembers(listing[..n], airings, pair);
      var row := Row(listing[n], airings);
      assert listing == listing[..n] + [listing[n]];
      if pair.0 == listing[n] && pair.1 in airings {
        var i :| 0 <= i < |airings| && airings[i] == pair.1;
        assert row[i] == pair;
      }
    }
  }

  lemma MatchedIffAskedFor(listing: seq<SeriesTimer>, airings: seq<Airing>, program: string, now: Instant)
    ensures MatchedIn(Pairs(listing, airings), program, now) <==> AskedFor(listing, airings, program, now)
  {
    var pairs := Pairs(listing, airings);
    if MatchedIn(pairs, program, now) {
      var i :| 0 <= i < |pairs| && pairs[i].1.program == program && Matches(pairs[i].0, pairs[i].1, now);
      PairsMembers(listing, airings, pairs[i]);
    }
    if AskedFor(listing, airings, program, now) {
      var st, a :| st in listing && a in airings && a.program == program && Matches(st, a, now);
      PairsMembers(listing, airings, (st, a));
    }
  }

  lemma MatchedSnoc(pairs: seq<Pair>, program: string, now: Instant)
    requires pairs != []
    ensures var n := |pairs| - 1;
      MatchedIn(pairs, program, now) <==>
        MatchedIn(pairs[..n], program, now)
        || (pairs[n].1.program == program && Matches(pairs[n].0, pairs[n].1, now))
  {
    var n := |pairs| - 1;
    if MatchedIn(pairs[..n], program, now) {
      var i :| 0 <= i < n && pairs[..n][i].1.program == program && Matches(pairs[..n][i].0, pairs[..n][i].1, now);
      assert pairs[i].1.program == program;
    }
    if MatchedIn(pairs, program, now) {
      var i :| 0 <= i < |pairs| && pairs[i].1.program == program && Matches(pairs[i].0, pairs[i].1, now);
      if i < n {
        assert pairs[..n][i] == pairs[i];
      }
    }
  }

  // -------------------------------------------------------- which are covered

  /** Only programmes asked for are added; all of them if NewID does not fail. */
  lemma {:induction false} PairsCover(p: Progress, pairs: seq<Pair>, dir: string, env: Env, program: string)
    ensures var p' := ExpandPairs(p, pairs, dir, env);
      && (program in p'.covered ==> program in p.covered || MatchedIn(pairs, program, env.now))
      && (program in p.covered ==> program in p'.covered)
      && (Enough(p.ids, |pairs|) && MatchedIn(pairs, program, env.now) ==> program in p'.covered)
      && (forall k: nat :: Enough(p.ids, |pairs| + k) ==> Enough(p'.ids, k))
  {
    if pairs != [] {
      var n := |pairs| - 1;
      var (st, a) := pairs[n];
      PairsCover(p, pairs[..n], dir, env, program);
      MatchedSnoc(pairs, program, env.now);
      WantedIffMatches(st, a, env.now);
      var mid := ExpandPairs(p, pairs[..n], dir, env);
      assert Enough(p.ids, |pairs[..n]| + 1) ==> Enough(mid.ids, 1);
      forall k: nat | Enough(p.ids, |pairs| + k) ensures Enough(ExpandOne(mid, st, a, dir, env).ids, k) {
        var m: nat := k + 1;
        assert Enough(p.ids, |pairs[..n]| + m);
        assert Enough(mid.ids, m);
      }
    }
  }

  /** An expansion's covered programmes grow by exactly those of the airings some
      timer asks for; were NewID to fail, by no others. */
  lemma ExpansionExact(s: State, listing: seq<SeriesTimer>, airings: seq<Airing>, ids: Ids, clock: Instant,
                       dir: string, env: Env, program: string)
    requires Inv(s, clock, dir) && clock <= env.now && FreshIds(ids, s.recs)
    ensures var s' := ExpandStep(s, listing, Some(airings), ids, dir, env).s;
      && (program in Covered(s'.recs) ==>
            program in Covered(s.recs) || AskedFor(listing, airings, program, env.now))
      && (Enough(ids, |listing| * |airings|) ==>
            (program in Covered(s'.recs) <==>
               program in Covered(s.recs) || AskedFor(listing, airings, program, env.now)))
  {
    ExpandKeeps(s, listing, Some(airings), ids, clock, dir, env);
    PairsLength(listing, airings);
    MatchedIffAskedFor(listing, airings, program, env.now);
    PairsCover(Progress(s, Covered(s.recs), ids), Pairs(listing, airings), dir, env, program);
  }

  // ------------------------------------------------------- what is recorded

  /** The record an expansion makes of airing `a` for timer `st`. */
  ghost predicate Born(r: Record, st: SeriesTimer, a: Airing, env: Env) {
    && Matches(st, a, env.now) && r.timer == st.id
    && r.channel == a.channel && r.program == a.program && r.name == a.title && r.start == a.start && r.end == a.stop
    && (r.status.Scheduled? <==> env.now < a.start || env.now == a.stop)
    && (r.status.Recording? <==> a.start <= env.now < a.stop && a.channel in env.streams && r.id !in env.broken)
    && !r.status.Completed? && !r.status.Cancelled?
  }

  ghost predicate BornIn(r: Record, pairs: seq<Pair>, env: Env) {
    exists i :: 0 <= i < |pairs| && Born(r, pairs[i].0, pairs[i].1, env)
  }

  /** Every new recording was asked for, of a programme not covered before, and
      no programme got two. */
  ghost predicate NewOnes(s: State, s': State, pairs: seq<Pair>, env: Env) {
    && (forall id :: id in s'.recs && id !in s.recs ==>
          BornIn(s'.recs[id], pairs, env) && s'.recs[id].program !in Covered(s.recs))
    && forall x, y ::
         (x in s'.recs && y in s'.recs && x !in s.recs && y !in s.recs && s'.recs[x].program == s'.recs[y].program)
         ==> x == y
  }

  lemma {:induction false} PairsRecord(s: State, p: Progress, pairs: seq<Pair>, dir: string, env: Env)
    requires ExpandInv(s, p, env, dir) && p.s == s
    ensures NewOnes(s, ExpandPairs(p, pairs, dir, env).s, pairs, env)
  {
    if pairs != [] {
      var n := |pairs| - 1;
      PairsRecord(s, p, pairs[..n], dir, env);
      ExpandPairsKeeps(s, p, pairs[..n], dir, env);
      var mid := ExpandPairs(p, pairs[..n], dir, env);
      assert forall i :: 0 <= i < n ==> pairs[..n][i] == pairs[i];
      assert forall r :: BornIn(r, pairs[..n], env) ==> BornIn(r, pairs, env);
      RecordOne(s, mid, pairs, dir, env);
    }
  }

  lemma BornOfAdopt(st: SeriesTimer, a: Airing, id: Id, dir: string, env: Env)
    requires Matches(st, a, env.now)
    ensures Born(Begun(Asked(a, id), false, dir, env).(timer := st.id), st, a, env)
  {
  }

  /** One more new recording, of a programme nothing covers. */
  lemma NewOnesMore(s: State, s': State, id: Id, r: Record, t: State, pairs: seq<Pair>, env: Env)
    requires NewOnes(s, s', pairs, env) && BornIn(r, pairs, env)
    requires r.program !in Covered(s.recs) && r.program !in Covered(s'.recs) && r.program != ""
    requires id !in s.recs && t.recs == s'.recs[id := r]
    ensures NewOnes(s, t, pairs, env)
  {
    forall x | x in s'.recs ensures s'.recs[x].program != r.program {
      assert s'.recs[x].program == "" || s'.recs[x].program in Covered(s'.recs);
    }
  }

  lemma CoveredGrows(s: State, p: Progress, env: Env, dir: string)
    requires ExpandInv(s, p, env, dir)
    ensures Covered(s.recs) <= p.covered
  {
    forall x | x in s.recs && s.recs[x].program != "" ensures s.recs[x].program in Covered(p.s.recs) {
      assert p.s.recs[x] == s.recs[x];
    }
  }

  lemma RecordOne(s: State, mid: Progress, pairs: seq<Pair>, dir: string, env: Env)
    requires pairs != [] && ExpandInv(s, mid, env, dir) && NewOnes(s, mid.s, pairs, env)
    ensures var n := |pairs| - 1;
      NewOnes(s, ExpandOne(mid, pairs[n].0, pairs[n].1, dir, env).s, pairs, env)
  {
    var n := |pairs| - 1;
    var (st, a) := pairs[n];
    var p' := ExpandOne(mid, st, a, dir, env);
    WantedIffMatches(st, a, env.now);
    if p'.s != mid.s {
      var id := mid.ids[0].value;
      var r := Begun(Asked(a, id), false, dir, env).(timer := st.id);
      AdoptKeeps(mid.s, st, a, id, env.now, dir, env);
      BornOfAdopt(st, a, id, dir, env);
      assert BornIn(r, pairs, env);
      CoveredGrows(s, mid, env, dir);
      NewOnesMore(s, mid.s, id, r, p'.s, pairs, env);
    }
  }

  /** Each new recording of an expansion is an airing a listed timer asked for, with
      that airing's particulars, of a programme no recording had before - cancelled
      and failed ones included; no programme gets two; the old ones are untouched. */
  lemma ExpansionSound(s: State, listing: seq<SeriesTimer>, airings: seq<Airing>, ids: Ids, clock: Instant,
                       dir: string, env: Env, id: Id)
    requires Inv(s, clock, dir) && clock <= env.now && FreshIds(ids, s.recs)
    requires id in ExpandStep(s, listing, Some(airings), ids, dir, env).s.recs
    ensures var s' := ExpandStep(s, listing, Some(airings), ids, dir, env).s;
      if id in s.recs then s'.recs[id] == s.recs[id]
      else
        && s'.recs[id].program !in Covered(s.recs)
        && (exists st, a :: st in listing && a in airings && Born(s'.recs[id], st, a, env))
        && forall y :: y in s'.recs && y !in s.recs && s'.recs[y].program == s'.recs[id].program ==> y == id
  {
    ExpandKeeps(s, listing, Some(airings), ids, clock, dir, env);
    var p := Progress(s, Covered(s.recs), ids);
    var pairs := Pairs(listing, airings);
    PairsRecord(s, p, pairs, dir, env);
    if id !in s.recs {
      var r := ExpandPairs(p, pairs, dir, env).s.recs[id];
      assert BornIn(r, pairs, env);
      var i :| 0 <= i < |pairs| && Born(r, pairs[i].0, pairs[i].1, env);
      PairsMembers(listing, airings, pairs[i]);
    }
  }

  // ------------------------------------------------------------- doing it again

  lemma {:induction false} NothingLeft(p: Progress, pairs: seq<Pair>, dir: string, env: Env)
    requires forall i :: 0 <= i < |pairs| && Matches(pairs[i].0, pairs[i].1, env.now) ==> pairs[i].1.program in p.covered
    ensures ExpandPairs(p, pairs, dir, env) == p
  {
    if pairs != [] {
      var n := |pairs| - 1;
      NothingLeft(p, pairs[..n], dir, env);
      WantedIffMatches(pairs[n].0, pairs[n].1, env.now);
    }
  }

  /** Expanding the same timers and airings again, then or later and in whatever
      order the timers are listed, changes nothing. */
  lemma ExpansionIdempotent(s: State, listing: seq<SeriesTimer>, again: seq<SeriesTimer>, airings: seq<Airing>,
                            ids: Ids, more: Ids, clock: Instant, dir: string, env: Env, later: Env)
    requires Inv(s, clock, dir) && clock <= env.now <= later.now && FreshIds(ids, s.recs)
    requires Lists(listing, s.timers) && Lists(again, s.timers)
    requires Enough(ids, |listing| * |airings|)
    ensures var s' := ExpandStep(s, listing, Some(airings), ids, dir, env).s;
      ExpandStep(s', again, Some(airings), more, dir, later).s == s'
  {
    var s' := ExpandStep(s, listing, Some(airings), ids, dir, env).s;
    var pairs := Pairs(again, airings);
    forall i | 0 <= i < |pairs| && Matches(pairs[i].0, pairs[i].1, later.now)
      ensures pairs[i].1.program in Covered(s'.recs)
    {
      PairsMembers(again, airings, pairs[i]);
      assert pairs[i].0 in listing;
      assert Matches(pairs[i].0, pairs[i].1, env.now);
      ExpansionExact(s, listing, airings, ids, clock, dir, env, pairs[i].1.program);
    }
    NothingLeft(Progress(s', Covered(s'.recs), more), pairs, dir, later);
  }

  // -------------------------------------------------------------- over whole runs

  /** Recordings made for a series carry its timer's id. */
  predicate OfSeries(r: Record) { r.timer != "" }

  predicate SameSeries(x: Record, y: Record) { OfSeries(x) && OfSeries(y) && x.program == y.program }

  /** No two recordings made for a series are of the same programme. */
  ghost predicate SeriesOnce(s: State) {
    && (forall x :: x in s.recs && OfSeries(s.recs[x]) ==> s.recs[x].program != "")
    && forall x, y :: x in s.recs && y in s.recs && SameSeries(s.recs[x], s.recs[y]) ==> x == y
  }

  /** New series recordings are of programmes not covered before, one each. */
  ghost predicate SeriesNew(s: State, s': State) {
    && (forall x :: x in s'.recs && x !in s.recs && OfSeries(s'.recs[x]) ==>
          s'.recs[x].program != "" && s'.recs[x].program !in Covered(s.recs))
    && forall x, y ::
         (x in s'.recs && y in s'.recs && x !in s.recs && y !in s.recs && SameSeries(s'.recs[x], s'.recs[y]))
         ==> x == y
  }

  lemma NewIsSeriesNew(s: State, s': State, pairs: seq<Pair>, env: Env)
    requires NewOnes(s, s', pairs, env)
    ensures SeriesNew(s, s')
  {
    forall r | BornIn(r, pairs, env) ensures r.program != "" {
    }
  }

  lemma ExpandNew(s: State, listing: seq<SeriesTimer>, programs: Option<seq<Airing>>, ids: Ids, clock: Instant,
                  dir: string, env: Env)
    requires Inv(s, clock, dir) && clock <= env.now && FreshIds(ids, s.recs)
    ensures SeriesNew(s, ExpandStep(s, listing, programs, ids, dir, env).s)
  {
    if programs.Some? {
      var p := Progress(s, Covered(s.recs), ids);
      var pairs := Pairs(listing, programs.value);
      assert ExpandInv(s, p, env, dir);
      PairsRecord(s, p, pairs, dir, env);
      NewIsSeriesNew(s, ExpandPairs(p, pairs, dir, env).s, pairs, env);
    }
  }

  lemma StepNew(s: State, e: Event, clock: Instant, dir: string, env: Env)
    requires Inv(s, clock, dir) && clock <= env.now && Enabled(s, e)
    ensures SeriesNew(s, Step(s, e, dir, env))
  {
    match e
    case Expand(listing, programs, ids) => ExpandNew(s, listing, programs, ids, clock, dir, env);
    case ScheduleSeries(ask, newId, listing, programs, ids) =>
      if newId.Some? && ask.name != "" {
        var s1 := s.(timers := s.timers[newId.value := ask.(id := newId.value)]);
        ExpandNew(s1, listing, programs, ids, clock, dir, env);
      }
    case _ =>
  }

  lemma CoveredStays(s: State, s': State, program: string)
    requires AllMoved(s, s') && program in Covered(s.recs)
    ensures program in Covered(s'.recs)
  {
    var id :| id in s.recs && s.recs[id].program != "" && s.recs[id].program == program;
    assert id in s'.recs && s'.recs[id].program == program;
  }

  /** Over every run: once any recording of a programme exists, whatever became of
      it, no series timer ever records that programme again. */
  lemma {:induction false} NeverRecreated(s: State, clock: Instant, dir: string,
                                                 run: seq<(Event, Env)>, id: Id, program: string)
    requires Inv(s, clock, dir) && Runs(s, clock, dir, run) && program in Covered(s.recs)
    requires var s' := After(s, dir, run); id in s'.recs && s'.recs[id].program == program && OfSeries(s'.recs[id])
    ensures id in s.recs && s.recs[id].program == program
    decreases |run|
  {
    if run != [] {
      var (e, env) := run[0];
      var s1 := Step(s, e, dir, env);
      StepKeeps(s, e, clock, dir, env);
      CoveredStays(s, s1, program);
      NeverRecreated(s1, env.now, dir, run[1..], id, program);
      StatusForward(s1, env.now, dir, run[1..], id);
      StepNew(s, e, clock, dir, env);
    }
  }

  lemma StepOnce(s: State, s': State)
    requires SeriesOnce(s) && AllMoved(s, s') && SeriesNew(s, s')
    ensures SeriesOnce(s')
  {
    forall x | x in s.recs && s.recs[x].program != "" ensures s.recs[x].program in Covered(s.recs) {
    }
  }

  lemma {:induction false} OnceKept(s: State, clock: Instant, dir: string, run: seq<(Event, Env)>)
    requires Inv(s, clock, dir) && Runs(s, clock, dir, run) && SeriesOnce(s)
    ensures SeriesOnce(After(s, dir, run))
    decreases |run|
  {
    if run != [] {
      var (e, env) := run[0];
      StepKeeps(s, e, clock, dir, env);
      StepNew(s, e, clock, dir, env);
      StepOnce(s, Step(s, e, dir, env));
      OnceKept(Step(s, e, dir, env), env.now, dir, run[1..]);
    }
  }

  /** In every reachable state a programme has at most one series recording. */
  lemma OneSeriesRecordingPerProgram(clock: Instant, dir: string, run: seq<(Event, Env)>, x: Id, y: Id)
    requires Runs(EMPTY, clock, dir, run)
    requires var s := After(EMPTY, dir, run);
      && x in s.recs && y in s.recs && OfSeries(s.recs[x]) && OfSeries(s.recs[y])
      && s.recs[x].program == s.recs[y].program
    ensures x == y
  {
    OnceKept(EMPTY, clock, dir, run);
  }
}
