/** The recorder itself (internal/dvr/recorder.go): the methods that change the
    stored recordings and the `active` map, each tied to its step. */
module Dvr {
  import opened Wrappers
  import opened L = RecorderLife
  import Titles

  class Recorder {
    const dir: string
    var recs: map<Id, Record>
    var timers: map<Id, SeriesTimer>
    var active: set<Id>
    var stopping: set<Id>
    var ids: Ids            // what the coming calls of NewID return

    function View(): State
      reads this
    {
      State(recs, timers, active, stopping)
    }

    /** Recordings are stored under their own id. */
    ghost predicate Valid()
      reads this
    {
      forall id :: id in recs ==> recs[id].id == id
    }

    constructor (dir: string, ids: Ids)
      ensures Valid() && View() == EMPTY && this.dir == dir && this.ids == ids
    {
      this.dir, this.ids := dir, ids;
      recs, timers, active, stopping := map[], map[], {}, {};
    }

    method NewID() returns (id: Option<Id>)
      modifies this`ids
      ensures id == NextId(old(ids)) && ids == RestIds(old(ids))
    {
      if ids == [] {
        id := None;
      } else {
        id, ids := ids[0], ids[1..];
      }
    }

    method UpdateRecording(rec: Record)
      requires Valid()
      modifies this`recs
      ensures Valid() && recs == if rec.id in old(recs) then old(recs)[rec.id := rec] else old(recs)
    {
      if rec.id in recs {
        recs := recs[rec.id := rec];
      }
    }

    /** A listing of the store's keys, in no particular order. */
    ghost predicate Keys(order: seq<Id>)
      reads this
    {
      && (forall i :: 0 <= i < |order| ==> order[i] in recs)
      && (forall id :: id in recs ==> id in order)
      && forall i, j :: 0 <= i < j < |order| ==> order[i] != order[j]
    }

    /** filter: copies of the recordings of one status. */
    method Filter(order: seq<Id>, st: Status) returns (list: seq<Record>)
      requires Valid() && Keys(order)
      ensures forall j :: 0 <= j < |list| ==> list[j].status == st && list[j].id in recs && recs[list[j].id] == list[j]
      ensures forall id :: id in recs && recs[id].status == st ==> recs[id] in list
      ensures forall i, j :: 0 <= i < j < |list| ==> list[i].id != list[j].id
    {
      list := [];
      for k := 0 to |order|
        invariant forall j :: 0 <= j < |list| ==>
          list[j].status == st && list[j].id in recs && recs[list[j].id] == list[j] && list[j].id in order[..k]
        invariant forall i :: 0 <= i < k && recs[order[i]].status == st ==> recs[order[i]] in list
        invariant forall i, j :: 0 <= i < j < |list| ==> list[i].id != list[j].id
      {
        var rec := recs[order[k]];
        if rec.status == st {
          list := list + [rec];
        }
      }
    }

    method MaybeStart(rec: Record, env: Env) returns (out: Record)
      requires Valid()
      modifies this`recs, this`active
      ensures Valid() && View() == MaybeStartStep(old(View()), rec, dir, env)
      ensures out == Begun(rec, rec.id in old(active), dir, env)
    {
      out := rec;
      if rec.start > env.now || !(rec.end > env.now) {
        return;
      }
      if rec.id in active {
        return;
      }
      if rec.channel !in env.streams {
        out := out.(status := Failed);
        UpdateRecording(out);
        return;
      }
      active := active + {rec.id};
      out := out.(path := dir + "/" + rec.id + ".ts", status := Recording);
      UpdateRecording(out);
      if rec.id in env.broken {
        active := active - {rec.id};
        out := out.(status := Failed);
        UpdateRecording(out);
      }
    }

    /** The process of `id` is gone. */
    method Finalize(id: Id, env: Env)
      requires Valid()
      modifies this`recs, this`active, this`stopping
      ensures Valid() && View() == FinalizeStep(old(View()), id, env)
    {
      active, stopping := active - {id}, stopping - {id};
      if id !in recs {
        return;
      }
      var rec := recs[id];
      if rec.status.Cancelled? {
        return;
      }
      if rec.path in env.files {
        rec := rec.(status := Completed);
      } else {
        rec := rec.(status := Failed);
      }
      UpdateRecording(rec);
    }

    method Schedule(a: Airing, env: Env) returns (out: Option<Record>)
      requires Valid()
      modifies this`recs, this`active, this`ids
      ensures Valid() && View() == ScheduleStep(old(View()), a, NextId(old(ids)), dir, env)
      ensures ids == if ValidWindow(a.start, a.stop, env.now) then RestIds(old(ids)) else old(ids)
      ensures out.Some? <==> ValidWindow(a.start, a.stop, env.now) && NextId(old(ids)).Some?
      ensures out.Some? ==>
        out.value == Begun(Asked(a, NextId(old(ids)).value), NextId(old(ids)).value in old(active), dir, env)
        && out.value.id in recs && recs[out.value.id] == out.value
    {
      if a.stop < env.now || !(a.stop > a.start) {
        return None;
      }
      var id := NewID();
      if id.None? {
        return None;
      }
      var rec := Record(id.value, a.channel, a.program, a.title, a.start, a.stop, Scheduled, "", "");
      recs := recs[rec.id := rec];
      rec := MaybeStart(rec, env);
      return Some(rec);
    }

    /** Cancel: false stands for the store's not-found error. */
    method Cancel(id: Id) returns (found: bool)
      requires Valid()
      modifies this`recs, this`stopping
      ensures Valid() && View() == CancelStep(old(View()), id)
      ensures found <==> id in old(recs)
    {
      if id !in recs {
        return false;
      }
      var rec := recs[id];
      if id in active {
        stopping := stopping + {id};
        return true;
      }
      if rec.status.Scheduled? {
        UpdateRecording(rec.(status := Cancelled));
      }
      return true;
    }

    /** tick's switch on one scheduled recording. */
    method TickOne(rec: Record, env: Env)
      requires Valid() && rec.id in recs && recs[rec.id] == rec && rec.status.Scheduled?
      modifies this`recs, this`active
      ensures Valid() && View() == Set(old(View()), TickRecord(rec, rec.id in old(active), dir, env))
    {
      if !(rec.end > env.now) {
        UpdateRecording(rec.(status := Failed));
      } else if !(rec.start > env.now) {
        var _ := MaybeStart(rec, env);
      } else {
        assert recs == recs[rec.id := rec];
      }
    }

    method Tick(order: seq<Id>, env: Env)
      requires Valid() && Keys(order)
      modifies this`recs, this`active
      ensures Valid() && View() == TickStep(old(View()), dir, env)
    {
      ghost var s := View();
      var list := Filter(order, Scheduled);
      ghost var done: set<Id> := {};
      TickPartNone(s, dir, env);
      for k := 0 to |list|
        invariant Valid() && View() == TickPart(s, done, dir, env)
        invariant Reached(list, k, done)
      {
        var rec := list[k];
        TickPartAdd(s, done, rec.id, dir, env);
        TickOne(rec, env);
        ReachedMore(list, k, done);
        done := done + {rec.id};
      }
      AllReached(s, list, Scheduled, done);
      TickPartAll(s, done, dir, env);
    }

    method ResumeOne(rec: Record, env: Env)
      requires Valid() && rec.id in recs && recs[rec.id] == rec && rec.status.Recording?
      requires rec.id !in active && rec.id !in stopping
      modifies this`recs, this`active, this`stopping
      ensures Valid() && View() == Resumed(old(View()), rec, dir, env)
    {
      if rec.end > env.now {
        var _ := MaybeStart(rec, env);
        assert recs[rec.id] == ResumeRecord(rec, dir, env);
      } else {
        Finalize(rec.id, env);
      }
    }

    /** A new process: New over the stored recordings, then resume. */
    method Restart(order: seq<Id>, env: Env)
      requires Valid() && Keys(order)
      modifies this`recs, this`active, this`stopping
      ensures Valid() && View() == RestartStep(old(View()), dir, env)
    {
      ghost var s := View();
      active, stopping := {}, {};
      var list := Filter(order, Recording);
      ghost var done: set<Id> := {};
      ResumePartNone(s, dir, env);
      for k := 0 to |list|
        invariant Valid() && View() == ResumePart(s, done, dir, env)
        invariant Reached(list, k, done)
      {
        var rec := list[k];
        ResumePartAdd(s, done, rec.id, dir, env);
        ResumeOne(rec, env);
        ReachedMore(list, k, done);
        done := done + {rec.id};
      }
      AllReached(s, list, Recording, done);
      ResumePartAll(s, done, dir, env);
    }

    method ScheduleFromAiring(st: SeriesTimer, a: Airing, env: Env) returns (out: Option<Record>)
      requires Valid()
      modifies this`recs, this`active, this`ids
      ensures Valid() && out.Some? == (ValidWindow(a.start, a.stop, env.now) && NextId(old(ids)).Some?)
      ensures View() == if out.Some? then Adopt(old(View()), st, a, NextId(old(ids)).value, dir, env) else old(View())
      ensures ids == if ValidWindow(a.start, a.stop, env.now) then RestIds(old(ids)) else old(ids)
    {
      out := Schedule(a, env);
      if out.Some? {
        out := Some(out.value.(timer := st.id));
        UpdateRecording(out.value);
      }
    }

    /** The `recorded` map: the programmes some recording is of. */
    method Recorded(order: seq<Id>) returns (recorded: set<string>)
      requires Keys(order)
      ensures recorded == Covered(recs)
    {
      recorded := {};
      for k := 0 to |order|
        invariant forall x :: x in recorded ==> x in Covered(recs)
        invariant forall i :: 0 <= i < k && recs[order[i]].program != "" ==> recs[order[i]].program in recorded
      {
        var rec := recs[order[k]];
        if rec.program != "" {
          recorded := recorded + {rec.program};
        }
      }
    }

    /** expandSeries' inner loop body. */
    method Consider(st: SeriesTimer, want: string, a: Airing, recorded: set<string>, env: Env)
      returns (recorded': set<string>)
      requires Valid() && want == Titles.Join(Titles.Words(st.name))
      modifies this`recs, this`active, this`ids
      ensures Valid()
      ensures Progress(View(), recorded', ids) == ExpandOne(Progress(old(View()), recorded, old(ids)), st, a, dir, env)
    {
      recorded' := recorded;
      if a.stop < env.now || a.program == "" || a.program in recorded {
        return;
      }
      if !st.anyChannel && st.channel != "" && a.channel != st.channel {
        return;
      }
      var title := Titles.NormalizeTitle(a.title);
      if !Titles.TitleMatches(title, want) {
        return;
      }
      var rec := ScheduleFromAiring(st, a, env);
      if rec.Some? {
        recorded' := recorded' + {a.program};
      }
    }

    method ExpandTimer(st: SeriesTimer, airings: seq<Airing>, recorded: set<string>, env: Env)
      returns (recorded': set<string>)
      requires Valid()
      modifies this`recs, this`active, this`ids
      ensures Valid()
      ensures Progress(View(), recorded', ids)
        == ExpandPairs(Progress(old(View()), recorded, old(ids)), Row(st, airings), dir, env)
    {
      ghost var start, row := Progress(View(), recorded, ids), Row(st, airings);
      var want := Titles.NormalizeTitle(st.name);
      recorded' := recorded;
      for j := 0 to |airings|
        invariant Valid()
        invariant Progress(View(), recorded', ids) == ExpandPairs(start, row[..j], dir, env)
      {
        RowStep(start, st, airings, j, dir, env);
        recorded' := Consider(st, want, airings[j], recorded', env);
      }
      assert row[..|airings|] == row;
    }

    method ExpandSeries(order: seq<Id>, listing: seq<SeriesTimer>, programs: Option<seq<Airing>>, env: Env)
      requires Valid() && Keys(order)
      modifies this`recs, this`active, this`ids
      ensures Valid()
      ensures var p := ExpandStep(old(View()), listing, programs, old(ids), dir, env); View() == p.s && ids == p.ids
    {
      ghost var start := Progress(View(), Covered(recs), ids);
      if programs.None? || |listing| == 0 {
        return;
      }
      var airings := programs.value;
      var recorded := Recorded(order);
      for i := 0 to |listing|
        invariant Valid()
        invariant Progress(View(), recorded, ids) == ExpandPairs(start, Pairs(listing[..i], airings), dir, env)
      {
        TimerStep(start, listing, airings, i, dir, env);
        recorded := ExpandTimer(listing[i], airings, recorded, env);
      }
      assert listing[..|listing|] == listing;
    }

    /** ScheduleSeries: None stands for its error returns. */
    method ScheduleSeries(ask: SeriesTimer, order: seq<Id>, listing: seq<SeriesTimer>, programs: Option<seq<Airing>>,
                          env: Env)
      returns (out: Option<SeriesTimer>)
      requires Valid() && Keys(order)
      modifies this`recs, this`timers, this`active, this`ids
      ensures Valid()
      ensures View()
        == ScheduleSeriesStep(old(View()), ask, NextId(old(ids)), listing, programs, RestIds(old(ids)), dir, env)
      ensures out == if ask.name == "" || NextId(old(ids)).None? then None else Some(ask.(id := NextId(old(ids)).value))
    {
      if ask.name == "" {
        return None;
      }
      var id := NewID();
      if id.None? {
        return None;
      }
      var st := ask.(id := id.value);
      timers := timers[st.id := st];
      ExpandSeries(order, listing, programs, env);
      return Some(st);
    }

    /** CancelSeries: false stands for the store's not-found error. */
    method CancelSeries(id: Id) returns (found: bool)
      requires Valid()
      modifies this`timers
      ensures Valid() && View() == Step(old(View()), Event.CancelSeries(id), dir, Env(0, {}, {}, {}))
      ensures found <==> id in old(timers)
    {
      found := id in timers;
      timers := timers - {id};
    }

    /** Close: every active recording is told to stop. */
    method Close(order: seq<Id>)
      requires Valid() && forall id :: id in active <==> id in order
      modifies this`stopping
      ensures Valid() && View() == Step(old(View()), Event.Close, dir, Env(0, {}, {}, {}))
    {
      ghost var was := stopping;
      for i := 0 to |order|
        invariant forall id :: id in stopping <==> id in was || id in order[..i]
      {
        stopping := stopping + {order[i]};
      }
      assert stopping == was + active;
    }
  }

  lemma OneMore(p: Progress, pairs: seq<Pair>, pair: Pair, dir: string, env: Env)
    ensures ExpandPairs(p, pairs + [pair], dir, env)
      == ExpandOne(ExpandPairs(p, pairs, dir, env), pair.0, pair.1, dir, env)
  {
    assert (pairs + [pair])[..|pairs|] == pairs;
  }

  lemma {:induction false} RowMore(p: Progress, pairs: seq<Pair>, row: seq<Pair>, dir: string, env: Env)
    ensures ExpandPairs(p, pairs + row, dir, env) == ExpandPairs(ExpandPairs(p, pairs, dir, env), row, dir, env)
    decreases row
  {
    if row == [] {
      assert pairs + row == pairs;
    } else {
      var n := |row| - 1;
      RowMore(p, pairs, row[..n], dir, env);
      OneMore(p, pairs + row[..n], row[n], dir, env);
      assert pairs + row == pairs + row[..n] + [row[n]];
    }
  }

  /** One turn of the loop over a timer's airings. */
  lemma RowStep(start: Progress, st: SeriesTimer, airings: seq<Airing>, j: nat, dir: string, env: Env)
    requires j < |airings|
    ensures var row := Row(st, airings);
      ExpandPairs(start, row[..j + 1], dir, env)
      == ExpandOne(ExpandPairs(start, row[..j], dir, env), st, airings[j], dir, env)
  {
    var row := Row(st, airings);
    OneMore(start, row[..j], row[j], dir, env);
    assert row[..j + 1] == row[..j] + [row[j]];
  }

  /** One turn of the loop over the timers. */
  lemma TimerStep(start: Progress, listing: seq<SeriesTimer>, airings: seq<Airing>, i: nat, dir: string, env: Env)
    requires i < |listing|
    ensures ExpandPairs(start, Pairs(listing[..i + 1], airings), dir, env)
         == ExpandPairs(ExpandPairs(start, Pairs(listing[..i], airings), dir, env), Row(listing[i], airings), dir, env)
  {
    RowMore(start, Pairs(listing[..i], airings), Row(listing[i], airings), dir, env);
    assert listing[..i + 1][..i] == listing[..i];
  }

  /** Of the listed recordings, the first k are done. */
  ghost predicate Reached(list: seq<Record>, k: nat, done: set<Id>) {
    forall j :: 0 <= j < |list| ==> (j < k <==> list[j].id in done)
  }

  lemma ReachedMore(list: seq<Record>, k: nat, done: set<Id>)
    requires k < |list| && Reached(list, k, done)
    requires forall i, j :: 0 <= i < j < |list| ==> list[i].id != list[j].id
    ensures Reached(list, k + 1, done + {list[k].id})
  {
  }

  lemma AllReached(s: State, list: seq<Record>, st: Status, done: set<Id>)
    requires Reached(list, |list|, done)
    requires forall id :: id in s.recs && s.recs[id].status == st ==> s.recs[id] in list && s.recs[id].id == id
    ensures forall id :: id in s.recs && s.recs[id].status == st ==> id in done
  {
    forall id | id in s.recs && s.recs[id].status == st ensures id in done {
      var j :| 0 <= j < |list| && list[j] == s.recs[id];
    }
  }

  /** `s` with a new version of one recording, active if it is now being recorded. */
  function Set(s: State, r: Record): State {
    s.(recs := s.recs[r.id := r], active := if r.status.Recording? then s.active + {r.id} else s.active)
  }

  /** `s` once tick has gone through the recordings of `done`. */
  ghost function TickPart(s: State, done: set<Id>, dir: string, env: Env): State {
    var recs := map id | id in s.recs ::
      if id in done then TickRecord(s.recs[id], id in s.active, dir, env) else s.recs[id];
    s.(recs := recs,
       active := s.active + set id |
         id in recs && id in done && s.recs[id].status.Scheduled? && recs[id].status.Recording?)
  }

  lemma TickPartNone(s: State, dir: string, env: Env)
    ensures TickPart(s, {}, dir, env) == s
  {
    var part := TickPart(s, {}, dir, env);
    assert part.recs == s.recs && part.active == s.active;
  }

  lemma TickPartAdd(s: State, done: set<Id>, id: Id, dir: string, env: Env)
    requires id in s.recs && s.recs[id].id == id && s.recs[id].status.Scheduled? && id !in done
    ensures var part := TickPart(s, done, dir, env);
      && TickPart(s, done + {id}, dir, env) == Set(part, TickRecord(s.recs[id], id in part.active, dir, env))
      && part.recs[id] == s.recs[id]
  {
    var part, next := TickPart(s, done, dir, env), TickPart(s, done + {id}, dir, env);
    assert id in part.active <==> id in s.active;
    var r := TickRecord(s.recs[id], id in s.active, dir, env);
    assert next.recs == part.recs[id := r];
    assert next.active == Set(part, r).active;
  }

  lemma TickPartAll(s: State, done: set<Id>, dir: string, env: Env)
    requires forall id :: id in s.recs && s.recs[id].status.Scheduled? ==> id in done
    ensures TickPart(s, done, dir, env) == TickStep(s, dir, env)
  {
    var part, all := TickPart(s, done, dir, env), TickStep(s, dir, env);
    assert part.recs == all.recs;
    assert part.active == all.active;
  }

  function Resumed(s: State, r: Record, dir: string, env: Env): State {
    var r' := ResumeRecord(r, dir, env);
    s.(recs := s.recs[r.id := r'],
       active := if Due(r, env.now) && r'.status.Recording? then s.active + {r.id} else s.active)
  }

  /** `s` restarted, once resume has gone through the recordings of `done`. */
  ghost function ResumePart(s: State, done: set<Id>, dir: string, env: Env): State {
    var recs := map id | id in s.recs :: if id in done then ResumeRecord(s.recs[id], dir, env) else s.recs[id];
    s.(recs := recs, stopping := {},
       active := set id | id in recs && id in done && Due(s.recs[id], env.now) && recs[id].status.Recording?)
  }

  lemma ResumePartNone(s: State, dir: string, env: Env)
    ensures ResumePart(s, {}, dir, env) == s.(active := {}, stopping := {})
  {
    var part := ResumePart(s, {}, dir, env);
    assert part.recs == s.recs && part.active == {};
  }

  lemma ResumePartAdd(s: State, done: set<Id>, id: Id, dir: string, env: Env)
    requires id in s.recs && s.recs[id].id == id && id !in done
    ensures var part := ResumePart(s, done, dir, env);
      && ResumePart(s, done + {id}, dir, env) == Resumed(part, s.recs[id], dir, env)
      && part.recs[id] == s.recs[id] && id !in part.active && part.stopping == {}
  {
    var part, next := ResumePart(s, done, dir, env), ResumePart(s, done + {id}, dir, env);
    var r := ResumeRecord(s.recs[id], dir, env);
    assert next.recs == part.recs[id := r];
    assert next.active == Resumed(part, s.recs[id], dir, env).active;
  }

  lemma ResumePartAll(s: State, done: set<Id>, dir: string, env: Env)
    requires forall id :: id in s.recs && s.recs[id].status.Recording? ==> id in done
    ensures ResumePart(s, done, dir, env) == RestartStep(s, dir, env)
  {
    var part, all := ResumePart(s, done, dir, env), RestartStep(s, dir, env);
    assert part.recs == all.recs;
    assert part.active == all.active;
  }
}
