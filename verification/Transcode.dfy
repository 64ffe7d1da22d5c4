/** The HLS session manager of internal/transcode/hls.go: a bounded cache that
    owns one ffmpeg process and one directory per session. */
module Transcode {
  import opened Wrappers

  const MAX_SESSIONS: nat := 4
  const IDLE_TIMEOUT: int := 120_000_000_000

  datatype Session = Session(dir: string, process: nat, lastAccess: int)

  /** The session map and what it owns outside the program: the processes whose
      context is not cancelled and the session directories on disk. */
  datatype State = State(sessions: map<string, Session>, running: set<nat>, dirs: set<string>, next: nat)

  /** `sessionDir` hashes a key; distinct keys are taken to give distinct names. */
  ghost predicate Injective(dirOf: string -> string) {
    forall k, l :: dirOf(k) == dirOf(l) ==> k == l
  }

  // ----------------------------------------------- one operation, as a function

  /** `killLocked`. */
  function Kill(s: State, key: string): State {
    if key !in s.sessions then s
    else
      var d := s.sessions[key];
      State(s.sessions - {key}, s.running - {d.process}, s.dirs - {d.dir}, s.next)
  }

  /** The scan of `evictOldestLocked` along an iteration order: the key kept so
      far and its time. The empty string doubles as "nothing found yet". */
  function Scan(m: map<string, Session>, order: seq<string>): (string, int)
    requires forall k :: k in order ==> k in m
  {
    if order == [] then ("", 0)
    else
      var (id, oldest) := Scan(m, order[..|order| - 1]);
      var k := order[|order| - 1];
      if id == "" || m[k].lastAccess < oldest then (k, m[k].lastAccess) else (id, oldest)
  }

  /** `order` is an order in which a range loop may visit the map. */
  ghost predicate Enumerates(order: seq<string>, m: map<string, Session>) {
    && (forall k :: k in order <==> k in m)
    && forall i, j :: 0 <= i < j < |order| ==> order[i] != order[j]
  }

  ghost function Evict(s: State, order: seq<string>): State
    requires Enumerates(order, s.sessions)
  {
    var id := Scan(s.sessions, order).0;
    if id != "" then Kill(s, id) else s
  }

  datatype Event =
    | Ensure(key: string, now: int, order: seq<string>, dirMade: bool, started: bool)
    | Get(key: string, now: int)
    | Stop(key: string, now: int)
    | Reap(now: int)

  ghost predicate Enabled(s: State, e: Event) {
    e.Ensure? ==> Enumerates(e.order, s.sessions)
  }

  function Touch(s: State, key: string, now: int): State
    requires key in s.sessions
  {
    s.(sessions := s.sessions[key := s.sessions[key].(lastAccess := now)])
  }

  /** The second half of `ensure`, after any eviction. */
  function Launch(dirOf: string -> string, s: State, key: string, now: int, dirMade: bool, started: bool): State {
    var dir := dirOf(key);
    if !dirMade then s
    else if !started then s.(dirs := s.dirs - {dir})
    else State(s.sessions[key := Session(dir, s.next, now)], s.running + {s.next}, s.dirs + {dir}, s.next + 1)
  }

  function Idle(s: State, now: int): set<string> {
    set k | k in s.sessions && s.sessions[k].lastAccess < now - IDLE_TIMEOUT
  }

  /** What is left when all of `keys` are killed. */
  function KillAll(s: State, keys: set<string>): State
    requires keys <= s.sessions.Keys
  {
    State(s.sessions - keys,
          s.running - (set k | k in keys :: s.sessions[k].process),
          s.dirs - (set k | k in keys :: s.sessions[k].dir),
          s.next)
  }

  lemma KillMore(s: State, keys: set<string>, id: string)
    requires keys <= s.sessions.Keys && id in s.sessions && id !in keys
    ensures KillAll(s, keys + {id}) == Kill(KillAll(s, keys), id)
  {
    var part, next := KillAll(s, keys), KillAll(s, keys + {id});
    assert next.sessions == part.sessions - {id};
    assert next.running == part.running - {s.sessions[id].process};
    assert next.dirs == part.dirs - {s.sessions[id].dir};
  }

  ghost function Step(dirOf: string -> string, s: State, e: Event): State
    requires Enabled(s, e)
  {
    match e
    case Ensure(key, now, order, dirMade, started) =>
      if key in s.sessions then Touch(s, key, now)
      else Launch(dirOf, if |s.sessions| >= MAX_SESSIONS then Evict(s, order) else s, key, now, dirMade, started)
    case Get(key, now) => if key in s.sessions then Touch(s, key, now) else s
    case Stop(key, _) => Kill(s, key)
    case Reap(now) => KillAll(s, Idle(s, now))
  }

  // ----------------------------------------------------------------- the class

  class Manager {
    const dirOf: string -> string
    var sessions: map<string, Session>
    var running: set<nat>
    var dirs: set<string>
    var next: nat

    ghost function Abstract(): State
      reads this
    {
      State(sessions, running, dirs, next)
    }

    constructor (dirOf: string -> string)
      ensures this.dirOf == dirOf && Abstract() == State(map[], {}, {}, 0)
    {
      this.dirOf := dirOf;
      sessions, running, dirs, next := map[], {}, {}, 0;
    }

    /** `ensure`; the flags say whether the directory and the process could be
        made. The ghost result is the order the eviction scan happened to use. */
    method EnsureSession(key: string, now: int, dirMade: bool, started: bool)
      returns (r: Option<Session>, ghost order: seq<string>)
      modifies this
      ensures Enumerates(order, old(sessions))
      ensures Abstract() == Step(dirOf, old(Abstract()), Ensure(key, now, order, dirMade, started))
      ensures r == if key in sessions then Some(sessions[key]) else None
      ensures key in old(sessions) ==> r.Some? && r.value.process == old(sessions)[key].process
      ensures r.None? <==> key !in old(sessions) && !(dirMade && started)
    {
      if key in sessions {
        sessions := sessions[key := sessions[key].(lastAccess := now)];
        order := SomeOrder(old(sessions));
        return Some(sessions[key]), order;
      }
      if |sessions| >= MAX_SESSIONS {
        order := EvictOldest();
      } else {
        order := SomeOrder(sessions);
      }
      var dir := dirOf(key);
      if !dirMade {
        return None, order;
      }
      if !started {
        dirs := dirs - {dir};
        return None, order;
      }
      dirs := dirs + {dir};
      running := running + {next};
      sessions := sessions[key := Session(dir, next, now)];
      next := next + 1;
      return Some(sessions[key]), order;
    }

    method GetSession(key: string, now: int) returns (r: Option<Session>)
      modifies this`sessions
      ensures Abstract() == Step(dirOf, old(Abstract()), Get(key, now))
      ensures r == if key in sessions then Some(sessions[key]) else None
    {
      if key in sessions {
        sessions := sessions[key := sessions[key].(lastAccess := now)];
        return Some(sessions[key]);
      }
      return None;
    }

    method StopSession(key: string)
      modifies this
      ensures Abstract() == Kill(old(Abstract()), key)
    {
      KillLocked(key);
    }

    method EvictOldest() returns (ghost order: seq<string>)
      modifies this
      ensures Enumerates(order, old(sessions))
      ensures Abstract() == Evict(old(Abstract()), order)
    {
      var oldestID, oldest := "", 0;
      var todo := sessions.Keys;
      order := [];
      while todo != {}
        invariant Abstract() == old(Abstract()) && todo <= sessions.Keys
        invariant forall k :: k in order <==> k in sessions && k !in todo
        invariant forall i, j :: 0 <= i < j < |order| ==> order[i] != order[j]
        invariant (oldestID, oldest) == Scan(sessions, order)
        decreases todo
      {
        var id :| id in todo;
        if oldestID == "" || sessions[id].lastAccess < oldest {
          oldestID, oldest := id, sessions[id].lastAccess;
        }
        todo := todo - {id};
        assert (order + [id])[..|order|] == order;
        order := order + [id];
      }
      if oldestID != "" {
        KillLocked(oldestID);
      }
    }

    method KillLocked(key: string)
      modifies this
      ensures Abstract() == Kill(old(Abstract()), key)
    {
      if key !in sessions {
        return;
      }
      var d := sessions[key];
      running := running - {d.process};
      dirs := dirs - {d.dir};
      sessions := sessions - {key};
    }

    /** One turn of the reaper: kills while ranging over the map. */
    method ReapIdle(now: int)
      modifies this
      ensures Abstract() == Step(dirOf, old(Abstract()), Reap(now))
    {
      var cutoff := now - IDLE_TIMEOUT;
      var todo := sessions.Keys;
      ghost var gone: set<string> := {};
      while todo != {}
        invariant todo <= sessions.Keys <= old(sessions).Keys
        invariant gone == Idle(old(Abstract()), now) - todo
        invariant Abstract() == KillAll(old(Abstract()), gone)
        decreases todo
      {
        var id :| id in todo;
        if sessions[id].lastAccess < cutoff {
          KillMore(old(Abstract()), gone, id);
          KillLocked(id);
          gone := gone + {id};
        }
        todo := todo - {id};
      }
    }

    /** The teardown of `Close`; `cleanDir` then empties the base directory. */
    method Close()
      modifies this
      ensures sessions == map[] && dirs == {}
      ensures running == old(running) - (set k | k in old(sessions) :: old(sessions)[k].process)
    {
      var todo := sessions.Keys;
      ghost var gone: set<string> := {};
      while todo != {}
        invariant todo == sessions.Keys && gone == old(sessions).Keys - todo
        invariant Abstract() == KillAll(old(Abstract()), gone)
        decreases todo
      {
        var id :| id in todo;
        KillLocked(id);
        gone := gone + {id};
        todo := todo - {id};
      }
      dirs := {};
      assert gone == old(sessions).Keys;
    }
  }

  ghost function SomeOrder(m: map<string, Session>): (order: seq<string>)
    ensures Enumerates(order, m)
  {
    OrderExists(m);
    var order :| Enumerates(order, m);
    order
  }

  lemma {:induction false} OrderExists(m: map<string, Session>)
    ensures exists order :: Enumerates(order, m)
    decreases m.Keys
  {
    if m.Keys == {} {
      assert Enumerates([], m);
    } else {
      var k :| k in m.Keys;
      OrderExists(m - {k});
      var rest :| Enumerates(rest, m - {k});
      assert Enumerates([k] + rest, m);
    }
  }

  // ------------------------------------------------------------ the eviction

  ghost predicate IsOldest(m: map<string, Session>, id: string) {
    id in m && forall k :: k in m ==> m[id].lastAccess <= m[k].lastAccess
  }

  /** A session under the empty key that is strictly the oldest. */
  ghost predicate EmptyKeyOldest(m: map<string, Session>) {
    "" in m && forall k :: k in m && k != "" ==> m[""].lastAccess < m[k].lastAccess
  }

  lemma {:induction false} ScanTime(m: map<string, Session>, order: seq<string>)
    requires forall k :: k in order ==> k in m
    ensures var (id, t) := Scan(m, order); id != "" ==> id in m && t == m[id].lastAccess
    decreases order
  {
    if order != [] {
      ScanTime(m, order[..|order| - 1]);
    }
  }

  /** Once the scan has passed a least recently used, non-empty key it holds one. */
  lemma {:induction false} ScanFindsLeast(m: map<string, Session>, order: seq<string>, least: string)
    requires IsOldest(m, least) && least != "" && least in order && forall k :: k in order ==> k in m
    ensures Scan(m, order).0 != "" && IsOldest(m, Scan(m, order).0)
    decreases order
  {
    var rest := order[..|order| - 1];
    ScanTime(m, rest);
    if least in rest {
      ScanFindsLeast(m, rest, least);
    }
  }

  lemma {:induction false} OldestExists(m: map<string, Session>)
    requires m != map[]
    ensures exists id :: IsOldest(m, id)
    decreases m.Keys
  {
    var k :| k in m;
    if m - {k} == map[] {
      assert m.Keys == {k} + (m - {k}).Keys;
      assert IsOldest(m, k);
    } else {
      OldestExists(m - {k});
      var id :| IsOldest(m - {k}, id);
      assert forall j :: j in m ==> j == k || j in m - {k};
      assert IsOldest(m, if m[k].lastAccess < m[id].lastAccess then k else id);
    }
  }

  ghost predicate EvictsAnOldest(s: State, order: seq<string>)
    requires Enumerates(order, s.sessions)
  {
    exists id :: IsOldest(s.sessions, id) && Evict(s, order) == Kill(s, id)
  }

  lemma EvictionOf(s: State, least: string, order: seq<string>)
    requires IsOldest(s.sessions, least) && least != "" && Enumerates(order, s.sessions)
    ensures EvictsAnOldest(s, order)
  {
    ScanFindsLeast(s.sessions, order, least);
  }

  lemma EmptyKeyStays(s: State) returns (order: seq<string>)
    requires EmptyKeyOldest(s.sessions)
    ensures Enumerates(order, s.sessions) && Evict(s, order) == s
  {
    var m := s.sessions;
    OrderExists(m - {""});
    var rest :| Enumerates(rest, m - {""});
    order := rest + [""];
    assert Enumerates(order, m) by {
      assert forall k :: k in rest <==> k in m && k != "";
      assert forall i :: 0 <= i < |rest| ==> rest[i] in rest;
    }
    assert order[..|order| - 1] == rest;
    ScanTime(m, rest);
  }

  /** Eviction removes a least recently used session, in whatever order the map
      is visited, if and only if the empty key is not strictly the oldest one:
      the scan takes the empty key for "nothing found yet". */
  lemma EvictionExact(s: State)
    requires s.sessions != map[]
    ensures (forall order | Enumerates(order, s.sessions) :: EvictsAnOldest(s, order))
      <==> !EmptyKeyOldest(s.sessions)
  {
    var m := s.sessions;
    if EmptyKeyOldest(m) {
      var order := EmptyKeyStays(s);
      assert !EvictsAnOldest(s, order);
    } else {
      OldestExists(m);
      var id :| IsOldest(m, id);
      var least := id;
      if id == "" {
        var k :| k in m && k != "" && m[k].lastAccess <= m[""].lastAccess;
        least := k;
      }
      forall order | Enumerates(order, m) ensures EvictsAnOldest(s, order) {
        EvictionOf(s, least, order);
      }
    }
  }

  /** The empty key therefore defeats the bound: a full manager can grow. */
  lemma EmptyKeyOverflows(dirOf: string -> string, s: State, key: string, now: int)
    requires EmptyKeyOldest(s.sessions) && |s.sessions| == MAX_SESSIONS && key !in s.sessions
    ensures exists order | Enumerates(order, s.sessions) ::
      |Step(dirOf, s, Ensure(key, now, order, true, true)).sessions| == MAX_SESSIONS + 1
  {
    var order := EmptyKeyStays(s);
    var t := Step(dirOf, s, Ensure(key, now, order, true, true));
    assert t.sessions.Keys == s.sessions.Keys + {key};
  }

  /** A run from one state to another. */
  ghost predicate Reaches(dirOf: string -> string, s: State, es: seq<Event>, t: State)
    decreases es
  {
    if es == [] then s == t else Enabled(s, es[0]) && Reaches(dirOf, Step(dirOf, s, es[0]), es[1..], t)
  }

  const EMPTY := State(map[], {}, {}, 0)

  lemma {:induction false} ReachesSnoc(dirOf: string -> string, s: State, es: seq<Event>, t: State, e: Event)
    requires Reaches(dirOf, s, es, t) && Enabled(t, e)
    ensures Reaches(dirOf, s, es + [e], Step(dirOf, t, e))
    decreases es
  {
    if es == [] {
      assert es + [e] == [e] && [e][1..] == [];
    } else {
      ReachesSnoc(dirOf, Step(dirOf, s, es[0]), es[1..], t, e);
      assert (es + [e])[1..] == es[1..] + [e];
    }
  }

  /** A call for a new key while there is room. */
  lemma AddSession(dirOf: string -> string, es: seq<Event>, s: State, key: string, now: int)
    returns (es': seq<Event>, t: State)
    requires Reaches(dirOf, EMPTY, es, s) && key !in s.sessions && |s.sessions| < MAX_SESSIONS
    ensures Reaches(dirOf, EMPTY, es', t) && |es'| == |es| + 1
    ensures t.sessions == s.sessions[key := Session(dirOf(key), s.next, now)]
    ensures t.sessions.Keys == s.sessions.Keys + {key} && |t.sessions| == |s.sessions| + 1
  {
    OrderExists(s.sessions);
    var order :| Enumerates(order, s.sessions);
    var e := Ensure(key, now, order, true, true);
    es', t := es + [e], Step(dirOf, s, e);
    assert t.sessions.Keys == s.sessions.Keys + {key};
    ReachesSnoc(dirOf, EMPTY, es, s, e);
  }

  /** The empty key came first, at time 1. */
  ghost predicate EmptyFirst(m: map<string, Session>) {
    "" in m && m[""].lastAccess == 1 && forall k :: k in m && k != "" ==> m[k].lastAccess > 1
  }

  lemma AddLater(dirOf: string -> string, es: seq<Event>, s: State, key: string, now: int)
    returns (es': seq<Event>, t: State)
    requires Reaches(dirOf, EMPTY, es, s) && EmptyFirst(s.sessions) && key !in s.sessions && now > 1
    requires |s.sessions| < MAX_SESSIONS
    ensures Reaches(dirOf, EMPTY, es', t) && EmptyFirst(t.sessions) && |es'| == |es| + 1
    ensures t.sessions.Keys == s.sessions.Keys + {key} && |t.sessions| == |s.sessions| + 1
  {
    es', t := AddSession(dirOf, es, s, key, now);
  }

  /** Four calls fill the empty manager. */
  lemma FillUp(dirOf: string -> string, a: string, b: string, c: string) returns (es: seq<Event>, t: State)
    requires a != "" && b != "" && c != "" && a != b && a != c && b != c
    ensures |es| == 4 && Reaches(dirOf, EMPTY, es, t) && t.sessions.Keys == {"", a, b, c}
    ensures |t.sessions| == MAX_SESSIONS && EmptyFirst(t.sessions)
  {
    var es1, s1 := AddSession(dirOf, [], EMPTY, "", 1);
    var es2, s2 := AddLater(dirOf, es1, s1, a, 2);
    var es3, s3 := AddLater(dirOf, es2, s2, b, 3);
    es, t := AddLater(dirOf, es3, s3, c, 4);
  }

  /** Five calls from the empty manager do: the empty key first, then four others. */
  lemma OverflowReached(dirOf: string -> string, a: string, b: string, c: string, d: string)
    requires a != "" && b != "" && c != "" && d != ""
    requires a != b && a != c && a != d && b != c && b != d && c != d
    ensures exists es, t :: |es| == 5 && Reaches(dirOf, EMPTY, es, t) && |t.sessions| == MAX_SESSIONS + 1
  {
    var es, s := FillUp(dirOf, a, b, c);
    EmptyKeyOverflows(dirOf, s, d, 5);
    var order :| Enumerates(order, s.sessions)
      && |Step(dirOf, s, Ensure(d, 5, order, true, true)).sessions| == MAX_SESSIONS + 1;
    var e := Ensure(d, 5, order, true, true);
    ReachesSnoc(dirOf, EMPTY, es, s, e);
  }

  // --------------------------------------------- sessions own what is running

  /** At most MAX_SESSIONS sessions; the running processes and the directories
      are exactly those of the sessions, one each. */
  ghost predicate Inv(dirOf: string -> string, s: State) {
    && |s.sessions| <= MAX_SESSIONS
    && "" !in s.sessions
    && Stamped(dirOf, s.sessions, s.next)
    && Owned(s)
  }

  /** Each session has its key's directory and a process of its own. */
  ghost predicate Stamped(dirOf: string -> string, m: map<string, Session>, next: nat) {
    && (forall k :: k in m ==> m[k].dir == dirOf(k) && m[k].process < next)
    && forall k, l :: k in m && l in m && k != l ==> m[k].process != m[l].process
  }

  ghost predicate Owned(s: State) {
    && (forall p :: p in s.running <==> OwnsProcess(s.sessions, p))
    && forall d :: d in s.dirs <==> OwnsDir(s.sessions, d)
  }

  ghost predicate OwnsProcess(m: map<string, Session>, p: nat) { exists k :: k in m && m[k].process == p }

  ghost predicate OwnsDir(m: map<string, Session>, d: string) { exists k :: k in m && m[k].dir == d }

  ghost predicate KeyGiven(e: Event) { e.Reap? || e.key != "" }

  lemma KillAllKeepsInv(dirOf: string -> string, s: State, keys: set<string>)
    requires Injective(dirOf) && Inv(dirOf, s) && keys <= s.sessions.Keys
    ensures Inv(dirOf, KillAll(s, keys))
  {
    var t := KillAll(s, keys);
    assert |t.sessions.Keys| <= |s.sessions.Keys| by { SubsetSize(t.sessions.Keys, s.sessions.Keys); }
    forall p ensures p in t.running <==> OwnsProcess(t.sessions, p) {
      if OwnsProcess(s.sessions, p) {
        var k :| k in s.sessions && s.sessions[k].process == p;
        assert k in t.sessions || k in keys;
      }
    }
    forall d ensures d in t.dirs <==> OwnsDir(t.sessions, d) {
      if OwnsDir(s.sessions, d) {
        var k :| k in s.sessions && s.sessions[k].dir == d;
        assert k in t.sessions || k in keys;
      }
    }
  }

  lemma {:induction false} SubsetSize<T>(a: set<T>, b: set<T>)
    requires a <= b
    ensures |a| <= |b| && (a != b ==> |a| < |b|)
    decreases a
  {
    if a != {} {
      var x :| x in a;
      SubsetSize(a - {x}, b - {x});
    }
  }

  lemma KillIsKillAll(s: State, key: string)
    requires key in s.sessions
    ensures Kill(s, key) == KillAll(s, {key})
  {
    assert (set k | k in {key} :: s.sessions[k].process) == {s.sessions[key].process};
    assert (set k | k in {key} :: s.sessions[k].dir) == {s.sessions[key].dir};
  }

  lemma KillKeepsInv(dirOf: string -> string, s: State, key: string)
    requires Injective(dirOf) && Inv(dirOf, s)
    ensures Inv(dirOf, Kill(s, key))
  {
    if key in s.sessions {
      KillIsKillAll(s, key);
      KillAllKeepsInv(dirOf, s, {key});
    }
  }

  /** Making room: whatever the order, one session goes. */
  lemma EvictKeepsInv(dirOf: string -> string, s: State, order: seq<string>)
    requires Injective(dirOf) && Inv(dirOf, s) && s.sessions != map[] && Enumerates(order, s.sessions)
    ensures Inv(dirOf, Evict(s, order)) && |Evict(s, order).sessions| == |s.sessions| - 1
    ensures Evict(s, order).sessions.Keys <= s.sessions.Keys
    ensures EvictsAnOldest(s, order)
  {
    EvictionExact(s);
    var id :| IsOldest(s.sessions, id) && Evict(s, order) == Kill(s, id);
    KillKeepsInv(dirOf, s, id);
    assert (s.sessions - {id}).Keys == s.sessions.Keys - {id};
  }

  lemma TouchKeepsInv(dirOf: string -> string, s: State, key: string, now: int)
    requires Inv(dirOf, s) && key in s.sessions
    ensures Inv(dirOf, Touch(s, key, now))
  {
    var t := Touch(s, key, now);
    assert t.sessions.Keys == s.sessions.Keys;
    assert forall k :: k in s.sessions ==>
      t.sessions[k].process == s.sessions[k].process && t.sessions[k].dir == s.sessions[k].dir;
    assert forall p :: OwnsProcess(t.sessions, p) <==> OwnsProcess(s.sessions, p);
    assert forall d :: OwnsDir(t.sessions, d) <==> OwnsDir(s.sessions, d);
  }

  lemma AddOwns(m: map<string, Session>, key: string, d: Session)
    requires key !in m
    ensures forall p :: OwnsProcess(m[key := d], p) <==> OwnsProcess(m, p) || p == d.process
    ensures forall x :: OwnsDir(m[key := d], x) <==> OwnsDir(m, x) || x == d.dir
  {
    var n := m[key := d];
    assert n[key] == d;
    forall p | OwnsProcess(m, p) ensures OwnsProcess(n, p) {
      var k :| k in m && m[k].process == p;
      assert k in n && n[k].process == p;
    }
    forall x | OwnsDir(m, x) ensures OwnsDir(n, x) {
      var k :| k in m && m[k].dir == x;
      assert k in n && n[k].dir == x;
    }
  }

  lemma AddOwned(s: State, key: string, d: Session, t: State)
    requires Owned(s) && key !in s.sessions
    requires t.sessions == s.sessions[key := d] && t.running == s.running + {d.process} && t.dirs == s.dirs + {d.dir}
    ensures Owned(t)
  {
    AddOwns(s.sessions, key, d);
  }

  lemma AddStamped(dirOf: string -> string, m: map<string, Session>, next: nat, key: string, d: Session)
    requires Stamped(dirOf, m, next) && key !in m && d.dir == dirOf(key) && d.process == next
    ensures Stamped(dirOf, m[key := d], next + 1)
  {
  }

  lemma AddKeepsInv(dirOf: string -> string, s: State, key: string, d: Session)
    requires Inv(dirOf, s) && |s.sessions| < MAX_SESSIONS && key !in s.sessions && key != ""
    requires d.dir == dirOf(key) && d.process == s.next
    ensures Inv(dirOf, State(s.sessions[key := d], s.running + {d.process}, s.dirs + {d.dir}, s.next + 1))
  {
    var t := State(s.sessions[key := d], s.running + {d.process}, s.dirs + {d.dir}, s.next + 1);
    AddOwned(s, key, d, t);
    AddStamped(dirOf, s.sessions, s.next, key, d);
    assert t.sessions.Keys == s.sessions.Keys + {key};
  }

  lemma LaunchKeepsInv(dirOf: string -> string, s: State, key: string, now: int, dirMade: bool, started: bool)
    requires Injective(dirOf) && Inv(dirOf, s) && |s.sessions| < MAX_SESSIONS && key !in s.sessions && key != ""
    ensures Inv(dirOf, Launch(dirOf, s, key, now, dirMade, started))
  {
    if dirMade && started {
      AddKeepsInv(dirOf, s, key, Session(dirOf(key), s.next, now));
    } else if dirMade {
      assert dirOf(key) !in s.dirs;
    }
  }

  lemma StepKeepsInv(dirOf: string -> string, s: State, e: Event)
    requires Injective(dirOf) && Inv(dirOf, s) && Enabled(s, e) && KeyGiven(e)
    ensures Inv(dirOf, Step(dirOf, s, e))
  {
    match e
    case Ensure(key, now, order, dirMade, started) =>
      if key in s.sessions {
        TouchKeepsInv(dirOf, s, key, now);
      } else if |s.sessions| >= MAX_SESSIONS {
        EvictKeepsInv(dirOf, s, order);
        LaunchKeepsInv(dirOf, Evict(s, order), key, now, dirMade, started);
      } else {
        LaunchKeepsInv(dirOf, s, key, now, dirMade, started);
      }
    case Get(key, now) =>
      if key in s.sessions {
        TouchKeepsInv(dirOf, s, key, now);
      }
    case Stop(key, _) => KillKeepsInv(dirOf, s, key);
    case Reap(now) => KillAllKeepsInv(dirOf, s, Idle(s, now));
  }

  // -------------------------------------------------------- the abstract LRU

  /** The specification: keys with their access times, most recent first. */
  datatype Entry = Entry(key: string, time: int)

  function Without(l: seq<Entry>, key: string): seq<Entry> {
    if l == [] then [] else (if l[0].key == key then [] else [l[0]]) + Without(l[1..], key)
  }

  function Since(l: seq<Entry>, cutoff: int): seq<Entry> {
    if l == [] || l[0].time < cutoff then [] else [l[0]] + Since(l[1..], cutoff)
  }

  ghost predicate Holds(l: seq<Entry>, key: string) { exists x :: x in l && x.key == key }

  /** A hit moves to the front, a miss drops the last of a full list, a failed
      start adds nothing, reaping cuts off an idle tail. */
  ghost function LruStep(l: seq<Entry>, e: Event): seq<Entry> {
    match e
    case Ensure(key, now, _, dirMade, started) =>
      if Holds(l, key) then [Entry(key, now)] + Without(l, key)
      else
        var room := if |l| >= MAX_SESSIONS then l[..|l| - 1] else l;
        if dirMade && started then [Entry(key, now)] + room else room
    case Get(key, now) => if Holds(l, key) then [Entry(key, now)] + Without(l, key) else l
    case Stop(key, _) => Without(l, key)
    case Reap(now) => Since(l, now - IDLE_TIMEOUT)
  }

  ghost predicate Descending(l: seq<Entry>) {
    l == [] || (Descending(l[1..]) && forall x :: x in l[1..] ==> x.time < l[0].time)
  }

  /** The list holds exactly the sessions, in order of their last access. */
  ghost predicate Refines(s: State, l: seq<Entry>) {
    Descending(l) && forall x :: x in l <==> x.key in s.sessions && s.sessions[x.key].lastAccess == x.time
  }

  lemma {:induction false} WithoutElements(l: seq<Entry>, key: string)
    requires Descending(l)
    ensures Descending(Without(l, key))
    ensures forall x :: x in Without(l, key) <==> x in l && x.key != key
    decreases l
  {
    if l != [] {
      var w := Without(l[1..], key);
      WithoutElements(l[1..], key);
      assert forall x :: x in l <==> x == l[0] || x in l[1..];
      if l[0].key == key {
        assert Without(l, key) == w;
      } else {
        assert Without(l, key)[1..] == w;
      }
    }
  }

  lemma {:induction false} SinceElements(l: seq<Entry>, cutoff: int)
    requires Descending(l)
    ensures Descending(Since(l, cutoff)) && Since(l, cutoff) <= l
    ensures forall x :: x in Since(l, cutoff) <==> x in l && x.time >= cutoff
    decreases l
  {
    if l != [] {
      SinceElements(l[1..], cutoff);
      assert forall x :: x in l <==> x == l[0] || x in l[1..];
      assert ([l[0]] + Since(l[1..], cutoff))[1..] == Since(l[1..], cutoff);
    }
  }

  lemma {:induction false} DropLastElements(l: seq<Entry>)
    requires Descending(l) && l != []
    ensures Descending(l[..|l| - 1])
    ensures forall x :: x in l[..|l| - 1] <==> x in l && x != l[|l| - 1]
    ensures forall x :: x in l ==> l[|l| - 1].time <= x.time
    decreases l
  {
    assert forall x :: x in l <==> x == l[0] || x in l[1..];
    if |l| > 1 {
      DropLastElements(l[1..]);
      var rest := l[1..][..|l| - 2];
      assert l[..|l| - 1][1..] == rest;
      assert l[..|l| - 1] == [l[0]] + rest;
      assert forall x :: x in l[..|l| - 1] <==> x == l[0] || x in rest;
      assert l[|l| - 1] == l[1..][|l| - 2] && l[|l| - 1] in l[1..];
    }
  }

  lemma {:induction false} RefinesSize(s: State, l: seq<Entry>)
    requires Refines(s, l)
    ensures |l| == |s.sessions|
    decreases l
  {
    assert forall k :: k in s.sessions ==> Entry(k, s.sessions[k].lastAccess) in l;
    if l == [] {
      assert s.sessions == map[];
    } else {
      var k := l[0].key;
      var t := s.(sessions := s.sessions - {k});
      assert l[0] in l;
      assert forall x :: x in l <==> x == l[0] || x in l[1..];
      assert Refines(t, l[1..]);
      RefinesSize(t, l[1..]);
      assert t.sessions.Keys == s.sessions.Keys - {k};
    }
  }

  lemma HoldsIffPresent(s: State, l: seq<Entry>, key: string)
    requires Refines(s, l)
    ensures Holds(l, key) <==> key in s.sessions
  {
    if key in s.sessions {
      assert Entry(key, s.sessions[key].lastAccess) in l;
    }
  }

  lemma Prepended(l: seq<Entry>, x: Entry)
    requires Descending(l) && forall y :: y in l ==> y.time < x.time
    ensures Descending([x] + l) && forall y :: y in [x] + l <==> y == x || y in l
  {
    assert ([x] + l)[1..] == l;
  }

  /** The last entry of the list is the one session that is least recently used. */
  lemma LastIsOldest(s: State, l: seq<Entry>, id: string)
    requires Refines(s, l) && l != [] && IsOldest(s.sessions, id)
    ensures l[|l| - 1] == Entry(id, s.sessions[id].lastAccess)
  {
    var last, x := l[|l| - 1], Entry(id, s.sessions[id].lastAccess);
    DropLastElements(l);
    assert last in l && x in l;
    DescendingTimes(l, last, x);
  }

  lemma EvictRefines(dirOf: string -> string, s: State, l: seq<Entry>, order: seq<string>)
    requires Injective(dirOf) && Inv(dirOf, s) && Refines(s, l) && l != [] && Enumerates(order, s.sessions)
    ensures s.sessions != map[] && Refines(Evict(s, order), l[..|l| - 1])
  {
    RefinesSize(s, l);
    EvictionExact(s);
    assert EvictsAnOldest(s, order);
    var id :| IsOldest(s.sessions, id) && Evict(s, order) == Kill(s, id);
    LastIsOldest(s, l, id);
    DropLastElements(l);
    forall x ensures x in l[..|l| - 1] <==>
      x.key in Kill(s, id).sessions && Kill(s, id).sessions[x.key].lastAccess == x.time
    {
      assert x in l[..|l| - 1] <==> x in l && x != l[|l| - 1];
    }
  }

  lemma {:induction false} DescendingTimes(l: seq<Entry>, x: Entry, y: Entry)
    requires Descending(l) && x in l && y in l && x.time == y.time
    ensures x == y
    decreases l
  {
    if x != l[0] && y != l[0] {
      DescendingTimes(l[1..], x, y);
    }
  }

  lemma EnsureRefines(dirOf: string -> string, s: State, l: seq<Entry>, e: Event)
    requires Injective(dirOf) && Inv(dirOf, s) && Refines(s, l) && Enabled(s, e) && e.Ensure? && e.key != ""
    requires forall x :: x in l ==> x.time < e.now
    ensures Refines(Step(dirOf, s, e), LruStep(l, e))
  {
    RefinesSize(s, l);
    HoldsIffPresent(s, l, e.key);
    if e.key in s.sessions {
      TouchRefines(s, l, e.key, e.now);
    } else if |s.sessions| >= MAX_SESSIONS {
      EvictKeepsInv(dirOf, s, e.order);
      EvictRefines(dirOf, s, l, e.order);
      var room := l[..|l| - 1];
      assert forall x :: x in room ==> x in l;
      LaunchRefines(dirOf, Evict(s, e.order), room, e.key, e.now, e.dirMade, e.started);
    } else {
      LaunchRefines(dirOf, s, l, e.key, e.now, e.dirMade, e.started);
    }
  }

  /** One operation, at a time later than every recorded access: the manager and
      the list take the same step. */
  lemma StepRefines(dirOf: string -> string, s: State, l: seq<Entry>, e: Event)
    requires Injective(dirOf) && Inv(dirOf, s) && Refines(s, l) && Enabled(s, e) && KeyGiven(e)
    requires forall x :: x in l ==> x.time < e.now
    ensures Refines(Step(dirOf, s, e), LruStep(l, e))
  {
    match e
    case Ensure(_, _, _, _, _) => EnsureRefines(dirOf, s, l, e);
    case Get(key, now) =>
      HoldsIffPresent(s, l, key);
      if key in s.sessions {
        TouchRefines(s, l, key, now);
      }
    case Stop(key, now) => StopRefines(dirOf, s, l, key, now);
    case Reap(now) => ReapRefines(dirOf, s, l, now);
  }

  lemma StopRefines(dirOf: string -> string, s: State, l: seq<Entry>, key: string, now: int)
    requires Inv(dirOf, s) && Refines(s, l)
    ensures Refines(Step(dirOf, s, Stop(key, now)), LruStep(l, Stop(key, now)))
  {
    WithoutElements(l, key);
  }

  lemma ReapRefines(dirOf: string -> string, s: State, l: seq<Entry>, now: int)
    requires Inv(dirOf, s) && Refines(s, l)
    ensures Refines(Step(dirOf, s, Reap(now)), LruStep(l, Reap(now)))
  {
    SinceElements(l, now - IDLE_TIMEOUT);
  }

  lemma LaunchRefines(dirOf: string -> string, s: State, l: seq<Entry>, key: string, now: int,
                      dirMade: bool, started: bool)
    requires Refines(s, l) && key !in s.sessions && forall x :: x in l ==> x.time < now
    ensures Refines(Launch(dirOf, s, key, now, dirMade, started),
                    if dirMade && started then [Entry(key, now)] + l else l)
  {
    if dirMade && started {
      Prepended(l, Entry(key, now));
    }
  }

  lemma TouchRefines(s: State, l: seq<Entry>, key: string, now: int)
    requires Refines(s, l) && key in s.sessions && forall x :: x in l ==> x.time < now
    ensures Refines(Touch(s, key, now), [Entry(key, now)] + Without(l, key))
  {
    WithoutElements(l, key);
    Prepended(Without(l, key), Entry(key, now));
  }

  // ------------------------------------------------------------- whole runs

  ghost function RunTo(dirOf: string -> string, s: State, es: seq<Event>): State
    requires Runs(dirOf, s, es)
    decreases es
  {
    if es == [] then s else RunTo(dirOf, Step(dirOf, s, es[0]), es[1..])
  }

  ghost function LruTo(l: seq<Entry>, es: seq<Event>): seq<Entry>
    decreases es
  {
    if es == [] then l else LruTo(LruStep(l, es[0]), es[1..])
  }

  ghost predicate Runs(dirOf: string -> string, s: State, es: seq<Event>)
    decreases es
  {
    es == [] || (Enabled(s, es[0]) && KeyGiven(es[0]) && Runs(dirOf, Step(dirOf, s, es[0]), es[1..]))
  }

  /** In every state a run reaches, processes, directories and sessions
      correspond one to one, and there are at most MAX_SESSIONS of each. */
  lemma {:induction false} NothingLeaks(dirOf: string -> string, s: State, es: seq<Event>)
    requires Injective(dirOf) && Inv(dirOf, s) && Runs(dirOf, s, es)
    ensures var t := RunTo(dirOf, s, es);
      Inv(dirOf, t) && |t.running| == |t.dirs| == |t.sessions| <= MAX_SESSIONS
    decreases es
  {
    if es == [] {
      OneEach(dirOf, s);
    } else {
      StepKeepsInv(dirOf, s, es[0]);
      NothingLeaks(dirOf, Step(dirOf, s, es[0]), es[1..]);
    }
  }

  lemma {:induction false} OneEach(dirOf: string -> string, s: State)
    requires Injective(dirOf) && Inv(dirOf, s)
    ensures |s.running| == |s.dirs| == |s.sessions|
    decreases s.sessions.Keys
  {
    if s.sessions == map[] {
      assert s.running == {} && s.dirs == {};
    } else {
      var k :| k in s.sessions;
      KillKeepsInv(dirOf, s, k);
      OneEach(dirOf, Kill(s, k));
      assert (s.sessions - {k}).Keys == s.sessions.Keys - {k};
      assert OwnsProcess(s.sessions, s.sessions[k].process) && OwnsDir(s.sessions, s.sessions[k].dir);
    }
  }

  /** With strictly increasing access times the manager is an LRU list of
      capacity MAX_SESSIONS, over every run. */
  lemma {:induction false} ManagerIsLru(dirOf: string -> string, s: State, l: seq<Entry>, es: seq<Event>)
    requires Injective(dirOf) && Inv(dirOf, s) && Refines(s, l) && Runs(dirOf, s, es)
    requires forall i, j :: 0 <= i < j < |es| ==> es[i].now < es[j].now
    requires forall x, i :: x in l && 0 <= i < |es| ==> x.time < es[i].now
    ensures Refines(RunTo(dirOf, s, es), LruTo(l, es)) && |LruTo(l, es)| <= MAX_SESSIONS
    decreases es
  {
    if es == [] {
      RefinesSize(s, l);
    } else {
      var e := es[0];
      StepKeepsInv(dirOf, s, e);
      StepRefines(dirOf, s, l, e);
      StepTimes(l, e);
      forall x, i | x in LruStep(l, e) && 0 <= i < |es[1..]| ensures x.time < es[1..][i].now {
        assert es[1..][i] == es[i + 1] && e.now < es[i + 1].now;
      }
      ManagerIsLru(dirOf, Step(dirOf, s, e), LruStep(l, e), es[1..]);
    }
  }

  lemma StepTimes(l: seq<Entry>, e: Event)
    requires Descending(l) && forall x :: x in l ==> x.time < e.now
    ensures forall x :: x in LruStep(l, e) ==> x.time <= e.now
  {
    match e
    case Ensure(key, now, _, _, _) => WithoutElements(l, key);
    case Get(key, now) => WithoutElements(l, key);
    case Stop(key, _) => WithoutElements(l, key);
    case Reap(now) => SinceElements(l, now - IDLE_TIMEOUT);
  }

  // ------------------------------------------------------- what each call leaves

  /** No call changes the directory or the process of a session it leaves, or the access
      time of any but its own. */
  lemma SessionsKeepTheirs(dirOf: string -> string, s: State, e: Event, k: string)
    requires Enabled(s, e) && k in s.sessions && k in Step(dirOf, s, e).sessions
    ensures var d, d' := s.sessions[k], Step(dirOf, s, e).sessions[k];
      && d'.dir == d.dir && d'.process == d.process
      && d'.lastAccess == (if (e.Ensure? || e.Get?) && e.key == k then e.now else d.lastAccess)
  {
    if e.Ensure? && k !in Evict(s, e.order).sessions {
      assert k == Scan(s.sessions, e.order).0;
    }
  }

  /** A session looked for is there afterwards exactly when it was or could be started; a
      new one has its key's directory and a process none had before. */
  lemma EnsureExact(dirOf: string -> string, s: State, e: Event)
    requires Enabled(s, e) && e.Ensure?
    ensures var t := Step(dirOf, s, e);
      && (e.key in t.sessions <==> e.key in s.sessions || (e.dirMade && e.started))
      && (e.key in t.sessions && e.key !in s.sessions ==>
           && t.sessions[e.key] == Session(dirOf(e.key), s.next, e.now) && t.next == s.next + 1
           && s.next in t.running && dirOf(e.key) in t.dirs)
      && (e.key in s.sessions ==> t.sessions.Keys == s.sessions.Keys && t.running == s.running && t.dirs == s.dirs)
      && (e.key !in s.sessions && |s.sessions| < 4 ==> t.sessions.Keys - {e.key} == s.sessions.Keys)
  {
  }

  /** The reaper takes exactly the sessions not used for two minutes, in nanoseconds, and
      their processes. */
  lemma ReapExact(dirOf: string -> string, s: State, now: int, k: string)
    requires Inv(dirOf, s)
    ensures var t := Step(dirOf, s, Reap(now));
      && (k in t.sessions <==> k in s.sessions && now - s.sessions[k].lastAccess <= 2 * 60 * 1_000_000_000)
      && (k in t.sessions ==> t.sessions[k] == s.sessions[k] && s.sessions[k].process in t.running)
      && (k in s.sessions && k !in t.sessions ==> s.sessions[k].process !in t.running)
  {
  }
}
