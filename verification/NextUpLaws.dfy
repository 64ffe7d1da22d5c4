/** The next-up list told from the episodes as they are given, in order
    (internal/server/handlers_shows.go). */
module NextUpLaws {
  import opened Wrappers
  import opened NextUp

  // ---------------------------------------------------------------- what is next

  predicate Watched(eps: seq<Episode>, ud: map<string, UserData>, k: int) {
    0 <= k < |eps| && eps[k].id in ud && ud[eps[k].id].played
  }

  predicate UnderWay(eps: seq<Episode>, ud: map<string, UserData>, k: int) {
    0 <= k < |eps| && eps[k].id in ud && !ud[eps[k].id].played && ud[eps[k].id].position > 0
  }

  /** The j-th episode is of the series `sid`. */
  predicate Of(eps: seq<Episode>, sid: string, j: int) { 0 <= j < |eps| && eps[j].series == sid }

  /** The first of its series that is under way. */
  ghost predicate FirstUnderWay(eps: seq<Episode>, ud: map<string, UserData>, k: int) {
    UnderWay(eps, ud, k) && forall m :: Of(eps, eps[k].series, m) && m < k ==> !UnderWay(eps, ud, m)
  }

  /** With none of its series under way, the one after the last watched, j. */
  ghost predicate AfterWatched(eps: seq<Episode>, ud: map<string, UserData>, j: int, k: int) {
    && Of(eps, if 0 <= k < |eps| then eps[k].series else "", j) && j < k < |eps| && Watched(eps, ud, j)
    && (forall m :: Of(eps, eps[k].series, m) ==> !UnderWay(eps, ud, m))
    && (forall m :: Of(eps, eps[k].series, m) && m > j ==> m >= k && !Watched(eps, ud, m))
  }

  ghost predicate NextIn(eps: seq<Episode>, ud: map<string, UserData>, k: int) {
    FirstUnderWay(eps, ud, k) || exists j :: AfterWatched(eps, ud, j, k)
  }

  // ------------------------------------------------------- one series in the list

  /** The places of a series' episodes. */
  function Spots(eps: seq<Episode>, sid: string): seq<int> {
    if eps == [] then []
    else
      var n := |eps| - 1;
      Spots(eps[..n], sid) + if eps[n].series == sid then [n] else []
  }

  /** `sp` are the places of `list` in `eps`, in order, and all those of the series. */
  ghost predicate Tracks(eps: seq<Episode>, sid: string, list: seq<Episode>, sp: seq<int>) {
    && |sp| == |list|
    && (forall a :: 0 <= a < |sp| ==> Of(eps, sid, sp[a]) && eps[sp[a]] == list[a])
    && (forall a, b :: 0 <= a < b < |sp| ==> sp[a] < sp[b])
    && forall k :: Of(eps, sid, k) ==> k in sp
  }

  lemma TracksMore(eps: seq<Episode>, sid: string, list: seq<Episode>, sp: seq<int>, e: Episode)
    requires Tracks(eps, sid, list, sp)
    ensures if e.series == sid then Tracks(eps + [e], sid, list + [e], sp + [|eps|]) else Tracks(eps + [e], sid, list, sp)
  {
    var all := eps + [e];
    assert forall a :: 0 <= a < |sp| ==> Of(eps, sid, sp[a]);
    forall k | Of(all, sid, k) ensures Of(eps, sid, k) || (k == |eps| && e.series == sid) {
      assert k < |eps| ==> all[k] == eps[k];
    }
  }

  lemma {:induction false} SpotsTrack(eps: seq<Episode>, sid: string)
    ensures Tracks(eps, sid, OfSeries(eps, sid), Spots(eps, sid))
  {
    if eps != [] {
      var front, e := eps[..|eps| - 1], eps[|eps| - 1];
      SpotsTrack(front, sid);
      TracksMore(front, sid, OfSeries(front, sid), Spots(front, sid), e);
      assert eps == front + [e];
      assert e.series != sid ==> OfSeries(eps, sid) == OfSeries(front, sid) && Spots(eps, sid) == Spots(front, sid);
    }
  }

  /** A place of the series has an index in its list. */
  lemma IndexOf(eps: seq<Episode>, sid: string, list: seq<Episode>, sp: seq<int>, k: int) returns (a: nat)
    requires Tracks(eps, sid, list, sp) && Of(eps, sid, k)
    ensures a < |sp| && sp[a] == k && list[a] == eps[k]
    ensures forall b :: 0 <= b < |sp| && sp[b] < k ==> b < a
    ensures forall b :: 0 <= b < |sp| && sp[b] > k ==> b > a
  {
    a :| 0 <= a < |sp| && sp[a] == k;
  }

  lemma UnderWayAt(eps: seq<Episode>, ud: map<string, UserData>, sid: string, list: seq<Episode>, sp: seq<int>, a: nat)
    requires Tracks(eps, sid, list, sp) && a < |sp|
    ensures UnderWay(eps, ud, sp[a]) <==> InProgress(list[a], ud)
    ensures Watched(eps, ud, sp[a]) <==> Played(list[a], ud)
  {
    assert Of(eps, sid, sp[a]);
  }

  lemma FirstSame(eps: seq<Episode>, ud: map<string, UserData>, sid: string, list: seq<Episode>, sp: seq<int>, a: nat)
    requires Tracks(eps, sid, list, sp) && a < |sp|
    ensures FirstUnderWay(eps, ud, sp[a]) <==>
      InProgress(list[a], ud) && forall m :: 0 <= m < a ==> !InProgress(list[m], ud)
  {
    assert Of(eps, sid, sp[a]);
    forall b | 0 <= b < |sp|
      ensures Of(eps, sid, sp[b]) && (UnderWay(eps, ud, sp[b]) <==> InProgress(list[b], ud))
    {
      UnderWayAt(eps, ud, sid, list, sp, b);
    }
    if InProgress(list[a], ud) && forall m :: 0 <= m < a ==> !InProgress(list[m], ud) {
      forall m | Of(eps, sid, m) && m < sp[a] ensures !UnderWay(eps, ud, m) {
        var b := IndexOf(eps, sid, list, sp, m);
      }
    }
  }

  lemma AfterSame(eps: seq<Episode>, ud: map<string, UserData>, sid: string, list: seq<Episode>, sp: seq<int>, a: nat)
    requires Tracks(eps, sid, list, sp) && 0 < a < |sp|
    requires (forall m :: 0 <= m < |list| ==> !InProgress(list[m], ud)) && Played(list[a - 1], ud)
    requires forall m :: a <= m < |list| ==> !Played(list[m], ud)
    ensures AfterWatched(eps, ud, sp[a - 1], sp[a])
  {
    assert Of(eps, sid, sp[a]) && Of(eps, sid, sp[a - 1]);
    forall m | Of(eps, sid, m)
      ensures !UnderWay(eps, ud, m) && (m > sp[a - 1] ==> m >= sp[a] && !Watched(eps, ud, m))
    {
      var b := IndexOf(eps, sid, list, sp, m);
      UnderWayAt(eps, ud, sid, list, sp, b);
    }
    UnderWayAt(eps, ud, sid, list, sp, a - 1);
  }

  lemma AfterBack(eps: seq<Episode>, ud: map<string, UserData>, sid: string, list: seq<Episode>, sp: seq<int>, a: nat,
                  j: int)
    requires Tracks(eps, sid, list, sp) && a < |sp| && AfterWatched(eps, ud, j, sp[a])
    ensures IsNext(list, ud, a)
  {
    assert Of(eps, sid, sp[a]);
    var b := IndexOf(eps, sid, list, sp, j);
    assert b < a;
    assert Of(eps, sid, sp[a - 1]) && sp[a - 1] < sp[a];
    assert sp[a - 1] <= j;
    forall m | 0 <= m < |list| ensures !InProgress(list[m], ud) && (a <= m ==> !Played(list[m], ud)) {
      assert Of(eps, sid, sp[m]);
      assert a <= m ==> sp[a] <= sp[m];
      UnderWayAt(eps, ud, sid, list, sp, m);
    }
    UnderWayAt(eps, ud, sid, list, sp, b);
  }

  lemma NextSame(eps: seq<Episode>, ud: map<string, UserData>, sid: string, list: seq<Episode>, sp: seq<int>, a: nat)
    requires Tracks(eps, sid, list, sp) && a < |sp|
    ensures IsNext(list, ud, a) <==> NextIn(eps, ud, sp[a])
  {
    FirstSame(eps, ud, sid, list, sp, a);
    if IsNext(list, ud, a) && !FirstUnderWay(eps, ud, sp[a]) {
      AfterSame(eps, ud, sid, list, sp, a);
    }
    if j :| AfterWatched(eps, ud, j, sp[a]) {
      AfterBack(eps, ud, sid, list, sp, a, j);
    }
  }

  lemma NextUnique(list: seq<Episode>, ud: map<string, UserData>, a: nat, b: nat)
    requires a < |list| && b < |list| && IsNext(list, ud, a) && IsNext(list, ud, b)
    ensures a == b
  {
  }

  /** The list holds exactly the episodes that are next in their series: the first under
      way, or with none under way the one right after the last watched. */
  lemma NextUpExactly(eps: seq<Episode>, ud: map<string, UserData>, e: Episode)
    ensures e in NextUpList(eps, ud) <==> exists k :: NextIn(eps, ud, k) && eps[k] == e
  {
    var sid := e.series;
    var list, sp := OfSeries(eps, sid), Spots(eps, sid);
    SpotsTrack(eps, sid);
    NextUpExact(eps, ud, e);
    PickIsNext(list, ud);
    if e in NextUpList(eps, ud) {
      var a :| 0 <= a < |list| && list[a] == e && IsNext(list, ud, a);
      NextSame(eps, ud, sid, list, sp, a);
      assert NextIn(eps, ud, sp[a]) && eps[sp[a]] == e;
    }
    if k :| NextIn(eps, ud, k) && eps[k] == e {
      assert Of(eps, sid, k);
      var a := IndexOf(eps, sid, list, sp, k);
      NextSame(eps, ud, sid, list, sp, a);
      var p := Pick(list, ud).value;
      var b :| 0 <= b < |list| && list[b] == p && IsNext(list, ud, b);
      NextUnique(list, ud, a, b);
    }
  }

  // -------------------------------------------------------------------- the order

  predicate PlayedAt(eps: seq<Episode>, ud: map<string, UserData>, sid: string, k: int, t: Instant) {
    Of(eps, sid, k) && eps[k].id in ud && ud[eps[k].id].lastPlayed == t
  }

  /** `t` is when an episode of the series was last played; the zero time if none was. */
  ghost predicate Latest(eps: seq<Episode>, ud: map<string, UserData>, sid: string, t: Instant) {
    && t >= 0 && (forall k, u :: PlayedAt(eps, ud, sid, k, u) ==> u <= t)
    && (t == 0 || exists k :: PlayedAt(eps, ud, sid, k, t))
  }

  lemma ActivityIsLatest(eps: seq<Episode>, ud: map<string, UserData>, sid: string, t: Instant)
    requires Latest(eps, ud, sid, t)
    ensures Activity(OfSeries(eps, sid), ud) == t
  {
    var list, sp := OfSeries(eps, sid), Spots(eps, sid);
    SpotsTrack(eps, sid);
    var x := Activity(list, ud);
    if k :| PlayedAt(eps, ud, sid, k, t) {
      var a := IndexOf(eps, sid, list, sp, k);
      assert t <= x;
    }
    if a :| 0 <= a < |list| && list[a].id in ud && ud[list[a].id].lastPlayed == x {
      assert PlayedAt(eps, ud, sid, sp[a], x);
    }
  }

  /** The series `s` appears before any episode of `t`. */
  ghost predicate AppearsFirst(eps: seq<Episode>, s: string, t: string, m: int) {
    Of(eps, s, m) && forall n :: 0 <= n <= m ==> eps[n].series != t
  }

  /** The series played last comes first; of those played at one time, the one that
      appears first. */
  lemma OrderExactly(eps: seq<Episode>, ud: map<string, UserData>, i: nat, j: nat, x: Instant, y: Instant)
    requires i < j < |NextUpList(eps, ud)|
    requires Latest(eps, ud, NextUpList(eps, ud)[i].series, x) && Latest(eps, ud, NextUpList(eps, ud)[j].series, y)
    ensures x > y || (x == y && exists m ::
      AppearsFirst(eps, NextUpList(eps, ud)[i].series, NextUpList(eps, ud)[j].series, m))
  {
    var s, t := NextUpList(eps, ud)[i].series, NextUpList(eps, ud)[j].series;
    NextUpOrdered(eps, ud, i, j);
    ActivityIsLatest(eps, ud, s, x);
    ActivityIsLatest(eps, ud, t, y);
    if x == y {
      assert AppearsFirst(eps, s, t, FirstAt(eps, s));
    }
  }
}
