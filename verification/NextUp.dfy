/** The "next up" list (internal/server/handlers_shows.go, nextUp). */
module NextUp {
  import opened Wrappers
  import opened Sorting

  type Instant = int

  /** The zero time, where a series' activity starts. */
  const ZERO: Instant := 0

  datatype Episode = Episode(id: string, series: string)

  datatype UserData = UserData(position: int, played: bool, lastPlayed: Instant)

  type Watched = map<string, UserData>

  datatype Candidate = Candidate(ep: Episode, seen: Instant)

  predicate Played(e: Episode, ud: Watched) { e.id in ud && ud[e.id].played }

  predicate InProgress(e: Episode, ud: Watched) { e.id in ud && !ud[e.id].played && ud[e.id].position > 0 }

  // -------------------------------------------------------------- one series

  function LastPlayed(list: seq<Episode>, ud: Watched): (r: int)
    ensures -1 <= r < |list|
    ensures r >= 0 ==> Played(list[r], ud)
    ensures forall k :: r < k < |list| ==> !Played(list[k], ud)
  {
    if list == [] then -1
    else
      var n := |list| - 1;
      if Played(list[n], ud) then n else LastPlayed(list[..n], ud)
  }

  function FirstInProgress(list: seq<Episode>, ud: Watched): (r: int)
    ensures -1 <= r < |list|
    ensures r >= 0 ==> InProgress(list[r], ud)
    ensures forall k :: 0 <= k < (if r < 0 then |list| else r) ==> !InProgress(list[k], ud)
  {
    if list == [] then -1
    else
      var n := |list| - 1;
      var r := FirstInProgress(list[..n], ud);
      if r < 0 && InProgress(list[n], ud) then n else r
  }

  /** The latest time any episode of the list was played. */
  function Activity(list: seq<Episode>, ud: Watched): (t: Instant)
    ensures t >= ZERO
    ensures forall k :: 0 <= k < |list| && list[k].id in ud ==> ud[list[k].id].lastPlayed <= t
    ensures t == ZERO || exists k :: 0 <= k < |list| && list[k].id in ud && ud[list[k].id].lastPlayed == t
  {
    if list == [] then ZERO
    else
      var n := |list| - 1;
      var t := Activity(list[..n], ud);
      if list[n].id in ud && ud[list[n].id].lastPlayed > t then ud[list[n].id].lastPlayed else t
  }

  function Pick(list: seq<Episode>, ud: Watched): Option<Episode> {
    var i, p := FirstInProgress(list, ud), LastPlayed(list, ud);
    if i >= 0 then Some(list[i])
    else if p >= 0 && p + 1 < |list| then Some(list[p + 1])
    else None
  }

  /** list[k] is the episode to watch next: the first in progress or, with none in
      progress, the one right after the last played. */
  ghost predicate IsNext(list: seq<Episode>, ud: Watched, k: nat)
    requires k < |list|
  {
    || (InProgress(list[k], ud) && forall m :: 0 <= m < k ==> !InProgress(list[m], ud))
    || ((forall m :: 0 <= m < |list| ==> !InProgress(list[m], ud))
        && k > 0 && Played(list[k - 1], ud) && forall m :: k <= m < |list| ==> !Played(list[m], ud))
  }

  lemma PickIsNext(list: seq<Episode>, ud: Watched)
    ensures forall e :: Pick(list, ud) == Some(e) ==>
      !Played(e, ud) && exists k :: 0 <= k < |list| && list[k] == e && IsNext(list, ud, k)
    ensures Pick(list, ud).None? ==> forall k :: 0 <= k < |list| ==> !IsNext(list, ud, k)
  {
    var i, p := FirstInProgress(list, ud), LastPlayed(list, ud);
    if i >= 0 {
      assert IsNext(list, ud, i);
    } else if p >= 0 && p + 1 < |list| {
      assert IsNext(list, ud, p + 1);
    }
  }

  /** nextUp's inner loop and its switch. */
  method Choose(list: seq<Episode>, ud: Watched) returns (pick: Option<Episode>, activity: Instant)
    ensures pick == Pick(list, ud) && activity == Activity(list, ud)
  {
    var lastPlayed, inProgress := -1, -1;
    activity := ZERO;
    for i := 0 to |list|
      invariant lastPlayed == LastPlayed(list[..i], ud)
      invariant inProgress == FirstInProgress(list[..i], ud)
      invariant activity == Activity(list[..i], ud)
    {
      assert list[..i + 1][..i] == list[..i];
      var e := list[i];
      if e.id !in ud {
        continue;
      }
      var d := ud[e.id];
      if d.played {
        lastPlayed := i;
      } else if d.position > 0 && inProgress < 0 {
        inProgress := i;
      }
      if d.lastPlayed > activity {
        activity := d.lastPlayed;
      }
    }
    assert list[..|list|] == list;
    if inProgress >= 0 {
      pick := Some(list[inProgress]);
    } else if lastPlayed >= 0 && lastPlayed + 1 < |list| {
      pick := Some(list[lastPlayed + 1]);
    } else {
      pick := None;
    }
  }

  // ------------------------------------------------------------- all the series

  function OfSeries(eps: seq<Episode>, sid: string): (list: seq<Episode>)
    ensures forall k :: 0 <= k < |list| ==> list[k].series == sid
  {
    if eps == [] then []
    else
      var n := |eps| - 1;
      OfSeries(eps[..n], sid) + if eps[n].series == sid then [eps[n]] else []
  }

  /** The series in order of first appearance. */
  function SeriesOrder(eps: seq<Episode>): seq<string> {
    if eps == [] then []
    else
      var n := |eps| - 1;
      var order := SeriesOrder(eps[..n]);
      if eps[n].series in order then order else order + [eps[n].series]
  }

  function Candidates(eps: seq<Episode>, ud: Watched, order: seq<string>): seq<Candidate> {
    if order == [] then []
    else
      var n := |order| - 1;
      var list := OfSeries(eps, order[n]);
      Candidates(eps, ud, order[..n])
      + match Pick(list, ud)
        case Some(e) => [Candidate(e, Activity(list, ud))]
        case None => []
  }

  function Later(a: Candidate, b: Candidate): bool { a.seen >= b.seen }

  function Eps(cands: seq<Candidate>): (out: seq<Episode>)
    ensures |out| == |cands| && forall i :: 0 <= i < |cands| ==> out[i] == cands[i].ep
  {
    seq(|cands|, i requires 0 <= i < |cands| => cands[i].ep)
  }

  function NextUpList(eps: seq<Episode>, ud: Watched): seq<Episode> {
    Eps(Sort(Candidates(eps, ud, SeriesOrder(eps)), Later))
  }

  /** nextUp's first loop. */
  method GroupBySeries(eps: seq<Episode>) returns (bySeries: map<string, seq<Episode>>, order: seq<string>)
    ensures order == SeriesOrder(eps)
    ensures forall sid :: sid in bySeries <==> sid in order
    ensures forall sid :: sid in bySeries ==> bySeries[sid] == OfSeries(eps, sid)
  {
    bySeries, order := map[], [];
    for i := 0 to |eps|
      invariant order == SeriesOrder(eps[..i])
      invariant forall sid :: sid in bySeries <==> sid in order
      invariant forall sid :: OfSeries(eps[..i], sid) == if sid in bySeries then bySeries[sid] else []
    {
      var e := eps[i];
      GroupOne(eps, i);
      if e.series !in bySeries {
        order := order + [e.series];
        bySeries := bySeries[e.series := []];
      }
      bySeries := bySeries[e.series := bySeries[e.series] + [e]];
    }
    assert eps[..|eps|] == eps;
  }

  lemma GroupOne(eps: seq<Episode>, i: nat)
    requires i < |eps|
    ensures SeriesOrder(eps[..i + 1]) == SeriesOrder(eps[..i])
      + if eps[i].series in SeriesOrder(eps[..i]) then [] else [eps[i].series]
    ensures forall sid ::
      OfSeries(eps[..i + 1], sid) == OfSeries(eps[..i], sid) + if sid == eps[i].series then [eps[i]] else []
  {
    assert eps[..i + 1][..i] == eps[..i];
  }

  lemma CandidatesOne(eps: seq<Episode>, ud: Watched, order: seq<string>, i: nat)
    requires i < |order|
    ensures Candidates(eps, ud, order[..i + 1]) == Candidates(eps, ud, order[..i])
      + match Pick(OfSeries(eps, order[i]), ud)
        case Some(e) => [Candidate(e, Activity(OfSeries(eps, order[i]), ud))]
        case None => []
  {
    assert order[..i + 1][..i] == order[..i];
  }

  method Collect(eps: seq<Episode>, ud: Watched) returns (cands: seq<Candidate>)
    ensures cands == Candidates(eps, ud, SeriesOrder(eps))
  {
    var bySeries, order := GroupBySeries(eps);
    cands := [];
    for i := 0 to |order|
      invariant cands == Candidates(eps, ud, order[..i])
    {
      assert order[i] in order;
      CandidatesOne(eps, ud, order, i);
      var pick, activity := Choose(bySeries[order[i]], ud);
      if pick.Some? {
        cands := cands + [Candidate(pick.value, activity)];
      }
    }
    assert order[..|order|] == order;
  }

  method NextUp(eps: seq<Episode>, ud: Watched) returns (out: seq<Episode>)
    ensures out == NextUpList(eps, ud)
  {
    var cands := Collect(eps, ud);
    out := TakeEps(Sort(cands, Later));
  }

  /** nextUp's last loop. */
  method TakeEps(cands: seq<Candidate>) returns (out: seq<Episode>)
    ensures out == Eps(cands)
  {
    out := [];
    for i := 0 to |cands|
      invariant out == Eps(cands)[..i]
    {
      out := out + [cands[i].ep];
    }
  }

  // ------------------------------------------------------------------ the theorem

  /** Where a series first appears; |eps| if it does not. */
  function FirstAt(eps: seq<Episode>, sid: string): (k: nat)
    ensures k <= |eps| && (k < |eps| ==> eps[k].series == sid)
    ensures forall m :: 0 <= m < k ==> eps[m].series != sid
  {
    if eps == [] then 0
    else
      var n := |eps| - 1;
      var k := FirstAt(eps[..n], sid);
      if k < n then k else if eps[n].series == sid then n else n + 1
  }

  /** Each series that appears is in the order once, at its first appearance. */
  lemma {:induction false} OrderByAppearance(eps: seq<Episode>)
    ensures forall sid :: sid in SeriesOrder(eps) <==> FirstAt(eps, sid) < |eps|
    ensures forall a, b :: 0 <= a < b < |SeriesOrder(eps)| ==>
      FirstAt(eps, SeriesOrder(eps)[a]) < FirstAt(eps, SeriesOrder(eps)[b])
  {
    if eps != [] {
      var n := |eps| - 1;
      OrderByAppearance(eps[..n]);
      var front, order := SeriesOrder(eps[..n]), SeriesOrder(eps);
      forall a, b | 0 <= a < b < |order| ensures FirstAt(eps, order[a]) < FirstAt(eps, order[b]) {
        assert order[a] == front[a] && order[a] in front;
        if b < |front| {
          assert order[b] == front[b] && order[b] in front;
        }
      }
    }
  }

  lemma {:induction false} FirstInSeries(eps: seq<Episode>, e: Episode)
    ensures e in OfSeries(eps, e.series) <==> e in eps
  {
    if eps != [] {
      var n := |eps| - 1;
      FirstInSeries(eps[..n], e);
      assert eps == eps[..n] + [eps[n]];
    }
  }

  /** The candidates are the picks of the series listed, in their order. */
  lemma {:induction false} CandidatesExact(eps: seq<Episode>, ud: Watched, order: seq<string>, c: Candidate)
    ensures c in Candidates(eps, ud, order) <==>
      && c.ep.series in order
      && Pick(OfSeries(eps, c.ep.series), ud) == Some(c.ep)
      && c.seen == Activity(OfSeries(eps, c.ep.series), ud)
  {
    if order != [] {
      var n := |order| - 1;
      CandidatesExact(eps, ud, order[..n], c);
      assert c.ep.series in order <==> c.ep.series in order[..n] || c.ep.series == order[n];
      LastCandidate(eps, ud, order, c);
    }
  }

  lemma LastCandidate(eps: seq<Episode>, ud: Watched, order: seq<string>, c: Candidate)
    requires order != []
    ensures var n := |order| - 1;
      c in Candidates(eps, ud, order) <==>
        || c in Candidates(eps, ud, order[..n])
        || (Pick(OfSeries(eps, order[n]), ud) == Some(c.ep) && c.seen == Activity(OfSeries(eps, order[n]), ud))
  {
  }

  lemma {:induction false} CandidatesInOrder(eps: seq<Episode>, ud: Watched, order: seq<string>, p: nat, q: nat)
    requires p < q < |Candidates(eps, ud, order)|
    ensures exists a, b ::
      && 0 <= a < b < |order|
      && order[a] == Candidates(eps, ud, order)[p].ep.series
      && order[b] == Candidates(eps, ud, order)[q].ep.series
  {
    var n := |order| - 1;
    var cands, front := Candidates(eps, ud, order), Candidates(eps, ud, order[..n]);
    assert cands[p] == front[p];
    if q < |front| {
      CandidatesInOrder(eps, ud, order[..n], p, q);
      var a, b :| 0 <= a < b < n && order[..n][a] == front[p].ep.series && order[..n][b] == front[q].ep.series;
      assert order[a] == cands[p].ep.series && order[b] == cands[q].ep.series;
    } else {
      var s := front[p].ep.series;
      CandidatesExact(eps, ud, order[..n], front[p]);
      assert s in order[..n];
      var a :| 0 <= a < n && order[..n][a] == s;
      assert order[a] == s && order[n] == cands[q].ep.series;
    }
  }

  lemma LaterPreorder()
    ensures Preorder(Later)
  {
  }

  /** Which episodes are next up: one for each series with an episode to watch next,
      and never one that has been watched. */
  lemma NextUpExact(eps: seq<Episode>, ud: Watched, e: Episode)
    ensures e in NextUpList(eps, ud) <==> Pick(OfSeries(eps, e.series), ud) == Some(e)
    ensures e in NextUpList(eps, ud) ==> e in eps && !Played(e, ud)
    ensures var list := OfSeries(eps, e.series);
      e in NextUpList(eps, ud) ==> exists k :: 0 <= k < |list| && list[k] == e && IsNext(list, ud, k)
  {
    var list := OfSeries(eps, e.series);
    var order := SeriesOrder(eps);
    var cands := Candidates(eps, ud, order);
    LaterPreorder();
    SortMembers(cands, Later);
    PickIsNext(list, ud);
    FirstInSeries(eps, e);
    OrderByAppearance(eps);
    var c := Candidate(e, Activity(list, ud));
    CandidatesExact(eps, ud, order, c);
    var sorted := Sort(cands, Later);
    if e in NextUpList(eps, ud) {
      var i :| 0 <= i < |sorted| && sorted[i].ep == e;
      CandidatesExact(eps, ud, order, sorted[i]);
      assert sorted[i] in cands;
    }
    if Pick(list, ud) == Some(e) {
      assert e in list;
      assert FirstAt(eps, e.series) < |eps|;
      assert c in sorted;
      var i :| 0 <= i < |sorted| && sorted[i] == c;
      assert Eps(sorted)[i] == e;
    }
  }

  /** In which order: latest activity first, ties by first appearance; so no series
      is listed twice. */
  lemma NextUpOrdered(eps: seq<Episode>, ud: Watched, i: nat, j: nat)
    requires i < j < |NextUpList(eps, ud)|
    ensures var s, t := NextUpList(eps, ud)[i].series, NextUpList(eps, ud)[j].series;
      var a, b := Activity(OfSeries(eps, s), ud), Activity(OfSeries(eps, t), ud);
      a > b || (a == b && FirstAt(eps, s) < FirstAt(eps, t))
    ensures NextUpList(eps, ud)[i].series != NextUpList(eps, ud)[j].series
  {
    var order := SeriesOrder(eps);
    var cands := Candidates(eps, ud, order);
    var sorted := Sort(cands, Later);
    LaterPreorder();
    SortCorrect(cands, Later);
    SortMembers(cands, Later);
    SortedPairs(sorted, Later, i, j);
    CandidatesExact(eps, ud, order, sorted[i]);
    CandidatesExact(eps, ud, order, sorted[j]);
    assert sorted[i] in cands && sorted[j] in cands;
    if sorted[i].seen == sorted[j].seen {
      SortStable(cands, Later, i, j);
      var p, q :| 0 <= p < q < |cands| && cands[p] == sorted[i] && cands[q] == sorted[j];
      CandidatesInOrder(eps, ud, order, p, q);
      OrderByAppearance(eps);
    }
  }
}
