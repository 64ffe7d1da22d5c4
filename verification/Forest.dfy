/** The two-level folder hierarchy that buildEpisodes and buildTracks of
    internal/media/scan.go grow from the files of a library. */
module Forest {
  import opened Models

  /** The folder chain and the leaf a file calls for. */
  datatype Place = Place(top: Item, mid: Item, leaf: Item)

  // ------------------------------------------------------ the forest, as spec

  ghost predicate Distinct<T>(s: seq<T>) { forall i, j :: 0 <= i < j < |s| ==> s[i] != s[j] }

  predicate TopSeen(ps: seq<Place>, id: string) { exists i :: 0 <= i < |ps| && ps[i].top.id == id }
  predicate MidSeen(ps: seq<Place>, id: string) { exists i :: 0 <= i < |ps| && ps[i].mid.id == id }

  /** The first place that calls for a folder decides the folder's fields. */
  function FirstTop(ps: seq<Place>, id: string): Item
    requires TopSeen(ps, id)
    decreases ps
  {
    var n := |ps| - 1;
    if TopSeen(ps[..n], id) then FirstTop(ps[..n], id) else ps[n].top
  }

  function FirstMid(ps: seq<Place>, id: string): Item
    requires MidSeen(ps, id)
    decreases ps
  {
    var n := |ps| - 1;
    if MidSeen(ps[..n], id) then FirstMid(ps[..n], id) else ps[n].mid
  }

  /** The leaves filed under a second-level folder. */
  ghost function LeavesUnder(ps: seq<Place>, mid: string): (r: set<string>)
    ensures forall x :: x in r <==> exists i :: 0 <= i < |ps| && ps[i].mid.id == mid && ps[i].leaf.id == x
    decreases ps
  {
    if ps == [] then {}
    else
      var n := |ps| - 1;
      assert forall k :: 0 <= k < n ==> ps[..n][k] == ps[k];
      LeavesUnder(ps[..n], mid) + (if ps[n].mid.id == mid then {ps[n].leaf.id} else {})
  }

  ghost function MidsUnder(ps: seq<Place>, top: string): set<string> {
    set i | 0 <= i < |ps| && ps[i].top.id == top :: ps[i].mid.id
  }

  /** The folders the builders owe: fields from the first place, children counted. */
  ghost function TopFolder(ps: seq<Place>, id: string): Item
    requires TopSeen(ps, id)
  {
    FirstTop(ps, id).(childCount := |MidsUnder(ps, id)|)
  }

  ghost function MidFolder(ps: seq<Place>, id: string): Item
    requires MidSeen(ps, id)
  {
    FirstMid(ps, id).(childCount := |LeavesUnder(ps, id)|)
  }

  ghost predicate IsTop(ps: seq<Place>, x: Item) { TopSeen(ps, x.id) && x == TopFolder(ps, x.id) }
  ghost predicate IsMid(ps: seq<Place>, x: Item) { MidSeen(ps, x.id) && x == MidFolder(ps, x.id) }
  ghost predicate IsLeaf(ps: seq<Place>, x: Item) { exists i :: 0 <= i < |ps| && x == ps[i].leaf }

  /** Every folder and every leaf, once each, in some order. */
  ghost predicate IsForest(ps: seq<Place>, out: seq<Item>) {
    Distinct(out) && forall x :: x in out <==> IsTop(ps, x) || IsMid(ps, x) || IsLeaf(ps, x)
  }

  /** What the ID functions guarantee about the places of one library. */
  ghost predicate WellPlaced(lib: string, ps: seq<Place>) {
    && (forall i :: 0 <= i < |ps| ==> Chained(lib, ps[i]))
    && LeavesDistinct(ps) && LevelsApart(ps) && MidsNest(ps)
  }

  ghost predicate Chained(lib: string, p: Place) {
    && p.top.childCount == 0 && p.mid.childCount == 0 && p.leaf.childCount == 0
    && p.top.parentId == lib && p.mid.parentId == p.top.id && p.leaf.parentId == p.mid.id
    && p.mid.groupId == p.top.id
    && p.top.libraryId == lib && p.mid.libraryId == lib && p.leaf.libraryId == lib
    && p.top.id != lib && p.mid.id != lib && p.leaf.id != lib
  }

  ghost predicate LeavesDistinct(ps: seq<Place>) {
    forall i, j :: 0 <= i < j < |ps| ==> ps[i].leaf.id != ps[j].leaf.id
  }

  ghost predicate LevelsApart(ps: seq<Place>) {
    forall i, j :: 0 <= i < |ps| && 0 <= j < |ps| ==>
      ps[i].top.id != ps[j].mid.id && ps[i].top.id != ps[j].leaf.id && ps[i].mid.id != ps[j].leaf.id
  }

  ghost predicate MidsNest(ps: seq<Place>) {
    forall i, j :: 0 <= i < |ps| && 0 <= j < |ps| && ps[i].mid.id == ps[j].mid.id ==> ps[i].top.id == ps[j].top.id
  }

  lemma TopsGrow(ps: seq<Place>, n: nat, id: string)
    requires n < |ps|
    ensures TopSeen(ps[..n + 1], id) <==> TopSeen(ps[..n], id) || id == ps[n].top.id
    ensures TopSeen(ps[..n + 1], id) ==>
      FirstTop(ps[..n + 1], id) == if TopSeen(ps[..n], id) then FirstTop(ps[..n], id) else ps[n].top
  {
    var p := ps[..n + 1];
    assert p[..n] == ps[..n] && p[n] == ps[n];
    if TopSeen(ps[..n], id) {
      var i :| 0 <= i < n && ps[..n][i].top.id == id;
      assert p[i].top.id == id;
    }
  }

  lemma MidsGrow(ps: seq<Place>, n: nat, id: string)
    requires n < |ps|
    ensures MidSeen(ps[..n + 1], id) <==> MidSeen(ps[..n], id) || id == ps[n].mid.id
    ensures MidSeen(ps[..n + 1], id) ==>
      FirstMid(ps[..n + 1], id) == if MidSeen(ps[..n], id) then FirstMid(ps[..n], id) else ps[n].mid
  {
    var p := ps[..n + 1];
    assert p[..n] == ps[..n] && p[n] == ps[n];
    if MidSeen(ps[..n], id) {
      var i :| 0 <= i < n && ps[..n][i].mid.id == id;
      assert p[i].mid.id == id;
    }
  }

  /** A further leaf adds one to its own folder and nothing to the others. */
  lemma LeavesGrow(ps: seq<Place>, n: nat, id: string)
    requires LeavesDistinct(ps) && n < |ps|
    ensures |LeavesUnder(ps[..n + 1], id)| == |LeavesUnder(ps[..n], id)| + if ps[n].mid.id == id then 1 else 0
    ensures !MidSeen(ps[..n], id) ==> |LeavesUnder(ps[..n], id)| == 0
  {
    LeavesNow(ps, n, id);
    LeafIsNew(ps, n, id);
    NoneUnder(ps[..n], id);
  }

  lemma LeafIsNew(ps: seq<Place>, n: nat, id: string)
    requires LeavesDistinct(ps) && n < |ps|
    ensures ps[n].leaf.id !in LeavesUnder(ps[..n], id)
  {
    assert forall i :: 0 <= i < n ==> ps[..n][i].leaf.id != ps[n].leaf.id;
  }

  lemma NoneUnder(ps: seq<Place>, id: string)
    ensures !MidSeen(ps, id) ==> LeavesUnder(ps, id) == {}
  {
    assert !MidSeen(ps, id) ==> forall x :: x !in LeavesUnder(ps, id);
  }

  lemma LeavesNow(ps: seq<Place>, n: nat, id: string)
    requires n < |ps|
    ensures LeavesUnder(ps[..n + 1], id)
         == LeavesUnder(ps[..n], id) + if ps[n].mid.id == id then {ps[n].leaf.id} else {}
  {
    assert ps[..n + 1][..n] == ps[..n];
  }

  lemma {:induction false} FirstMidFields(ps: seq<Place>, id: string)
    requires MidSeen(ps, id)
    ensures exists i :: 0 <= i < |ps| && ps[i].mid == FirstMid(ps, id) && ps[i].mid.id == id
    decreases ps
  {
    var n := |ps| - 1;
    assert forall k :: 0 <= k < n ==> ps[..n][k] == ps[k];
    if MidSeen(ps[..n], id) {
      FirstMidFields(ps[..n], id);
      var i :| 0 <= i < n && ps[..n][i].mid == FirstMid(ps[..n], id) && ps[..n][i].mid.id == id;
      assert ps[i].mid == FirstMid(ps, id);
    } else {
      assert ps[n].mid.id == id;
    }
  }

  lemma {:induction false} FirstTopFields(ps: seq<Place>, id: string)
    requires TopSeen(ps, id)
    ensures exists i :: 0 <= i < |ps| && ps[i].top == FirstTop(ps, id) && ps[i].top.id == id
    decreases ps
  {
    var n := |ps| - 1;
    assert forall k :: 0 <= k < n ==> ps[..n][k] == ps[k];
    if TopSeen(ps[..n], id) {
      FirstTopFields(ps[..n], id);
      var i :| 0 <= i < n && ps[..n][i].top == FirstTop(ps[..n], id) && ps[..n][i].top.id == id;
      assert ps[i].top == FirstTop(ps, id);
    } else {
      assert ps[n].top.id == id;
    }
  }

  /** The entries of the finished second-level map that name a top folder are the
      second-level folders under it. */
  lemma MidsByGroup(lib: string, ps: seq<Place>, mids: map<string, Item>, top: string)
    requires MidsNest(ps) && forall i :: 0 <= i < |ps| ==> Chained(lib, ps[i])
    requires MidsOk(ps, mids)
    ensures (set m | m in mids && mids[m].groupId == top) == MidsUnder(ps, top)
  {
    forall m ensures m in mids && mids[m].groupId == top <==> m in MidsUnder(ps, top) {
      assert MidOk(ps, mids, m);
      if m in mids {
        FirstMidFields(ps, m);
        var i :| 0 <= i < |ps| && ps[i].mid == FirstMid(ps, m) && ps[i].mid.id == m;
        assert ps[i].top.id == mids[m].groupId;
      }
    }
  }

  // ------------------------------------------------------------- the builders

  /** The loop that buildEpisodes and buildTracks share: it fills a map per folder
      level, counts children as it goes, and appends folders in map order. */
  method Grow(lib: string, ps: seq<Place>) returns (out: seq<Item>)
    requires WellPlaced(lib, ps)
    ensures IsForest(ps, out)
  {
    var tops: map<string, Item>, mids: map<string, Item>, leaves: seq<Item> := map[], map[], [];
    for n := 0 to |ps|
      invariant TopsOk(ps[..n], tops) && MidsOk(ps[..n], mids)
      invariant |leaves| == n && forall i :: 0 <= i < n ==> leaves[i] == ps[i].leaf
    {
      var p := ps[n];
      ghost var tops0, mids0 := tops, mids;
      if p.top.id !in tops {
        tops := tops[p.top.id := p.top];
      }
      if p.mid.id !in mids {
        mids := mids[p.mid.id := p.mid];
      }
      leaves := leaves + [p.leaf];
      mids := mids[p.mid.id := OneMore(mids[p.mid.id])];
      assert mids == mids0[p.mid.id := OneMore(if p.mid.id in mids0 then mids0[p.mid.id] else p.mid)];
      TopsStep(ps, n, tops0);
      MidsStep(lib, ps, n, mids0);
    }
    assert ps[..|ps|] == ps;
    tops := CountMids(lib, ps, tops, mids);
    out := Flatten(lib, ps, tops, mids, leaves);
  }

  /** `ChildCount++` */
  function OneMore(x: Item): Item { x.(childCount := x.childCount + 1) }

  ghost predicate TopOk(ps: seq<Place>, tops: map<string, Item>, id: string) {
    (id in tops <==> TopSeen(ps, id)) && (id in tops ==> tops[id] == FirstTop(ps, id))
  }

  ghost predicate MidOk(ps: seq<Place>, mids: map<string, Item>, id: string) {
    (id in mids <==> MidSeen(ps, id)) && (id in mids ==> mids[id] == MidFolder(ps, id))
  }

  ghost predicate TopsOk(ps: seq<Place>, tops: map<string, Item>) { forall id :: TopOk(ps, tops, id) }
  ghost predicate MidsOk(ps: seq<Place>, mids: map<string, Item>) { forall id :: MidOk(ps, mids, id) }

  lemma TopsStep(ps: seq<Place>, n: nat, tops: map<string, Item>)
    requires n < |ps| && TopsOk(ps[..n], tops)
    ensures TopsOk(ps[..n + 1], if ps[n].top.id in tops then tops else tops[ps[n].top.id := ps[n].top])
  {
    var q, after := ps[..n + 1], if ps[n].top.id in tops then tops else tops[ps[n].top.id := ps[n].top];
    forall id ensures TopOk(q, after, id) {
      TopsGrow(ps, n, id);
      assert TopOk(ps[..n], tops, id) && TopOk(ps[..n], tops, ps[n].top.id);
    }
  }

  lemma MidStep(lib: string, ps: seq<Place>, n: nat, mids: map<string, Item>, id: string)
    requires n < |ps| && LeavesDistinct(ps) && Chained(lib, ps[n])
    requires MidOk(ps[..n], mids, id) && MidOk(ps[..n], mids, ps[n].mid.id)
    ensures MidOk(ps[..n + 1],
      mids[ps[n].mid.id := OneMore(if ps[n].mid.id in mids then mids[ps[n].mid.id] else ps[n].mid)], id)
  {
    MidsGrow(ps, n, id);
    LeavesGrow(ps, n, id);
  }

  lemma MidsStep(lib: string, ps: seq<Place>, n: nat, mids: map<string, Item>)
    requires n < |ps| && LeavesDistinct(ps) && Chained(lib, ps[n]) && MidsOk(ps[..n], mids)
    ensures MidsOk(ps[..n + 1],
      mids[ps[n].mid.id := OneMore(if ps[n].mid.id in mids then mids[ps[n].mid.id] else ps[n].mid)])
  {
    var after := mids[ps[n].mid.id := OneMore(if ps[n].mid.id in mids then mids[ps[n].mid.id] else ps[n].mid)];
    var q := ps[..n + 1];
    forall id ensures MidOk(q, after, id) {
      assert MidOk(ps[..n], mids, id) && MidOk(ps[..n], mids, ps[n].mid.id);
      MidStep(lib, ps, n, mids, id);
    }
  }

  /** The counting loop: every second-level folder adds one to its top folder. */
  method CountMids(lib: string, ps: seq<Place>, from: map<string, Item>, mids: map<string, Item>)
    returns (tops: map<string, Item>)
    requires MidsNest(ps) && forall i :: 0 <= i < |ps| ==> Chained(lib, ps[i])
    requires TopsOk(ps, from) && MidsOk(ps, mids)
    ensures forall id :: (id in tops <==> TopSeen(ps, id)) && (id in tops ==> tops[id] == TopFolder(ps, id))
  {
    tops := from;
    CountsStartAtZero(lib, ps, from, mids);
    var todo := mids.Keys;
    while todo != {}
      invariant todo <= mids.Keys && tops.Keys == from.Keys
      invariant forall id :: id in tops ==> tops[id] == WithCount(from[id], mids, todo, id)
      decreases todo
    {
      var m :| m in todo;
      var top := mids[m].groupId;
      ghost var was := tops;
      if top in tops {
        tops := tops[top := OneMore(tops[top])];
      }
      forall id | id in tops ensures tops[id] == WithCount(from[id], mids, todo - {m}, id) {
        CountedStep(mids, todo, m, id);
        assert was[id] == WithCount(from[id], mids, todo, id);
      }
      todo := todo - {m};
    }
    CountsEndRight(lib, ps, from, mids);
  }

  ghost function WithCount(x: Item, mids: map<string, Item>, todo: set<string>, top: string): Item {
    x.(childCount := |Counted(mids, todo, top)|)
  }

  lemma CountsStartAtZero(lib: string, ps: seq<Place>, from: map<string, Item>, mids: map<string, Item>)
    requires TopsOk(ps, from) && forall i :: 0 <= i < |ps| ==> Chained(lib, ps[i])
    ensures forall id :: id in from ==> from[id] == WithCount(from[id], mids, mids.Keys, id)
  {
    forall id | id in from ensures from[id] == WithCount(from[id], mids, mids.Keys, id) {
      assert TopOk(ps, from, id);
      FirstTopFields(ps, id);
      assert Counted(mids, mids.Keys, id) == {};
    }
  }

  lemma CountsEndRight(lib: string, ps: seq<Place>, from: map<string, Item>, mids: map<string, Item>)
    requires MidsNest(ps) && forall i :: 0 <= i < |ps| ==> Chained(lib, ps[i])
    requires TopsOk(ps, from) && MidsOk(ps, mids)
    ensures forall id :: id in from <==> TopSeen(ps, id)
    ensures forall id :: id in from ==> WithCount(from[id], mids, {}, id) == TopFolder(ps, id)
  {
    assert forall id :: TopOk(ps, from, id) ==> (id in from <==> TopSeen(ps, id));
    forall id | id in from ensures WithCount(from[id], mids, {}, id) == TopFolder(ps, id) {
      assert TopOk(ps, from, id);
      MidsByGroup(lib, ps, mids, id);
      assert Counted(mids, {}, id) == set m | m in mids && mids[m].groupId == id;
    }
  }

  lemma CountedStep(mids: map<string, Item>, todo: set<string>, m: string, top: string)
    requires m in todo && m in mids
    ensures |Counted(mids, todo - {m}, top)| == |Counted(mids, todo, top)| + if mids[m].groupId == top then 1 else 0
  {
    assert Counted(mids, todo - {m}, top) == Counted(mids, todo, top) + (if mids[m].groupId == top then {m} else {});
  }

  ghost function Counted(mids: map<string, Item>, todo: set<string>, top: string): set<string> {
    set m | m in mids && m !in todo && mids[m].groupId == top
  }

  /** The items of a map, in the order a range loop happens to visit them. */
  method Values(m: map<string, Item>) returns (out: seq<Item>)
    requires forall id :: id in m ==> m[id].id == id
    ensures Distinct(out) && forall x :: x in out <==> x.id in m && m[x.id] == x
  {
    out := [];
    var todo := m.Keys;
    while todo != {}
      invariant todo <= m.Keys && Distinct(out)
      invariant forall x :: x in out <==> x.id in m && x.id !in todo && m[x.id] == x
      decreases todo
    {
      var k :| k in todo;
      assert m[k] !in out;
      out := out + [m[k]];
      todo := todo - {k};
    }
  }

  /** The items of the two maps and the leaves, in that order. */
  method Flatten(lib: string, ps: seq<Place>, tops: map<string, Item>, mids: map<string, Item>, leaves: seq<Item>)
    returns (out: seq<Item>)
    requires LeavesDistinct(ps) && LevelsApart(ps)
    requires forall id :: id in tops <==> TopSeen(ps, id)
    requires forall id :: id in tops ==> tops[id] == TopFolder(ps, id)
    requires MidsOk(ps, mids)
    requires |leaves| == |ps| && forall i :: 0 <= i < |ps| ==> leaves[i] == ps[i].leaf
    ensures IsForest(ps, out)
  {
    forall id | id in tops ensures tops[id].id == id { FirstTopFields(ps, id); }
    forall id | id in mids ensures mids[id].id == id {
      assert MidOk(ps, mids, id);
      FirstMidFields(ps, id);
    }
    var a := Values(tops);
    var b := Values(mids);
    out := a + b + leaves;
    forall x | x in b ensures MidSeen(ps, x.id) {
      assert MidOk(ps, mids, x.id);
    }
    LevelsDistinct(ps, a, b, leaves);
    Assembled(ps, tops, mids, a, b, leaves);
  }

  lemma Assembled(ps: seq<Place>, tops: map<string, Item>, mids: map<string, Item>, a: seq<Item>, b: seq<Item>,
                  leaves: seq<Item>)
    requires forall id :: id in tops <==> TopSeen(ps, id)
    requires forall id :: id in tops ==> tops[id] == TopFolder(ps, id)
    requires MidsOk(ps, mids)
    requires forall x :: x in a <==> x.id in tops && tops[x.id] == x
    requires forall x :: x in b <==> x.id in mids && mids[x.id] == x
    requires |leaves| == |ps| && forall i :: 0 <= i < |ps| ==> leaves[i] == ps[i].leaf
    ensures forall x :: x in a + b + leaves <==> IsTop(ps, x) || IsMid(ps, x) || IsLeaf(ps, x)
  {
    assert forall x :: x in a <==> IsTop(ps, x);
    forall x ensures x in b <==> IsMid(ps, x) {
      assert MidOk(ps, mids, x.id);
    }
    assert forall x :: x in leaves <==> IsLeaf(ps, x);
  }

  /** The three levels share no item. */
  lemma LevelsDistinct(ps: seq<Place>, a: seq<Item>, b: seq<Item>, leaves: seq<Item>)
    requires LeavesDistinct(ps) && LevelsApart(ps) && Distinct(a) && Distinct(b)
    requires forall x :: x in a ==> TopSeen(ps, x.id)
    requires forall x :: x in b ==> MidSeen(ps, x.id)
    requires |leaves| == |ps| && forall i :: 0 <= i < |ps| ==> leaves[i] == ps[i].leaf
    ensures Distinct(a + b + leaves)
  {
    var out := a + b + leaves;
    forall i, j | 0 <= i < j < |out| ensures out[i] != out[j] {
      assert i < |a| ==> a[i] in a && out[i] == a[i];
      assert |a| <= i < |a| + |b| ==> b[i - |a|] in b && out[i] == b[i - |a|];
      assert |a| <= j < |a| + |b| ==> b[j - |a|] in b && out[j] == b[j - |a|];
      assert |a| + |b| <= j ==> out[j] == ps[j - |a| - |b|].leaf;
      assert |a| + |b| <= i ==> out[i] == ps[i - |a| - |b|].leaf;
    }
  }
}
