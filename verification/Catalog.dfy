/** End to end: scans feed the store, and in every state a run of scans can reach
    the store's listings agree with the counters the scans computed. */
module Catalog {
  import opened Wrappers
  import opened Models
  import opened Keys
  import opened MediaIds
  import opened Forest
  import opened Scan
  import Sorting
  import J = JsonStore
  import S = Simulation

  // -------------------------------------------- what a scan promises the store

  ghost predicate IdFrom(e: Env, lib: string, paths: set<string>, o: Origin, id: string) {
    id == IdOf(e, lib, o) && !o.OfLibrary? && (o.OfFile? ==> o.path in paths)
  }

  ghost predicate FolderFrom(e: Env, lib: string, o: Origin, id: string) {
    id == IdOf(e, lib, o) && !o.OfLibrary? && !o.OfFile?
  }

  /** The item's ID derives from the library or one of its files, and its parent
      is the library or one of the library's folders. */
  ghost predicate FromLibrary(e: Env, lib: string, paths: set<string>, x: Item) {
    && x.libraryId == lib
    && (exists o :: IdFrom(e, lib, paths, o, x.id))
    && (x.parentId == lib || exists o :: FolderFrom(e, lib, o, x.parentId))
  }

  ghost function KidsOf(out: seq<Item>, id: string): set<string> {
    set x | x in out && x.parentId == id :: x.id
  }

  /** IDs are distinct, every parent is the library or an emitted folder, and
      every item's ChildCount is the number of items filed under it. */
  ghost predicate Scanned(e: Env, root: string, paths: set<string>, out: seq<Item>) {
    var lib := LibraryId(e, root);
    && (forall i, j :: 0 <= i < j < |out| ==> out[i].id != out[j].id)
    && (forall x :: x in out ==> FromLibrary(e, lib, paths, x))
    && (forall x :: x in out && x.parentId != lib ==> exists y :: y in out && y.id == x.parentId)
    && forall x :: x in out ==> |KidsOf(out, x.id)| == x.childCount
  }

  // ------------------------------------------------------- the forests comply

  /** Where an item of a forest is filed. */
  lemma Filed(lib: string, ps: seq<Place>, y: Item)
    requires forall i :: 0 <= i < |ps| ==> Chained(lib, ps[i])
    requires IsTop(ps, y) || IsMid(ps, y) || IsLeaf(ps, y)
    ensures y.parentId == lib || y.id in MidsUnder(ps, y.parentId) || y.id in LeavesUnder(ps, y.parentId)
  {
    if IsTop(ps, y) {
      FirstTopFields(ps, y.id);
      var i :| 0 <= i < |ps| && ps[i].top == FirstTop(ps, y.id) && ps[i].top.id == y.id;
      assert Chained(lib, ps[i]);
    } else if IsMid(ps, y) {
      FirstMidFields(ps, y.id);
      var i :| 0 <= i < |ps| && ps[i].mid == FirstMid(ps, y.id) && ps[i].mid.id == y.id;
      assert Chained(lib, ps[i]);
    } else {
      var i :| 0 <= i < |ps| && y == ps[i].leaf;
      assert Chained(lib, ps[i]);
    }
  }

  /** What the map levels file under an ID is what the forest files under it. */
  lemma KidsAre(lib: string, ps: seq<Place>, out: seq<Item>, id: string)
    requires WellPlaced(lib, ps) && IsForest(ps, out) && id != lib
    ensures KidsOf(out, id) == MidsUnder(ps, id) + LeavesUnder(ps, id)
  {
    forall k | k in KidsOf(out, id) ensures k in MidsUnder(ps, id) + LeavesUnder(ps, id) {
      var y :| y in out && y.parentId == id && y.id == k;
      Filed(lib, ps, y);
    }
    forall k | k in MidsUnder(ps, id) ensures k in KidsOf(out, id) {
      var i :| 0 <= i < |ps| && ps[i].top.id == id && ps[i].mid.id == k;
      FirstMidFields(ps, k);
      var j :| 0 <= j < |ps| && ps[j].mid == FirstMid(ps, k) && ps[j].mid.id == k;
      assert Chained(lib, ps[j]);
      assert ps[i].mid.id == ps[j].mid.id;
      assert IsMid(ps, MidFolder(ps, k));
    }
    forall k | k in LeavesUnder(ps, id) ensures k in KidsOf(out, id) {
      var i :| 0 <= i < |ps| && ps[i].mid.id == id && ps[i].leaf.id == k;
      assert Chained(lib, ps[i]);
      assert IsLeaf(ps, ps[i].leaf);
    }
  }

  lemma LevelsEmpty(lib: string, ps: seq<Place>, i: nat)
    requires WellPlaced(lib, ps) && i < |ps|
    ensures LeavesUnder(ps, ps[i].top.id) == {} && MidsUnder(ps, ps[i].mid.id) == {}
    ensures LeavesUnder(ps, ps[i].leaf.id) == {} && MidsUnder(ps, ps[i].leaf.id) == {}
    ensures lib != ps[i].top.id && lib != ps[i].mid.id && lib != ps[i].leaf.id && ps[i].leaf.childCount == 0
  {
    assert Chained(lib, ps[i]);
    assert forall j :: 0 <= j < |ps| ==>
      ps[i].top.id != ps[j].mid.id && ps[j].top.id != ps[i].mid.id
      && ps[j].mid.id != ps[i].leaf.id && ps[j].top.id != ps[i].leaf.id;
  }

  lemma KidsOfTop(lib: string, ps: seq<Place>, out: seq<Item>, id: string)
    requires WellPlaced(lib, ps) && IsForest(ps, out) && TopSeen(ps, id)
    ensures KidsOf(out, id) == MidsUnder(ps, id)
  {
    var i :| 0 <= i < |ps| && ps[i].top.id == id;
    LevelsEmpty(lib, ps, i);
    KidsAre(lib, ps, out, id);
  }

  lemma KidsOfMid(lib: string, ps: seq<Place>, out: seq<Item>, id: string)
    requires WellPlaced(lib, ps) && IsForest(ps, out) && MidSeen(ps, id)
    ensures KidsOf(out, id) == LeavesUnder(ps, id)
  {
    var i :| 0 <= i < |ps| && ps[i].mid.id == id;
    LevelsEmpty(lib, ps, i);
    KidsAre(lib, ps, out, id);
  }

  lemma LeafCount(lib: string, ps: seq<Place>, out: seq<Item>, x: Item)
    requires WellPlaced(lib, ps) && IsForest(ps, out) && IsLeaf(ps, x)
    ensures |KidsOf(out, x.id)| == x.childCount
  {
    var i :| 0 <= i < |ps| && ps[i].leaf == x;
    LevelsEmpty(lib, ps, i);
    KidsAre(lib, ps, out, x.id);
    assert KidsOf(out, x.id) == {};
  }

  /** In a grown forest every counter is right. */
  lemma ForestCounts(lib: string, ps: seq<Place>, out: seq<Item>, x: Item)
    requires WellPlaced(lib, ps) && IsForest(ps, out) && x in out
    ensures |KidsOf(out, x.id)| == x.childCount
  {
    if IsTop(ps, x) {
      KidsOfTop(lib, ps, out, x.id);
    } else if IsMid(ps, x) {
      KidsOfMid(lib, ps, out, x.id);
    } else {
      LeafCount(lib, ps, out, x);
    }
  }

  ghost predicate AllPlaced(e: Env, root: string, ps: seq<Place>, mids: seq<Origin>, files: seq<File>) {
    && |ps| == |mids| == |files|
    && forall i :: 0 <= i < |ps| ==> Placed(e, LibraryId(e, root), ps[i], mids[i], files[i].path)
  }

  function Paths(files: seq<File>): set<string> { set i | 0 <= i < |files| :: files[i].path }

  lemma ForestOrigin(e: Env, root: string, ps: seq<Place>, mids: seq<Origin>, files: seq<File>, out: seq<Item>, x: Item)
    requires Hashing(e) && AllPlaced(e, root, ps, mids, files) && IsForest(ps, out) && x in out
    ensures FromLibrary(e, LibraryId(e, root), Paths(files), x)
    ensures x.parentId != LibraryId(e, root) ==> exists y :: y in out && y.id == x.parentId
  {
    var lib := LibraryId(e, root);
    if IsTop(ps, x) {
      FirstTopFields(ps, x.id);
      var i :| 0 <= i < |ps| && ps[i].top == FirstTop(ps, x.id) && ps[i].top.id == x.id;
      assert Placed(e, lib, ps[i], mids[i], files[i].path);
      assert IdFrom(e, lib, Paths(files), GroupOf(mids[i]), x.id);
    } else if IsMid(ps, x) {
      FirstMidFields(ps, x.id);
      var i :| 0 <= i < |ps| && ps[i].mid == FirstMid(ps, x.id) && ps[i].mid.id == x.id;
      assert Placed(e, lib, ps[i], mids[i], files[i].path);
      assert IdFrom(e, lib, Paths(files), mids[i], x.id);
      assert FolderFrom(e, lib, GroupOf(mids[i]), x.parentId);
      assert TopSeen(ps, x.parentId);
      FirstTopFields(ps, x.parentId);
      assert IsTop(ps, TopFolder(ps, x.parentId));
    } else {
      var i :| 0 <= i < |ps| && x == ps[i].leaf;
      assert Placed(e, lib, ps[i], mids[i], files[i].path);
      assert IdFrom(e, lib, Paths(files), OfFile(files[i].path), x.id);
      assert FolderFrom(e, lib, mids[i], x.parentId);
      assert MidSeen(ps, x.parentId);
      FirstMidFields(ps, x.parentId);
      assert IsMid(ps, MidFolder(ps, x.parentId));
    }
  }

  lemma ForestScanned(e: Env, root: string, ps: seq<Place>, mids: seq<Origin>, files: seq<File>, out: seq<Item>)
    requires Hashing(e) && DistinctPaths(files) && AllPlaced(e, root, ps, mids, files) && IsForest(ps, out)
    ensures Scanned(e, root, Paths(files), out)
  {
    var lib := LibraryId(e, root);
    PlacesWell(e, root, ps, mids, files);
    forall x | x in out
      ensures FromLibrary(e, lib, Paths(files), x) && |KidsOf(out, x.id)| == x.childCount
      ensures x.parentId != lib ==> exists y :: y in out && y.id == x.parentId
    {
      ForestOrigin(e, root, ps, mids, files, out, x);
      ForestCounts(lib, ps, out, x);
    }
    forall i, j | 0 <= i < j < |out| ensures out[i].id != out[j].id {
      if out[i].id == out[j].id {
        ForestIdsDistinct(lib, ps, out, out[i], out[j]);
      }
    }
  }

  lemma EpisodesPlaced(e: Env, root: string, files: seq<File>) returns (mids: seq<Origin>)
    ensures AllPlaced(e, root, Episodes(e, LibraryId(e, root), files), mids, files)
  {
    var lib, n := LibraryId(e, root), |files|;
    mids := seq(n, i requires 0 <= i < n => OfSeason(e.lower(files[i].group), files[i].season));
    forall i | 0 <= i < n ensures Placed(e, lib, Episodes(e, lib, files)[i], mids[i], files[i].path) {
      EpisodePlaced(e, lib, files[i]);
    }
  }

  lemma TracksPlaced(e: Env, root: string, files: seq<File>) returns (mids: seq<Origin>)
    ensures AllPlaced(e, root, Tracks(e, LibraryId(e, root), files), mids, files)
  {
    var lib, n := LibraryId(e, root), |files|;
    mids := seq(n, i requires 0 <= i < n => OfAlbum(e.lower(files[i].group), e.lower(files[i].album)));
    forall i | 0 <= i < n ensures Placed(e, lib, Tracks(e, lib, files)[i], mids[i], files[i].path) {
      TrackPlaced(e, lib, files[i]);
    }
  }

  lemma EpisodesScanned(e: Env, root: string, files: seq<File>, out: seq<Item>)
    requires Hashing(e) && DistinctPaths(files) && IsForest(Episodes(e, LibraryId(e, root), files), out)
    ensures Scanned(e, root, Paths(files), out)
  {
    var mids := EpisodesPlaced(e, root, files);
    ForestScanned(e, root, Episodes(e, LibraryId(e, root), files), mids, files, out);
  }

  lemma TracksScanned(e: Env, root: string, files: seq<File>, out: seq<Item>)
    requires Hashing(e) && DistinctPaths(files) && IsForest(Tracks(e, LibraryId(e, root), files), out)
    ensures Scanned(e, root, Paths(files), out)
  {
    var mids := TracksPlaced(e, root, files);
    ForestScanned(e, root, Tracks(e, LibraryId(e, root), files), mids, files, out);
  }

  lemma FlatDistinct(e: Env, root: string, t: LibraryType, files: seq<File>)
    requires Hashing(e) && DistinctPaths(files)
    ensures var items := FlatItems(e, LibraryId(e, root), t, files);
      forall i, j :: 0 <= i < j < |items| ==> items[i].id != items[j].id
  {
    LibraryIdPlain(e, root);
    forall i, j | 0 <= i < j < |files|
      ensures FlatItem(e, LibraryId(e, root), t, files[i]).id != FlatItem(e, LibraryId(e, root), t, files[j]).id
    {
      OriginsApart(e, LibraryId(e, root), OfFile(files[i].path), OfFile(files[j].path));
    }
  }

  lemma FlatOrigin(e: Env, root: string, t: LibraryType, files: seq<File>, i: nat)
    requires Hashing(e) && DistinctPaths(files) && i < |files|
    ensures var x := FlatItem(e, LibraryId(e, root), t, files[i]);
      FromLibrary(e, LibraryId(e, root), Paths(files), x) && x.id != LibraryId(e, root)
  {
    var lib := LibraryId(e, root);
    LibraryIdPlain(e, root);
    assert lib == IdOf(e, lib, OfLibrary(root));
    assert IdFrom(e, lib, Paths(files), OfFile(files[i].path), FlatItem(e, lib, t, files[i]).id);
    OriginsApart(e, lib, OfLibrary(root), OfFile(files[i].path));
  }

  lemma SameBagMembers<T>(a: seq<T>, b: seq<T>)
    requires multiset(a) == multiset(b)
    ensures forall x :: x in a <==> x in b
  {
    assert forall x :: x in a <==> x in multiset(a);
    assert forall x :: x in b <==> x in multiset(b);
  }

  lemma DistinctIds(a: seq<Item>, b: seq<Item>)
    requires multiset(a) == multiset(b)
    requires forall i, j :: 0 <= i < j < |a| ==> a[i].id != a[j].id
    ensures forall i, j :: 0 <= i < j < |b| ==> b[i].id != b[j].id
  {
    SameBagMembers(a, b);
    assert forall i, j :: 0 <= i < j < |a| ==> a[i] != a[j];
    DistinctIfSameBag(a, b);
    forall i, j | 0 <= i < j < |b| ensures b[i].id != b[j].id {
      assert b[i] in b && b[j] in b && b[i] != b[j];
    }
  }

  /** A flat listing, whose items are all leaves under the library. */
  lemma FlatScanned(e: Env, root: string, t: LibraryType, files: seq<File>, out: seq<Item>)
    requires Hashing(e) && DistinctPaths(files)
    requires multiset(out) == multiset(FlatItems(e, LibraryId(e, root), t, files))
    ensures Scanned(e, root, Paths(files), out)
  {
    var items := FlatItems(e, LibraryId(e, root), t, files);
    FlatDistinct(e, root, t, files);
    DistinctIds(items, out);
    SameBagMembers(items, out);
    forall x | x in out
      ensures FromLibrary(e, LibraryId(e, root), Paths(files), x) && x.parentId == LibraryId(e, root)
      ensures x.id != LibraryId(e, root) && x.childCount == 0
    {
      var i :| 0 <= i < |items| && items[i] == x;
      FlatOrigin(e, root, t, files, i);
    }
    forall x | x in out ensures KidsOf(out, x.id) == {} {
    }
  }

  /** Whatever the library's type, a scan's items have distinct IDs, emitted parents
      and exact child counts. */
  lemma ScanScanned(e: Env, root: string, t: LibraryType, files: seq<File>, out: seq<Item>)
    requires Hashing(e) && DistinctPaths(files) && IsScanResult(e, root, t, files, out)
    ensures Scanned(e, root, Paths(files), out)
  {
    match t
    case TvShows => EpisodesScanned(e, root, files, out);
    case Music => TracksScanned(e, root, files, out);
    case _ => FlatScanned(e, root, t, files, out);
  }

  // -------------------------------------------------------- one item for each file

  ghost predicate HasItem(out: seq<Item>, path: string) { exists x :: x in out && x.path == path }

  /** Every file has exactly one item with its path, and nothing else has a path. */
  ghost predicate OneItemEach(files: seq<File>, out: seq<Item>) {
    && (forall i :: 0 <= i < |files| ==> HasItem(out, files[i].path))
    && (forall x, y :: x in out && y in out && x.path == y.path != "" ==> x == y)
    && forall x :: x in out && x.path != "" ==> exists i :: 0 <= i < |files| && files[i].path == x.path
  }

  /** Only leaves have paths, each its file's. */
  ghost predicate LeavesHavePaths(ps: seq<Place>, files: seq<File>) {
    && |ps| == |files|
    && forall k :: 0 <= k < |ps| ==> ps[k].leaf.path == files[k].path && ps[k].top.path == "" && ps[k].mid.path == ""
  }

  lemma PathOfLeaf(ps: seq<Place>, files: seq<File>, out: seq<Item>, x: Item)
    requires IsForest(ps, out) && LeavesHavePaths(ps, files) && x in out && x.path != ""
    ensures exists k :: 0 <= k < |ps| && x == ps[k].leaf && x.path == files[k].path
  {
    if IsTop(ps, x) {
      FirstTopFields(ps, x.id);
    } else if IsMid(ps, x) {
      FirstMidFields(ps, x.id);
    } else {
      var k :| 0 <= k < |ps| && x == ps[k].leaf;
    }
  }

  /** `x` is the item of the k-th file. */
  ghost predicate ItemOf(leaves: seq<Item>, files: seq<File>, x: Item, k: int) {
    0 <= k < |files| && k < |leaves| && x == leaves[k] && x.path == files[k].path
  }

  lemma OneEach(leaves: seq<Item>, files: seq<File>, out: seq<Item>)
    requires DistinctPaths(files) && |leaves| == |files|
    requires forall i :: 0 <= i < |files| ==> leaves[i] in out && leaves[i].path == files[i].path
    requires forall x :: x in out && x.path != "" ==> exists k :: ItemOf(leaves, files, x, k)
    ensures OneItemEach(files, out)
  {
    forall i | 0 <= i < |files| ensures HasItem(out, files[i].path) {
      assert leaves[i] in out;
    }
    forall x, y | x in out && y in out && x.path == y.path != "" ensures x == y {
      var k :| ItemOf(leaves, files, x, k);
      var l :| ItemOf(leaves, files, y, l);
    }
    forall x | x in out && x.path != "" ensures exists i :: 0 <= i < |files| && files[i].path == x.path {
      var k :| ItemOf(leaves, files, x, k);
      assert files[k].path == x.path;
    }
  }

  lemma OneLeafPerFile(ps: seq<Place>, files: seq<File>, out: seq<Item>)
    requires DistinctPaths(files) && IsForest(ps, out) && LeavesHavePaths(ps, files)
    ensures OneItemEach(files, out)
  {
    var leaves := seq(|ps|, k requires 0 <= k < |ps| => ps[k].leaf);
    forall i | 0 <= i < |files| ensures leaves[i] in out {
      assert IsLeaf(ps, ps[i].leaf);
    }
    forall x | x in out && x.path != "" ensures exists k :: ItemOf(leaves, files, x, k) {
      PathOfLeaf(ps, files, out, x);
      var k :| 0 <= k < |ps| && x == ps[k].leaf && x.path == files[k].path;
      assert ItemOf(leaves, files, x, k);
    }
    OneEach(leaves, files, out);
  }

  lemma FlatOneEach(e: Env, root: string, t: LibraryType, files: seq<File>, out: seq<Item>)
    requires DistinctPaths(files) && multiset(out) == multiset(FlatItems(e, LibraryId(e, root), t, files))
    ensures OneItemEach(files, out)
  {
    var items := FlatItems(e, LibraryId(e, root), t, files);
    SameBagMembers(items, out);
    forall x | x in out ensures exists k :: ItemOf(items, files, x, k) {
      var k :| 0 <= k < |items| && x == items[k];
      assert ItemOf(items, files, x, k);
    }
    forall i | 0 <= i < |files| ensures items[i] in out && items[i].path == files[i].path {
      assert items[i] in items;
    }
    OneEach(items, files, out);
  }

  /** Whatever the library's type, a scan has exactly one item for each file, and no
      other item has a path. */
  lemma OneItemPerFile(e: Env, root: string, t: LibraryType, files: seq<File>, out: seq<Item>)
    requires DistinctPaths(files) && IsScanResult(e, root, t, files, out)
    ensures OneItemEach(files, out)
  {
    match t
    case TvShows => OneLeafPerFile(Episodes(e, LibraryId(e, root), files), files, out);
    case Music => OneLeafPerFile(Tracks(e, LibraryId(e, root), files), files, out);
    case _ => FlatOneEach(e, root, t, files, out);
  }

  /** And the result is determined by the files, flat lists included. */
  lemma ScanDetermined(e: Env, root: string, t: LibraryType, files: seq<File>, a: seq<Item>, b: seq<Item>)
    requires Hashing(e) && DistinctPaths(files)
    requires IsScanResult(e, root, t, files, a) && IsScanResult(e, root, t, files, b)
    ensures a == b
  {
    match t
    case TvShows =>
      EpisodesWellPlaced(e, root, files);
      SortedForestUnique(LibraryId(e, root), Episodes(e, LibraryId(e, root), files), a, b);
    case Music =>
      TracksWellPlaced(e, root, files);
      SortedForestUnique(LibraryId(e, root), Tracks(e, LibraryId(e, root), files), a, b);
    case _ =>
      FlatDistinct(e, root, t, files);
      DistinctIds(FlatItems(e, LibraryId(e, root), t, files), a);
      ItemOrder();
      forall x, y | x in a && y in a && ItemLe(x, y) && ItemLe(y, x) ensures x == y {
        SameOrderSameItem(x, y);
      }
      Sorting.SortedPermutationsCoincide(a, b, ItemLe);
  }
}
