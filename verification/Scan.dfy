/** internal/media/scan.go: from the files of a library to its sorted items. Names
    parsed from paths are inputs; artwork, sizes and dates are left out. */
module Scan {
  import opened Models
  import opened Keys
  import opened Text
  import opened MediaIds
  import opened Forest
  import opened Sorting

  // -------------------------------------------------- the items of one file

  /** A media file with what its path parses to: series, season, episode and
      title, or artist, album, track and title; and whether it is sound only. */
  datatype File = File(path: string, group: string, season: nat, album: string, number: nat, title: string, audio: bool)

  datatype LibraryType = Movies | TvShows | Music | Mixed

  function PlaceEpisode(e: Env, lib: string, f: File): Place {
    var sID := SeriesId(e, lib, f.group);
    var seID := SeasonId(e, sID, f.season);
    Place(
      Item(sID, lib, lib, f.group, e.lower(f.group), Series, "", 0, sID, "", 0, 0),
      Item(seID, lib, sID, "Season " + Itoa(f.season), ZeroPad(5, f.season), Season, "", 0, sID, "", f.season, 0),
      Item(ItemId(e, f.path), lib, seID, f.title, ZeroPad(5, f.number), Episode, f.path, 0, sID, seID, f.number,
           f.season))
  }

  function PlaceTrack(e: Env, lib: string, f: File): Place {
    var aID := ArtistId(e, lib, f.group);
    var alID := AlbumId(e, aID, f.album);
    Place(
      Item(aID, lib, lib, f.group, e.lower(f.group), MusicArtist, "", 0, aID, "", 0, 0),
      Item(alID, lib, aID, f.album, e.lower(f.album), MusicAlbum, "", 0, aID, alID, 0, 0),
      Item(ItemId(e, f.path), lib, alID, f.title, ZeroPad(4, f.number), Audio, f.path, 0, aID, alID, f.number, 0))
  }

  /** itemTypeFor; Mixed stands for every other library type. */
  function ItemTypeFor(t: LibraryType, audio: bool): Kind {
    match t
    case Movies => Movie
    case TvShows => Episode
    case Music => Audio
    case Mixed => if audio then Audio else Video
  }

  function FlatItem(e: Env, lib: string, t: LibraryType, f: File): Item {
    Item(ItemId(e, f.path), lib, lib, f.title, e.lower(f.title), ItemTypeFor(t, f.audio), f.path, 0, "", "", 0, 0)
  }

  function FlatItems(e: Env, lib: string, t: LibraryType, files: seq<File>): (out: seq<Item>)
    ensures |out| == |files| && forall i :: 0 <= i < |files| ==> out[i] == FlatItem(e, lib, t, files[i])
  {
    seq(|files|, i requires 0 <= i < |files| => FlatItem(e, lib, t, files[i]))
  }

  function LibraryId(e: Env, root: string): string { e.hash("library" + [':'] + root) }

  ghost predicate DistinctPaths(files: seq<File>) {
    forall i, j :: 0 <= i < j < |files| ==> files[i].path != files[j].path
  }

  function Episodes(e: Env, lib: string, files: seq<File>): seq<Place> {
    seq(|files|, i requires 0 <= i < |files| => PlaceEpisode(e, lib, files[i]))
  }

  function Tracks(e: Env, lib: string, files: seq<File>): seq<Place> {
    seq(|files|, i requires 0 <= i < |files| => PlaceTrack(e, lib, files[i]))
  }

  lemma OriginsApart(e: Env, lib: string, o: Origin, o': Origin)
    requires Hashing(e) && ':' !in lib && o != o'
    ensures IdOf(e, lib, o) != IdOf(e, lib, o')
  {
    if IdOf(e, lib, o) == IdOf(e, lib, o') {
      SameIdSameOrigin(e, lib, o, lib, o');
    }
  }

  /** The folder that holds a second-level folder. */
  function GroupOf(mid: Origin): Origin
    requires mid.OfSeason? || mid.OfAlbum?
  {
    if mid.OfSeason? then OfSeries(mid.name) else OfArtist(mid.name)
  }

  /** The IDs of a place come from a second-level folder `mid` and a path, and its
      records are linked into a chain under the library. */
  ghost predicate Placed(e: Env, lib: string, p: Place, mid: Origin, path: string) {
    && (mid.OfSeason? || mid.OfAlbum?)
    && p.top.id == IdOf(e, lib, GroupOf(mid)) && p.mid.id == IdOf(e, lib, mid) && p.leaf.id == IdOf(e, lib, OfFile(path))
    && p.top.childCount == 0 && p.mid.childCount == 0 && p.leaf.childCount == 0
    && p.top.parentId == lib && p.mid.parentId == p.top.id && p.leaf.parentId == p.mid.id
    && p.mid.groupId == p.top.id
    && p.top.libraryId == lib && p.mid.libraryId == lib && p.leaf.libraryId == lib
  }

  lemma PlacedChains(e: Env, root: string, p: Place, mid: Origin, path: string)
    requires Hashing(e) && Placed(e, LibraryId(e, root), p, mid, path)
    ensures Chained(LibraryId(e, root), p)
  {
    var lib := LibraryId(e, root);
    assert lib == IdOf(e, lib, OfLibrary(root));
    OriginsApart(e, lib, OfLibrary(root), GroupOf(mid));
    OriginsApart(e, lib, OfLibrary(root), mid);
    OriginsApart(e, lib, OfLibrary(root), OfFile(path));
  }

  /** Two places do not clash: levels are apart, and a second-level folder has one
      parent. */
  ghost predicate Unlike(p: Place, p': Place) {
    && p.top.id != p'.mid.id && p.top.id != p'.leaf.id && p.mid.id != p'.leaf.id
    && (p.mid.id == p'.mid.id ==> p.top.id == p'.top.id)
  }

  lemma PairApart(e: Env, lib: string, p: Place, mid: Origin, path: string, p': Place, mid': Origin, path': string)
    requires Hashing(e) && ':' !in lib && Placed(e, lib, p, mid, path) && Placed(e, lib, p', mid', path')
    ensures Unlike(p, p')
    ensures path != path' ==> p.leaf.id != p'.leaf.id
  {
    OriginsApart(e, lib, GroupOf(mid), mid');
    OriginsApart(e, lib, GroupOf(mid), OfFile(path'));
    OriginsApart(e, lib, mid, OfFile(path'));
    if mid != mid' {
      OriginsApart(e, lib, mid, mid');
    }
    if path != path' {
      OriginsApart(e, lib, OfFile(path), OfFile(path'));
    }
  }

  lemma UnlikeWell(lib: string, ps: seq<Place>)
    requires forall i :: 0 <= i < |ps| ==> Chained(lib, ps[i])
    requires forall i, j :: 0 <= i < |ps| && 0 <= j < |ps| ==> Unlike(ps[i], ps[j])
    requires forall i, j :: 0 <= i < j < |ps| ==> ps[i].leaf.id != ps[j].leaf.id
    ensures WellPlaced(lib, ps)
  {
  }

  ghost predicate AllPlaced(e: Env, lib: string, ps: seq<Place>, mids: seq<Origin>, files: seq<File>)
    requires |ps| == |mids| == |files|
  {
    forall i :: 0 <= i < |ps| ==> Placed(e, lib, ps[i], mids[i], files[i].path)
  }

  lemma PlacesApart(e: Env, lib: string, ps: seq<Place>, mids: seq<Origin>, files: seq<File>, i: nat, j: nat)
    requires Hashing(e) && ':' !in lib && DistinctPaths(files) && |ps| == |mids| == |files| && i < |ps| && j < |ps|
    requires AllPlaced(e, lib, ps, mids, files)
    ensures Unlike(ps[i], ps[j])
    ensures i < j ==> ps[i].leaf.id != ps[j].leaf.id
  {
    PairApart(e, lib, ps[i], mids[i], files[i].path, ps[j], mids[j], files[j].path);
    assert i < j ==> files[i].path != files[j].path;
  }

  lemma LibraryIdPlain(e: Env, root: string)
    requires Hashing(e)
    ensures ':' !in LibraryId(e, root)
  {
  }

  /** Hashing keeps apart whatever the builders must not confuse. */
  lemma PlacesWell(e: Env, root: string, ps: seq<Place>, mids: seq<Origin>, files: seq<File>)
    requires Hashing(e) && DistinctPaths(files) && |ps| == |mids| == |files|
    requires AllPlaced(e, LibraryId(e, root), ps, mids, files)
    ensures WellPlaced(LibraryId(e, root), ps)
  {
    LibraryIdPlain(e, root);
    var lib := LibraryId(e, root);
    forall i | 0 <= i < |ps| ensures Chained(lib, ps[i]) {
      PlacedChains(e, root, ps[i], mids[i], files[i].path);
    }
    forall i, j | 0 <= i < |ps| && 0 <= j < |ps|
      ensures Unlike(ps[i], ps[j]) && (i < j ==> ps[i].leaf.id != ps[j].leaf.id)
    {
      PlacesApart(e, lib, ps, mids, files, i, j);
    }
    UnlikeWell(lib, ps);
  }

  lemma EpisodePlaced(e: Env, lib: string, f: File)
    ensures Placed(e, lib, PlaceEpisode(e, lib, f), OfSeason(e.lower(f.group), f.season), f.path)
  {
  }

  lemma TrackPlaced(e: Env, lib: string, f: File)
    ensures Placed(e, lib, PlaceTrack(e, lib, f), OfAlbum(e.lower(f.group), e.lower(f.album)), f.path)
  {
  }

  lemma EpisodesWellPlaced(e: Env, root: string, files: seq<File>)
    requires Hashing(e) && DistinctPaths(files)
    ensures WellPlaced(LibraryId(e, root), Episodes(e, LibraryId(e, root), files))
  {
    var lib, n := LibraryId(e, root), |files|;
    var mids := seq(n, i requires 0 <= i < n => OfSeason(e.lower(files[i].group), files[i].season));
    var ps := Episodes(e, lib, files);
    forall i | 0 <= i < n ensures Placed(e, lib, ps[i], mids[i], files[i].path) {
      EpisodePlaced(e, lib, files[i]);
    }
    PlacesWell(e, root, ps, mids, files);
  }

  lemma TracksWellPlaced(e: Env, root: string, files: seq<File>)
    requires Hashing(e) && DistinctPaths(files)
    ensures WellPlaced(LibraryId(e, root), Tracks(e, LibraryId(e, root), files))
  {
    var lib, n := LibraryId(e, root), |files|;
    var mids := seq(n, i requires 0 <= i < n => OfAlbum(e.lower(files[i].group), e.lower(files[i].album)));
    var ps := Tracks(e, lib, files);
    forall i | 0 <= i < n ensures Placed(e, lib, ps[i], mids[i], files[i].path) {
      TrackPlaced(e, lib, files[i]);
    }
    PlacesWell(e, root, ps, mids, files);
  }

  // ------------------------------------------------------------- the builders

  method BuildEpisodes(e: Env, root: string, files: seq<File>) returns (out: seq<Item>)
    requires Hashing(e) && DistinctPaths(files)
    ensures IsForest(Episodes(e, LibraryId(e, root), files), out)
  {
    EpisodesWellPlaced(e, root, files);
    out := Grow(LibraryId(e, root), Episodes(e, LibraryId(e, root), files));
  }

  method BuildTracks(e: Env, root: string, files: seq<File>) returns (out: seq<Item>)
    requires Hashing(e) && DistinctPaths(files)
    ensures IsForest(Tracks(e, LibraryId(e, root), files), out)
  {
    TracksWellPlaced(e, root, files);
    out := Grow(LibraryId(e, root), Tracks(e, LibraryId(e, root), files));
  }

  method BuildFlat(e: Env, root: string, t: LibraryType, files: seq<File>) returns (out: seq<Item>)
    ensures out == FlatItems(e, LibraryId(e, root), t, files)
  {
    out := [];
    for i := 0 to |files|
      invariant out == FlatItems(e, LibraryId(e, root), t, files)[..i]
    {
      out := out + [FlatItem(e, LibraryId(e, root), t, files[i])];
    }
  }

  // ---------------------------------------------------- the order of the result

  /** The comparator of `sortItemsStable`: sort name, then ID. */
  predicate ItemLess(x: Item, y: Item) {
    if x.sortName != y.sortName then Less(x.sortName, y.sortName) else Less(x.id, y.id)
  }

  predicate ItemLe(x: Item, y: Item) { !ItemLess(y, x) }

  lemma ItemOrder()
    ensures Preorder(ItemLe)
  {
    forall x, y ensures ItemLe(x, y) || ItemLe(y, x) {
      LessTotal(x.sortName, y.sortName);
      LessTotal(x.id, y.id);
    }
    forall x, y, z | ItemLe(x, y) && ItemLe(y, z) ensures ItemLe(x, z) {
      ItemLeTransitive(x, y, z);
    }
  }

  lemma ItemLeTransitive(x: Item, y: Item, z: Item)
    requires ItemLe(x, y) && ItemLe(y, z)
    ensures ItemLe(x, z)
  {
    LessTotal(x.sortName, y.sortName);
    LessTotal(y.sortName, z.sortName);
    LeTransitive(x.sortName, y.sortName, z.sortName);
    LeTransitive(x.id, y.id, z.id);
  }

  lemma LeTransitive(a: string, b: string, c: string)
    ensures !Less(b, a) && !Less(c, b) ==> !Less(c, a) && (a == c ==> a == b)
  {
    LessTotal(a, b);
    LessTotal(b, c);
    LessTotal(a, c);
    if Less(a, b) && Less(b, c) {
      LessTransitive(a, b, c);
    }
  }

  lemma SameOrderSameItem(x: Item, y: Item)
    requires ItemLe(x, y) && ItemLe(y, x)
    ensures x.id == y.id
  {
    LessTotal(x.sortName, y.sortName);
    LessTotal(x.id, y.id);
  }

  /** No two items of a forest share an ID. */
  lemma ForestIdsDistinct(lib: string, ps: seq<Place>, out: seq<Item>, x: Item, y: Item)
    requires WellPlaced(lib, ps) && IsForest(ps, out) && x in out && y in out && x.id == y.id
    ensures x == y
  {
    if TopSeen(ps, x.id) {
      var i :| 0 <= i < |ps| && ps[i].top.id == x.id;
    }
    if MidSeen(ps, x.id) {
      var i :| 0 <= i < |ps| && ps[i].mid.id == x.id;
    }
  }

  /** The builders visit maps in an arbitrary order, yet the sorted result is
      determined by the files: any two sorted forests coincide. */
  lemma SortedForestUnique(lib: string, ps: seq<Place>, a: seq<Item>, b: seq<Item>)
    requires WellPlaced(lib, ps) && IsForest(ps, a) && IsForest(ps, b)
    requires SortedBy(a, ItemLe) && SortedBy(b, ItemLe)
    ensures a == b
  {
    ItemOrder();
    NoDuplicates(a);
    NoDuplicates(b);
    assert multiset(a) == multiset(b);
    forall x, y | x in a && y in a && ItemLe(x, y) && ItemLe(y, x) ensures x == y {
      SameOrderSameItem(x, y);
      ForestIdsDistinct(lib, ps, a, x, y);
    }
    SortedPermutationsCoincide(a, b, ItemLe);
  }

  lemma SortKeepsForest(ps: seq<Place>, out: seq<Item>)
    requires IsForest(ps, out)
    ensures IsForest(ps, Sort(out, ItemLe)) && SortedBy(Sort(out, ItemLe), ItemLe)
  {
    ItemOrder();
    SortCorrect(out, ItemLe);
    SortMembers(out, ItemLe);
    DistinctIfSameBag(out, Sort(out, ItemLe));
  }

  lemma DistinctIfSameBag<T>(a: seq<T>, b: seq<T>)
    requires Distinct(a) && multiset(a) == multiset(b)
    ensures Distinct(b)
  {
    NoDuplicates(a);
    forall i, j | 0 <= i < j < |b| ensures b[i] != b[j] {
      assert b == b[..i] + [b[i]] + b[i + 1..j] + [b[j]] + b[j + 1..];
      assert multiset(b)[b[i]] <= 1;
    }
  }

  /** `Scan` for a series library, after the files have been collected. */
  method ScanEpisodes(e: Env, root: string, files: seq<File>) returns (out: seq<Item>)
    requires Hashing(e) && DistinctPaths(files)
    ensures IsForest(Episodes(e, LibraryId(e, root), files), out) && SortedBy(out, ItemLe)
  {
    var items := BuildEpisodes(e, root, files);
    SortKeepsForest(Episodes(e, LibraryId(e, root), files), items);
    return Sort(items, ItemLe);
  }

  /** `Scan` for a music library. */
  method ScanTracks(e: Env, root: string, files: seq<File>) returns (out: seq<Item>)
    requires Hashing(e) && DistinctPaths(files)
    ensures IsForest(Tracks(e, LibraryId(e, root), files), out) && SortedBy(out, ItemLe)
  {
    var items := BuildTracks(e, root, files);
    SortKeepsForest(Tracks(e, LibraryId(e, root), files), items);
    return Sort(items, ItemLe);
  }

  /** `Scan` for every other library. */
  method ScanFlat(e: Env, root: string, t: LibraryType, files: seq<File>) returns (out: seq<Item>)
    ensures multiset(out) == multiset(FlatItems(e, LibraryId(e, root), t, files)) && SortedBy(out, ItemLe)
  {
    var items := BuildFlat(e, root, t, files);
    ItemOrder();
    SortCorrect(items, ItemLe);
    return Sort(items, ItemLe);
  }

  /** What `Scan` owes for a library of type t. */
  ghost predicate IsScanResult(e: Env, root: string, t: LibraryType, files: seq<File>, out: seq<Item>) {
    && SortedBy(out, ItemLe)
    && match t
       case TvShows => IsForest(Episodes(e, LibraryId(e, root), files), out)
       case Music => IsForest(Tracks(e, LibraryId(e, root), files), out)
       case _ => multiset(out) == multiset(FlatItems(e, LibraryId(e, root), t, files))
  }

  /** `Scan`, after the files have been collected. */
  method ScanLibrary(e: Env, root: string, t: LibraryType, files: seq<File>) returns (out: seq<Item>)
    requires Hashing(e) && DistinctPaths(files)
    ensures IsScanResult(e, root, t, files, out)
  {
    match t
    case TvShows => out := ScanEpisodes(e, root, files);
    case Music => out := ScanTracks(e, root, files);
    case _ => out := ScanFlat(e, root, t, files);
  }
}
