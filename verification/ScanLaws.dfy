/** What the items of a scan (internal/media/scan.go) say of the files they come from,
    field by field, and the order they are in. */
module ScanLaws {
  import opened Models
  import opened Keys
  import opened Text
  import opened MediaIds
  import opened Forest
  import opened Scan
  import opened Catalog
  import Sorting

  // ------------------------------------------------------------------ the IDs

  function SeriesKey(e: Env, lib: string, f: File): string { e.hash("series:" + lib + ":" + e.lower(f.group)) }

  function SeasonKey(e: Env, lib: string, f: File): string {
    e.hash("season:" + SeriesKey(e, lib, f) + ":" + Itoa(f.season))
  }

  function ArtistKey(e: Env, lib: string, f: File): string { e.hash("artist:" + lib + ":" + e.lower(f.group)) }

  function AlbumKey(e: Env, lib: string, f: File): string {
    e.hash("album:" + ArtistKey(e, lib, f) + ":" + e.lower(f.album))
  }

  lemma Tagged(tag: string, a: string, b: string)
    ensures tag + [':'] + (a + [':'] + b) == tag + [':'] + a + ":" + b
  {
  }

  lemma SeriesKeys(e: Env, lib: string, f: File)
    ensures SeriesKey(e, lib, f) == SeriesId(e, lib, f.group)
    ensures SeasonKey(e, lib, f) == SeasonId(e, SeriesId(e, lib, f.group), f.season)
  {
    assert "series:" == "series" + [':'] && "season:" == "season" + [':'];
    Tagged("series", lib, e.lower(f.group));
    Tagged("season", SeriesKey(e, lib, f), Itoa(f.season));
  }

  lemma ArtistKeys(e: Env, lib: string, f: File)
    ensures ArtistKey(e, lib, f) == ArtistId(e, lib, f.group)
    ensures AlbumKey(e, lib, f) == AlbumId(e, ArtistId(e, lib, f.group), f.album)
  {
    assert "artist:" == "artist" + [':'] && "album:" == "album" + [':'];
    Tagged("artist", lib, e.lower(f.group));
    Tagged("album", ArtistKey(e, lib, f), e.lower(f.album));
  }

  // ---------------------------------------------------------- the items of a file

  /** A folder has no file and no number of a parent. */
  predicate Folder(x: Item, lib: string) { x.libraryId == lib && x.path == "" && x.parentNumber == 0 }

  /** A file's item has the file's path and title, and no children. */
  predicate Leaf(e: Env, lib: string, f: File, x: Item) {
    && x.libraryId == lib && x.path == f.path && x.id == e.hash("item:" + f.path) && x.name == f.title
    && x.childCount == 0
  }

  predicate SeriesOf(e: Env, lib: string, f: File, x: Item) {
    && Folder(x, lib) && x.kind == Series && x.id == SeriesKey(e, lib, f) && x.parentId == lib
    && x.name == f.group && x.sortName == e.lower(f.group)
    && x.groupId == x.id && x.subId == "" && x.number == 0
  }

  predicate SeasonOf(e: Env, lib: string, f: File, x: Item) {
    && Folder(x, lib) && x.kind == Season && x.id == SeasonKey(e, lib, f) && x.parentId == SeriesKey(e, lib, f)
    && x.name == "Season " + Itoa(f.season) && Padded(x.sortName, 5, f.season)
    && x.groupId == x.parentId && x.subId == "" && x.number == f.season
  }

  predicate EpisodeOf(e: Env, lib: string, f: File, x: Item) {
    && Leaf(e, lib, f, x) && x.kind == Episode && x.parentId == SeasonKey(e, lib, f)
    && Padded(x.sortName, 5, f.number)
    && x.groupId == SeriesKey(e, lib, f) && x.subId == x.parentId && x.number == f.number && x.parentNumber == f.season
  }

  predicate ArtistOf(e: Env, lib: string, f: File, x: Item) {
    && Folder(x, lib) && x.kind == MusicArtist && x.id == ArtistKey(e, lib, f) && x.parentId == lib
    && x.name == f.group && x.sortName == e.lower(f.group)
    && x.groupId == x.id && x.subId == "" && x.number == 0
  }

  predicate AlbumOf(e: Env, lib: string, f: File, x: Item) {
    && Folder(x, lib) && x.kind == MusicAlbum && x.id == AlbumKey(e, lib, f) && x.parentId == ArtistKey(e, lib, f)
    && x.name == f.album && x.sortName == e.lower(f.album)
    && x.groupId == x.parentId && x.subId == x.id && x.number == 0
  }

  predicate TrackOf(e: Env, lib: string, f: File, x: Item) {
    && Leaf(e, lib, f, x) && x.kind == Audio && x.parentId == AlbumKey(e, lib, f)
    && Padded(x.sortName, 4, f.number)
    && x.groupId == ArtistKey(e, lib, f) && x.subId == x.parentId && x.number == f.number && x.parentNumber == 0
  }

  /** A film library has films; any other flat one has sound and pictures. */
  predicate FlatOf(e: Env, lib: string, t: LibraryType, f: File, x: Item) {
    && Leaf(e, lib, f, x) && x.parentId == lib && x.sortName == e.lower(f.title)
    && x.kind == (if t == Movies then Movie else if f.audio then Audio else Video)
    && x.groupId == "" && x.subId == "" && x.number == 0 && x.parentNumber == 0
  }

  // ------------------------------------------------- first-level and second-level

  /** No file before the k-th calls for its series (or artist). */
  ghost predicate FirstOfGroup(e: Env, files: seq<File>, k: int) {
    0 <= k < |files| && forall j :: 0 <= j < k ==> e.lower(files[j].group) != e.lower(files[k].group)
  }

  ghost predicate FirstOfSeason(e: Env, files: seq<File>, k: int) {
    && 0 <= k < |files|
    && forall j :: 0 <= j < k ==>
         e.lower(files[j].group) != e.lower(files[k].group) || files[j].season != files[k].season
  }

  ghost predicate FirstOfAlbum(e: Env, files: seq<File>, k: int) {
    && 0 <= k < |files|
    && forall j :: 0 <= j < k ==>
         e.lower(files[j].group) != e.lower(files[k].group) || e.lower(files[j].album) != e.lower(files[k].album)
  }

  /** The k-th file is the first to call for `x`. */
  ghost predicate CalledBy(e: Env, lib: string, t: LibraryType, files: seq<File>, x: Item, k: int) {
    && 0 <= k < |files|
    && match t
       case TvShows =>
         || (SeriesOf(e, lib, files[k], x) && FirstOfGroup(e, files, k))
         || (SeasonOf(e, lib, files[k], x) && FirstOfSeason(e, files, k))
         || EpisodeOf(e, lib, files[k], x)
       case Music =>
         || (ArtistOf(e, lib, files[k], x) && FirstOfGroup(e, files, k))
         || (AlbumOf(e, lib, files[k], x) && FirstOfAlbum(e, files, k))
         || TrackOf(e, lib, files[k], x)
       case _ => FlatOf(e, lib, t, files[k], x)
  }

  lemma {:induction false} FirstTopAt(ps: seq<Place>, id: string) returns (k: nat)
    requires TopSeen(ps, id)
    ensures k < |ps| && ps[k].top.id == id && FirstTop(ps, id) == ps[k].top
    ensures forall j :: 0 <= j < k ==> ps[j].top.id != id
    decreases |ps|
  {
    k := |ps| - 1;
    assert forall j :: 0 <= j < k ==> ps[..k][j] == ps[j];
    if TopSeen(ps[..k], id) {
      k := FirstTopAt(ps[..k], id);
    }
  }

  lemma {:induction false} FirstMidAt(ps: seq<Place>, id: string) returns (k: nat)
    requires MidSeen(ps, id)
    ensures k < |ps| && ps[k].mid.id == id && FirstMid(ps, id) == ps[k].mid
    ensures forall j :: 0 <= j < k ==> ps[j].mid.id != id
    decreases |ps|
  {
    k := |ps| - 1;
    assert forall j :: 0 <= j < k ==> ps[..k][j] == ps[j];
    if MidSeen(ps[..k], id) {
      k := FirstMidAt(ps[..k], id);
    }
  }

  ghost predicate TopTaken(ps: seq<Place>, x: Item, k: int) {
    0 <= k < |ps| && x == ps[k].top.(childCount := x.childCount) && forall j :: 0 <= j < k ==> ps[j].top.id != x.id
  }

  ghost predicate MidTaken(ps: seq<Place>, x: Item, k: int) {
    0 <= k < |ps| && x == ps[k].mid.(childCount := x.childCount) && forall j :: 0 <= j < k ==> ps[j].mid.id != x.id
  }

  /** `x` is the k-th place's leaf, or its folder, counter aside, and the first of it. */
  ghost predicate TakenFrom(ps: seq<Place>, x: Item, k: int) {
    TopTaken(ps, x, k) || MidTaken(ps, x, k) || (0 <= k < |ps| && x == ps[k].leaf)
  }

  lemma ForestTaken(ps: seq<Place>, out: seq<Item>, x: Item) returns (k: nat)
    requires IsForest(ps, out) && x in out
    ensures TakenFrom(ps, x, k)
  {
    if IsTop(ps, x) {
      k := FirstTopAt(ps, x.id);
    } else if IsMid(ps, x) {
      k := FirstMidAt(ps, x.id);
    } else {
      k :| 0 <= k < |ps| && x == ps[k].leaf;
    }
  }

  lemma LeafId(e: Env, path: string)
    ensures ItemId(e, path) == e.hash("item:" + path)
  {
    assert "item" + [':'] == "item:";
  }

  lemma EpisodeTaken(e: Env, lib: string, files: seq<File>, x: Item, k: nat)
    requires TakenFrom(Episodes(e, lib, files), x, k)
    ensures CalledBy(e, lib, TvShows, files, x, k)
  {
    var f, ps := files[k], Episodes(e, lib, files);
    SeriesKeys(e, lib, f);
    LeafId(e, f.path);
    ZeroPadExact(5, f.season);
    ZeroPadExact(5, f.number);
    assert forall j :: 0 <= j < k ==> ps[j] == PlaceEpisode(e, lib, files[j]);
  }

  lemma TrackTaken(e: Env, lib: string, files: seq<File>, x: Item, k: nat)
    requires TakenFrom(Tracks(e, lib, files), x, k)
    ensures CalledBy(e, lib, Music, files, x, k)
  {
    var f, ps := files[k], Tracks(e, lib, files);
    ArtistKeys(e, lib, f);
    LeafId(e, f.path);
    ZeroPadExact(4, f.number);
    assert forall j :: 0 <= j < k ==> ps[j] == PlaceTrack(e, lib, files[j]);
  }

  lemma FlatTaken(e: Env, lib: string, t: LibraryType, files: seq<File>, out: seq<Item>, x: Item) returns (k: nat)
    requires t != TvShows && t != Music && multiset(out) == multiset(FlatItems(e, lib, t, files)) && x in out
    ensures CalledBy(e, lib, t, files, x, k)
  {
    SameBagMembers(FlatItems(e, lib, t, files), out);
    k :| 0 <= k < |files| && FlatItems(e, lib, t, files)[k] == x;
    LeafId(e, files[k].path);
  }

  /** Every item of a scan is one some file calls for, and says in every field what the
      first such file and the kind of library call for. */
  lemma ItemsDescribed(e: Env, root: string, t: LibraryType, files: seq<File>, out: seq<Item>, x: Item)
    returns (k: nat)
    requires IsScanResult(e, root, t, files, out) && x in out
    ensures CalledBy(e, LibraryId(e, root), t, files, x, k)
  {
    var lib := LibraryId(e, root);
    match t
    case TvShows =>
      k := ForestTaken(Episodes(e, lib, files), out, x);
      EpisodeTaken(e, lib, files, x, k);
    case Music =>
      k := ForestTaken(Tracks(e, lib, files), out, x);
      TrackTaken(e, lib, files, x, k);
    case _ => k := FlatTaken(e, lib, t, files, out, x);
  }

  /** What each file owes: its own item, under the folders it names. */
  ghost predicate FiledAs(e: Env, lib: string, t: LibraryType, f: File, out: seq<Item>) {
    match t
    case TvShows =>
      && (exists x :: x in out && EpisodeOf(e, lib, f, x))
      && (exists x :: x in out && x.id == SeasonKey(e, lib, f) && x.kind == Season)
      && (exists x :: x in out && x.id == SeriesKey(e, lib, f) && x.kind == Series)
    case Music =>
      && (exists x :: x in out && TrackOf(e, lib, f, x))
      && (exists x :: x in out && x.id == AlbumKey(e, lib, f) && x.kind == MusicAlbum)
      && (exists x :: x in out && x.id == ArtistKey(e, lib, f) && x.kind == MusicArtist)
    case _ => exists x :: x in out && FlatOf(e, lib, t, f, x)
  }

  lemma PlaceListed(ps: seq<Place>, out: seq<Item>, k: nat) returns (top: Item, mid: Item)
    requires IsForest(ps, out) && k < |ps|
    ensures top in out && mid in out && ps[k].leaf in out
    ensures top.id == ps[k].top.id && mid.id == ps[k].mid.id
    ensures exists j :: 0 <= j < |ps| && top.kind == ps[j].top.kind
    ensures exists j :: 0 <= j < |ps| && mid.kind == ps[j].mid.kind
  {
    var i := FirstTopAt(ps, ps[k].top.id);
    var j := FirstMidAt(ps, ps[k].mid.id);
    top, mid := TopFolder(ps, ps[k].top.id), MidFolder(ps, ps[k].mid.id);
    assert IsTop(ps, top) && IsMid(ps, mid) && IsLeaf(ps, ps[k].leaf);
  }

  lemma EpisodeFiled(e: Env, lib: string, files: seq<File>, out: seq<Item>, k: nat)
    requires IsForest(Episodes(e, lib, files), out) && k < |files|
    ensures FiledAs(e, lib, TvShows, files[k], out)
  {
    var ps, f := Episodes(e, lib, files), files[k];
    var top, mid := PlaceListed(ps, out, k);
    SeriesKeys(e, lib, f);
    LeafId(e, f.path);
    ZeroPadExact(5, f.number);
    assert EpisodeOf(e, lib, f, ps[k].leaf);
  }

  lemma TrackFiled(e: Env, lib: string, files: seq<File>, out: seq<Item>, k: nat)
    requires IsForest(Tracks(e, lib, files), out) && k < |files|
    ensures FiledAs(e, lib, Music, files[k], out)
  {
    var ps, f := Tracks(e, lib, files), files[k];
    var top, mid := PlaceListed(ps, out, k);
    ArtistKeys(e, lib, f);
    LeafId(e, f.path);
    ZeroPadExact(4, f.number);
    assert TrackOf(e, lib, f, ps[k].leaf);
  }

  /** And every file has its item and its folders among the results. */
  lemma FilesFiled(e: Env, root: string, t: LibraryType, files: seq<File>, out: seq<Item>, k: nat)
    requires IsScanResult(e, root, t, files, out) && k < |files|
    ensures FiledAs(e, LibraryId(e, root), t, files[k], out)
  {
    var lib := LibraryId(e, root);
    match t
    case TvShows => EpisodeFiled(e, lib, files, out, k);
    case Music => TrackFiled(e, lib, files, out, k);
    case _ =>
      SameBagMembers(FlatItems(e, lib, t, files), out);
      LeafId(e, files[k].path);
      var x := FlatItems(e, lib, t, files)[k];
      assert x in out && FlatOf(e, lib, t, files[k], x);
  }

  // ------------------------------------------------------------------ the order

  /** Byte-wise before. */
  ghost predicate Before(a: string, b: string) { exists n :: FallsBelow(a, b, n) }

  /** The result is in order of sort name, and of ID where those agree. */
  lemma ResultOrdered(e: Env, root: string, t: LibraryType, files: seq<File>, out: seq<Item>, i: nat, j: nat)
    requires Hashing(e) && DistinctPaths(files) && IsScanResult(e, root, t, files, out) && i < j < |out|
    ensures Before(out[i].sortName, out[j].sortName)
      || (out[i].sortName == out[j].sortName && Before(out[i].id, out[j].id))
  {
    ScanScanned(e, root, t, files, out);
    ItemOrder();
    Sorting.SortedPairs(out, ItemLe, i, j);
    LessTotal(out[i].sortName, out[j].sortName);
    LessTotal(out[i].id, out[j].id);
    LessExact(out[i].sortName, out[j].sortName);
    LessExact(out[i].id, out[j].id);
  }
}
