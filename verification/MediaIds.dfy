/** The item IDs of internal/media/scan.go, all of them hashes of tagged strings. */
module MediaIds {
  import opened Keys
  import opened Text

  /** `hashID` (half of a SHA-256, in hex) and strings.ToLower. */
  datatype Env = Env(hash: string -> string, lower: string -> string)

  /** No two strings hash alike, and a hash is free of separators. */
  ghost predicate Hashing(e: Env) {
    && (forall x, y :: e.hash(x) == e.hash(y) ==> x == y)
    && forall x :: NulFree(e.hash(x)) && ':' !in e.hash(x)
  }

  /** What an ID is derived from; names are already lower-cased. */
  datatype Origin =
    | OfLibrary(root: string)
    | OfFile(path: string)
    | OfSeries(name: string)
    | OfSeason(name: string, season: nat)
    | OfArtist(name: string)
    | OfAlbum(name: string, album: string)

  function Tag(o: Origin): (t: string)
    ensures ':' !in t
  {
    match o
    case OfLibrary(_) => "library"
    case OfFile(_) => "item"
    case OfSeries(_) => "series"
    case OfSeason(_, _) => "season"
    case OfArtist(_) => "artist"
    case OfAlbum(_, _) => "album"
  }

  function Body(e: Env, lib: string, o: Origin): string {
    match o
    case OfLibrary(root) => root
    case OfFile(path) => path
    case OfSeries(name) => lib + [':'] + name
    case OfSeason(name, season) => e.hash("series" + [':'] + (lib + [':'] + name)) + [':'] + Itoa(season)
    case OfArtist(name) => lib + [':'] + name
    case OfAlbum(name, album) => e.hash("artist" + [':'] + (lib + [':'] + name)) + [':'] + album
  }

  function IdOf(e: Env, lib: string, o: Origin): string { e.hash(Tag(o) + [':'] + Body(e, lib, o)) }

  function ItemId(e: Env, path: string): string { e.hash("item" + [':'] + path) }

  function SeriesId(e: Env, lib: string, name: string): string {
    e.hash("series" + [':'] + (lib + [':'] + e.lower(name)))
  }

  function SeasonId(e: Env, sID: string, season: nat): string { e.hash("season" + [':'] + (sID + [':'] + Itoa(season))) }

  function ArtistId(e: Env, lib: string, name: string): string {
    e.hash("artist" + [':'] + (lib + [':'] + e.lower(name)))
  }

  function AlbumId(e: Env, aID: string, name: string): string { e.hash("album" + [':'] + (aID + [':'] + e.lower(name))) }

  lemma SplitsAtColon(a: string, b: string, c: string, d: string)
    requires ':' !in a && ':' !in c && a + [':'] + b == c + [':'] + d
    ensures a == c && b == d
  {
    var k := a + [':'] + b;
    assert forall i :: 0 <= i < |a| ==> k[i] == a[i] && a[i] in a;
    assert forall i :: 0 <= i < |c| ==> k[i] == c[i] && c[i] in c;
    assert k[|a|] == ':' && k[|c|] == ':';
    assert |a| == |c|;
    assert a == k[..|a|] && c == k[..|c|];
    assert b == k[|a| + 1..] && d == k[|c| + 1..];
  }

  lemma HashInjective(e: Env, x: string, y: string)
    requires Hashing(e) && e.hash(x) == e.hash(y)
    ensures x == y
  {
  }

  /** A folder's ID determines its library and its lower-cased name. */
  lemma SameGroup(e: Env, tag: string, lib: string, name: string, lib': string, name': string)
    requires Hashing(e) && ':' !in tag && ':' !in lib && ':' !in lib'
    requires e.hash(tag + [':'] + (lib + [':'] + name)) == e.hash(tag + [':'] + (lib' + [':'] + name'))
    ensures lib == lib' && name == name'
  {
    HashInjective(e, tag + [':'] + (lib + [':'] + name), tag + [':'] + (lib' + [':'] + name'));
    SplitsAtColon(tag, lib + [':'] + name, tag, lib' + [':'] + name');
    SplitsAtColon(lib, name, lib', name');
  }

  lemma SameBody(e: Env, lib: string, o: Origin, lib': string, o': Origin)
    requires Hashing(e) && ':' !in lib && ':' !in lib'
    requires Tag(o) == Tag(o') && Body(e, lib, o) == Body(e, lib', o')
    ensures o == o' && (lib == lib' || o.OfFile? || o.OfLibrary?)
  {
    TagsDiffer(o, o');
    match o
    case OfLibrary(_) =>
    case OfFile(_) =>
    case OfSeries(name) => SplitsAtColon(lib, name, lib', o'.name);
    case OfArtist(name) => SplitsAtColon(lib, name, lib', o'.name);
    case OfSeason(name, season) =>
      var x, y := e.hash("series" + [':'] + (lib + [':'] + name)), e.hash("series" + [':'] + (lib' + [':'] + o'.name));
      SplitsAtColon(x, Itoa(season), y, Itoa(o'.season));
      ItoaInjective(season, o'.season);
      SameGroup(e, "series", lib, name, lib', o'.name);
    case OfAlbum(name, album) =>
      var x, y := e.hash("artist" + [':'] + (lib + [':'] + name)), e.hash("artist" + [':'] + (lib' + [':'] + o'.name));
      SplitsAtColon(x, album, y, o'.album);
      SameGroup(e, "artist", lib, name, lib', o'.name);
  }

  /** Equal IDs come from the same origin, and in the same library unless the
      origin is a path. */
  lemma SameIdSameOrigin(e: Env, lib: string, o: Origin, lib': string, o': Origin)
    requires Hashing(e) && ':' !in lib && ':' !in lib'
    requires IdOf(e, lib, o) == IdOf(e, lib', o')
    ensures o == o' && (lib == lib' || o.OfFile? || o.OfLibrary?)
  {
    HashInjective(e, Tag(o) + [':'] + Body(e, lib, o), Tag(o') + [':'] + Body(e, lib', o'));
    SplitsAtColon(Tag(o), Body(e, lib, o), Tag(o'), Body(e, lib', o'));
    SameBody(e, lib, o, lib', o');
  }

  lemma TagsDiffer(o: Origin, o': Origin)
    requires Tag(o) == Tag(o')
    ensures o.OfLibrary? == o'.OfLibrary? && o.OfFile? == o'.OfFile? && o.OfSeries? == o'.OfSeries?
    ensures o.OfSeason? == o'.OfSeason? && o.OfArtist? == o'.OfArtist? && o.OfAlbum? == o'.OfAlbum?
  {
    var t := Tag(o);
    assert t[0] == 'l' <==> o.OfLibrary?;
    assert t[0] == 'i' <==> o.OfFile?;
    assert t[0] == 's' && t[2] == 'r' <==> o.OfSeries?;
    assert t[0] == 's' && t[2] == 'a' <==> o.OfSeason?;
    assert t[0] == 'a' && t[1] == 'r' <==> o.OfArtist?;
    assert t[0] == 'a' && t[1] == 'l' <==> o.OfAlbum?;
  }
}
