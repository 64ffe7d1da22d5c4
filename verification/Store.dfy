/** The records the stores keep (internal/store/models.go, media_models.go). */
module Models {
  datatype Session = Session(id: string, userId: string, tokenHash: string, lastActivity: int)

  datatype Library = Library(id: string, name: string, path: string, itemCount: nat, scannedAt: int)

  datatype Kind = Series | Season | Episode | MusicArtist | MusicAlbum | Audio | Movie | Video

  /** `groupId` is the SeriesID or ArtistID, `subId` the SeasonID or AlbumID. */
  datatype Item = Item(
    id: string, libraryId: string, parentId: string,
    name: string, sortName: string, kind: Kind, path: string,
    childCount: nat, groupId: string, subId: string, number: int, parentNumber: int)

  datatype UserData = UserData(
    userId: string, itemId: string, position: int, played: bool, lastPlayed: int)

  datatype Error = NotFound | Conflict

  /** The primary records, each keyed by its ID (user data by the composite key). */
  datatype Data = Data(
    sessions: map<string, Session>,
    libraries: map<string, Library>,
    items: map<string, Item>,
    userData: map<string, UserData>)

  /** Every record sits under its own ID. */
  ghost predicate Keyed(d: Data) {
    && (forall k :: k in d.sessions ==> d.sessions[k].id == k)
    && (forall k :: k in d.libraries ==> d.libraries[k].id == k)
    && (forall k :: k in d.items ==> d.items[k].id == k)
  }

  /** `out` holds each selected item once. */
  ghost predicate Lists(out: seq<Item>, items: map<string, Item>, selected: Item -> bool) {
    && (forall x :: x in out <==> x.id in items && items[x.id] == x && selected(x))
    && forall i, j :: 0 <= i < j < |out| ==> out[i] != out[j]
  }

  lemma {:induction false} NoDuplicates<T>(out: seq<T>)
    requires forall i, j :: 0 <= i < j < |out| ==> out[i] != out[j]
    ensures forall x :: multiset(out)[x] == if x in out then 1 else 0
    decreases |out|
  {
    if out != [] {
      var rest := out[1..];
      NoDuplicates(rest);
      assert out == [out[0]] + rest;
    }
  }

  /** Two listings of the same selection agree up to order. */
  lemma ListingsAgree(a: seq<Item>, b: seq<Item>, items: map<string, Item>, selected: Item -> bool)
    requires Lists(a, items, selected) && Lists(b, items, selected)
    ensures multiset(a) == multiset(b) && |a| == |b|
  {
    NoDuplicates(a);
    NoDuplicates(b);
    assert |a| == |multiset(a)| && |b| == |multiset(b)|;
  }
}

/** internal/store/jsonstore.go: maps and full scans. What each operation does to
    the records is the specification the indexed store is held to. */
module JsonStore {
  import opened Wrappers
  import opened Models
  import opened Keys

  function DeleteLibraryItems(items: map<string, Item>, libraryId: string): map<string, Item> {
    map id | id in items && items[id].libraryId != libraryId :: items[id]
  }

  /** Items are cloned into their new library one by one; later ones win. */
  function PutItems(m: map<string, Item>, libraryId: string, items: seq<Item>): map<string, Item>
    decreases items
  {
    if items == [] then m
    else PutItems(m[items[0].id := items[0].(libraryId := libraryId)], libraryId, items[1..])
  }

  datatype Op =
    | CreateSession(session: Session)
    | TouchSession(sessionId: string, at: int)
    | DeleteSession(sessionId: string)
    | CreateLibrary(library: Library)
    | DeleteLibrary(libraryId: string)
    | ReplaceLibraryItems(libraryId: string, items: seq<Item>, at: int)
    | UpsertUserItemData(data: UserData)

  predicate PathTaken(libraries: map<string, Library>, path: string) {
    exists k :: k in libraries && libraries[k].path == path
  }

  /** The records after an operation and the error it returns. */
  function Step(d: Data, op: Op): (Data, Option<Error>) {
    match op
    case CreateSession(s) => (d.(sessions := d.sessions[s.id := s]), None)
    case TouchSession(id, at) =>
      if id !in d.sessions then (d, Some(NotFound))
      else (d.(sessions := d.sessions[id := d.sessions[id].(lastActivity := at)]), None)
    case DeleteSession(id) =>
      if id !in d.sessions then (d, Some(NotFound)) else (d.(sessions := d.sessions - {id}), None)
    case CreateLibrary(l) =>
      if PathTaken(d.libraries, l.path) then (d, Some(Conflict))
      else (d.(libraries := d.libraries[l.id := l]), None)
    case DeleteLibrary(id) =>
      if id !in d.libraries then (d, Some(NotFound))
      else (d.(libraries := d.libraries - {id}, items := DeleteLibraryItems(d.items, id)), None)
    case ReplaceLibraryItems(id, items, at) =>
      if id !in d.libraries then (d, Some(NotFound))
      else
        (d.(items := PutItems(DeleteLibraryItems(d.items, id), id, items),
            libraries := d.libraries[id := d.libraries[id].(itemCount := |items|, scannedAt := at)]), None)
    case UpsertUserItemData(x) => (d.(userData := d.userData[IdxKey(x.userId, x.itemId) := x]), None)
  }

  /** A scan finds some session with the hash, or reports that there is none. */
  ghost predicate AnswersToken(d: Data, tokenHash: string, r: Result<Session, Error>) {
    match r
    case Ok(s) => s.id in d.sessions && d.sessions[s.id] == s && s.tokenHash == tokenHash
    case Err(e) => e == NotFound && forall k :: k in d.sessions ==> d.sessions[k].tokenHash != tokenHash
  }

  /** `out` holds the rows whose own UserID is `userId`, each once. */
  ghost predicate AnswersUser(d: Data, userId: string, out: seq<UserData>) {
    && (forall x :: x in out <==>
         IdxKey(x.userId, x.itemId) in d.userData && d.userData[IdxKey(x.userId, x.itemId)] == x && x.userId == userId)
    && forall i, j :: 0 <= i < j < |out| ==> out[i] != out[j]
  }

  class JsonStore {
    var sessions: map<string, Session>
    var libraries: map<string, Library>
    var items: map<string, Item>
    var userData: map<string, UserData>

    ghost function State(): Data
      reads this
    {
      Data(sessions, libraries, items, userData)
    }

    constructor ()
      ensures State() == Data(map[], map[], map[], map[])
    {
      sessions, libraries, items, userData := map[], map[], map[], map[];
    }

    method CreateSession(s: Session) returns (e: Option<Error>)
      modifies this`sessions
      ensures (State(), e) == Step(old(State()), Op.CreateSession(s))
    {
      sessions := sessions[s.id := s];
      return None;
    }

    method TouchSession(id: string, at: int) returns (e: Option<Error>)
      modifies this`sessions
      ensures (State(), e) == Step(old(State()), Op.TouchSession(id, at))
    {
      if id !in sessions {
        return Some(NotFound);
      }
      sessions := sessions[id := sessions[id].(lastActivity := at)];
      return None;
    }

    method DeleteSession(id: string) returns (e: Option<Error>)
      modifies this`sessions
      ensures (State(), e) == Step(old(State()), Op.DeleteSession(id))
    {
      if id !in sessions {
        return Some(NotFound);
      }
      sessions := sessions - {id};
      return None;
    }

    method CreateLibrary(l: Library) returns (e: Option<Error>)
      modifies this`libraries
      ensures (State(), e) == Step(old(State()), Op.CreateLibrary(l))
    {
      var todo := libraries.Keys;
      while todo != {}
        invariant todo <= libraries.Keys && libraries == old(libraries)
        invariant forall k :: k in libraries && k !in todo ==> libraries[k].path != l.path
        decreases todo
      {
        var k :| k in todo;
        if libraries[k].path == l.path {
          return Some(Conflict);
        }
        todo := todo - {k};
      }
      libraries := libraries[l.id := l];
      return None;
    }

    method GetSessionByTokenHash(tokenHash: string) returns (r: Result<Session, Error>)
      requires Keyed(State())
      ensures AnswersToken(State(), tokenHash, r)
    {
      var todo := sessions.Keys;
      while todo != {}
        invariant todo <= sessions.Keys
        invariant forall k :: k in sessions && k !in todo ==> sessions[k].tokenHash != tokenHash
        decreases todo
      {
        var k :| k in todo;
        if sessions[k].tokenHash == tokenHash {
          return Ok(sessions[k]);
        }
        todo := todo - {k};
      }
      return Err(NotFound);
    }

    /** Deletes while ranging over the item map. */
    method DropItems(libraryId: string)
      modifies this`items
      ensures items == DeleteLibraryItems(old(items), libraryId)
    {
      var todo := items.Keys;
      while todo != {}
        invariant todo <= items.Keys <= old(items).Keys
        invariant forall k :: k in items ==> items[k] == old(items)[k]
        invariant forall k :: k in old(items) && k !in todo ==>
          (k in items <==> old(items)[k].libraryId != libraryId)
        decreases todo
      {
        var k :| k in todo;
        if items[k].libraryId == libraryId {
          items := items - {k};
        }
        todo := todo - {k};
      }
    }

    method DeleteLibrary(id: string) returns (e: Option<Error>)
      modifies this`libraries, this`items
      ensures (State(), e) == Step(old(State()), Op.DeleteLibrary(id))
    {
      if id !in libraries {
        return Some(NotFound);
      }
      libraries := libraries - {id};
      DropItems(id);
      return None;
    }

    method ReplaceLibraryItems(id: string, incoming: seq<Item>, at: int) returns (e: Option<Error>)
      modifies this`libraries, this`items
      ensures (State(), e) == Step(old(State()), Op.ReplaceLibraryItems(id, incoming, at))
    {
      if id !in libraries {
        return Some(NotFound);
      }
      DropItems(id);
      ghost var kept := items;
      for i := 0 to |incoming|
        invariant libraries == old(libraries)
        invariant PutItems(items, id, incoming[i..]) == PutItems(kept, id, incoming)
      {
        var clone := incoming[i].(libraryId := id);
        assert incoming[i..][1..] == incoming[i + 1..];
        items := items[clone.id := clone];
      }
      var lib := libraries[id];
      lib := lib.(itemCount := |incoming|);
      lib := lib.(scannedAt := at);
      libraries := libraries[id := lib];
      return None;
    }

    method ListItemsByLibrary(libraryId: string) returns (out: seq<Item>)
      requires Keyed(State())
      ensures Lists(out, items, (x: Item) => x.libraryId == libraryId)
    {
      out := [];
      var todo := items.Keys;
      while todo != {}
        invariant todo <= items.Keys
        invariant forall x :: x in out <==>
          x.id in items && x.id !in todo && items[x.id] == x && x.libraryId == libraryId
        invariant forall i, j :: 0 <= i < j < |out| ==> out[i] != out[j]
        decreases todo
      {
        var k :| k in todo;
        todo := todo - {k};
        if items[k].libraryId == libraryId {
          assert items[k] !in out;
          out := out + [items[k]];
        }
      }
    }

    method ListItemsByParent(parentId: string) returns (out: seq<Item>)
      requires Keyed(State())
      ensures Lists(out, items, (x: Item) => x.parentId == parentId)
    {
      out := [];
      var todo := items.Keys;
      while todo != {}
        invariant todo <= items.Keys
        invariant forall x :: x in out <==>
          x.id in items && x.id !in todo && items[x.id] == x && x.parentId == parentId
        invariant forall i, j :: 0 <= i < j < |out| ==> out[i] != out[j]
        decreases todo
      {
        var k :| k in todo;
        todo := todo - {k};
        if items[k].parentId == parentId {
          assert items[k] !in out;
          out := out + [items[k]];
        }
      }
    }

    method UpsertUserItemData(x: UserData) returns (e: Option<Error>)
      modifies this`userData
      ensures (State(), e) == Step(old(State()), Op.UpsertUserItemData(x))
    {
      userData := userData[IdxKey(x.userId, x.itemId) := x];
      return None;
    }

    method ListUserItemData(userId: string) returns (out: seq<UserData>)
      requires forall k :: k in userData ==> k == IdxKey(userData[k].userId, userData[k].itemId)
      ensures AnswersUser(State(), userId, out)
    {
      out := [];
      var todo := userData.Keys;
      while todo != {}
        invariant todo <= userData.Keys
        invariant forall x :: x in out <==>
          var k := IdxKey(x.userId, x.itemId); k in userData && k !in todo && userData[k] == x && x.userId == userId
        invariant forall i, j :: 0 <= i < j < |out| ==> out[i] != out[j]
        decreases todo
      {
        var k :| k in todo;
        todo := todo - {k};
        if userData[k].userId == userId {
          assert userData[k] !in out;
          out := out + [userData[k]];
        }
      }
    }
  }
}
