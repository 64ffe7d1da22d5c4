/** internal/store/boltstore.go: the same records, with three hand-kept indexes
    that answer the hot look-ups by key or by prefix scan. A transaction is one
    atomic step; encoding is the identity. */
module BoltStore {
  import opened Wrappers
  import opened Models
  import opened Keys
  import J = JsonStore

  /** All buckets. `tokenIdx` maps a token hash to a session ID; the other two
      hold composite keys whose values are unused. */
  datatype Buckets = Buckets(
    data: Data,
    tokenIdx: map<string, string>,
    libIdx: map<string, string>,
    parentIdx: map<string, string>)

  // ------------------------------------------------- operations, as functions

  function CreateSessionIn(b: Buckets, s: Session): Buckets {
    b.(data := b.data.(sessions := b.data.sessions[s.id := s]), tokenIdx := b.tokenIdx[s.tokenHash := s.id])
  }

  /** One turn of the loop of `deleteLibraryItems`. */
  function DeleteOne(b: Buckets, libraryId: string, id: string): Buckets {
    b.(parentIdx :=
         if id in b.data.items then b.parentIdx - {IdxKey(b.data.items[id].parentId, id)} else b.parentIdx,
       data := b.data.(items := b.data.items - {id}),
       libIdx := b.libIdx - {IdxKey(libraryId, id)})
  }

  function DeleteEach(b: Buckets, libraryId: string, ids: seq<string>): Buckets
    decreases ids
  {
    if ids == [] then b else DeleteEach(DeleteOne(b, libraryId, ids[0]), libraryId, ids[1..])
  }

  function Tail(dim: string, k: string): string {
    if IdxPrefix(dim) <= k then k[|IdxPrefix(dim)|..] else ""
  }

  /** The second components of keys that start with the prefix of `dim`. */
  function Tails(dim: string, ks: seq<string>): seq<string>
  {
    seq(|ks|, i requires 0 <= i < |ks| => Tail(dim, ks[i]))
  }

  ghost function DeleteItems(b: Buckets, libraryId: string): Buckets {
    DeleteEach(b, libraryId, Tails(libraryId, ScanOf(b.libIdx, IdxPrefix(libraryId))))
  }

  /** One turn of the loop of `ReplaceLibraryItems`. */
  function PutOne(b: Buckets, libraryId: string, it: Item): Buckets {
    b.(data := b.data.(items := b.data.items[it.id := it.(libraryId := libraryId)]),
       libIdx := b.libIdx[IdxKey(libraryId, it.id) := ""],
       parentIdx := b.parentIdx[IdxKey(it.parentId, it.id) := ""])
  }

  function PutEach(b: Buckets, libraryId: string, items: seq<Item>): Buckets
    decreases items
  {
    if items == [] then b else PutEach(PutOne(b, libraryId, items[0]), libraryId, items[1..])
  }

  function PutLibrary(b: Buckets, id: string, l: Library): Buckets {
    b.(data := b.data.(libraries := b.data.libraries[id := l]))
  }

  ghost function Step(b: Buckets, op: J.Op): (Buckets, Option<Error>) {
    match op
    case CreateSession(s) => (CreateSessionIn(b, s), None)
    case DeleteSession(id) =>
      if id !in b.data.sessions then (b, Some(NotFound))
      else
        (b.(data := b.data.(sessions := b.data.sessions - {id}),
            tokenIdx := b.tokenIdx - {b.data.sessions[id].tokenHash}), None)
    case DeleteLibrary(id) =>
      if id !in b.data.libraries then (b, Some(NotFound))
      else (DeleteItems(b.(data := b.data.(libraries := b.data.libraries - {id})), id), None)
    case ReplaceLibraryItems(id, items, at) =>
      if id !in b.data.libraries then (b, Some(NotFound))
      else
        (PutLibrary(PutEach(DeleteItems(b, id), id, items), id,
                    b.data.libraries[id].(itemCount := |items|, scannedAt := at)), None)
    case _ => (b.(data := J.Step(b.data, op).0), J.Step(b.data, op).1)
  }

  /** The items a prefix scan of an index leads to; an entry without a primary
      record is skipped. */
  ghost function Follow(items: map<string, Item>, ids: seq<string>): seq<Item> {
    if ids == [] then []
    else
      Follow(items, ids[..|ids| - 1])
      + (if ids[|ids| - 1] in items then [items[ids[|ids| - 1]]] else [])
  }

  // --------------------------------------------------------------- the class

  class BoltStore {
    var data: Data
    var tokenIdx: map<string, string>
    var libIdx: map<string, string>
    var parentIdx: map<string, string>

    ghost function State(): Buckets
      reads this
    {
      Buckets(data, tokenIdx, libIdx, parentIdx)
    }

    constructor ()
      ensures State() == Buckets(Data(map[], map[], map[], map[]), map[], map[], map[])
    {
      data := Data(map[], map[], map[], map[]);
      tokenIdx, libIdx, parentIdx := map[], map[], map[];
    }

    method CreateSession(s: Session) returns (e: Option<Error>)
      modifies this
      ensures (State(), e) == Step(old(State()), J.Op.CreateSession(s))
    {
      data := data.(sessions := data.sessions[s.id := s]);
      tokenIdx := tokenIdx[s.tokenHash := s.id];
      return None;
    }

    method GetSessionByTokenHash(tokenHash: string) returns (r: Result<Session, Error>)
      ensures r == LookUp(State(), tokenHash)
    {
      if tokenHash !in tokenIdx {
        return Err(NotFound);
      }
      var id := tokenIdx[tokenHash];
      if id !in data.sessions {
        return Err(NotFound);
      }
      return Ok(data.sessions[id]);
    }

    method DeleteSession(id: string) returns (e: Option<Error>)
      modifies this
      ensures (State(), e) == Step(old(State()), J.Op.DeleteSession(id))
    {
      if id !in data.sessions {
        return Some(NotFound);
      }
      var s := data.sessions[id];
      data := data.(sessions := data.sessions - {id});
      tokenIdx := tokenIdx - {s.tokenHash};
      return None;
    }

    method TouchSession(id: string, at: int) returns (e: Option<Error>)
      modifies this
      ensures (State(), e) == Step(old(State()), J.Op.TouchSession(id, at))
    {
      if id !in data.sessions {
        return Some(NotFound);
      }
      data := data.(sessions := data.sessions[id := data.sessions[id].(lastActivity := at)]);
      return None;
    }

    method CreateLibrary(l: Library) returns (e: Option<Error>)
      modifies this
      ensures (State(), e) == Step(old(State()), J.Op.CreateLibrary(l))
    {
      var conflict := false;
      var todo := data.libraries.Keys;
      while todo != {}
        invariant todo <= data.libraries.Keys && State() == old(State())
        invariant conflict <==> exists k :: k in data.libraries && k !in todo && data.libraries[k].path == l.path
        decreases todo
      {
        var k :| k in todo;
        if data.libraries[k].path == l.path {
          conflict := true;
        }
        todo := todo - {k};
      }
      if conflict {
        return Some(Conflict);
      }
      data := data.(libraries := data.libraries[l.id := l]);
      return None;
    }

    /** `deleteLibraryItems`: collects the IDs by a prefix scan, then deletes. */
    method DeleteLibraryItems(libraryId: string)
      modifies this
      ensures State() == DeleteItems(old(State()), libraryId)
    {
      var ks := ForEachPrefix(libIdx, IdxPrefix(libraryId));
      ScanUnique(ks, ScanOf(libIdx, IdxPrefix(libraryId)));
      var ids := Tails(libraryId, ks);
      for i := 0 to |ids|
        invariant DeleteEach(State(), libraryId, ids[i..]) == DeleteEach(old(State()), libraryId, ids)
      {
        assert ids[i..][1..] == ids[i + 1..];
        var id := ids[i];
        if id in data.items {
          parentIdx := parentIdx - {IdxKey(data.items[id].parentId, id)};
        }
        data := data.(items := data.items - {id});
        libIdx := libIdx - {IdxKey(libraryId, id)};
      }
    }

    method DeleteLibrary(id: string) returns (e: Option<Error>)
      modifies this
      ensures (State(), e) == Step(old(State()), J.Op.DeleteLibrary(id))
    {
      if id !in data.libraries {
        return Some(NotFound);
      }
      data := data.(libraries := data.libraries - {id});
      DeleteLibraryItems(id);
      return None;
    }

    method ReplaceLibraryItems(id: string, incoming: seq<Item>, at: int) returns (e: Option<Error>)
      modifies this
      ensures (State(), e) == Step(old(State()), J.Op.ReplaceLibraryItems(id, incoming, at))
    {
      if id !in data.libraries {
        return Some(NotFound);
      }
      var lib := data.libraries[id];
      DeleteLibraryItems(id);
      ghost var kept := State();
      for i := 0 to |incoming|
        invariant PutEach(State(), id, incoming[i..]) == PutEach(kept, id, incoming)
      {
        assert incoming[i..][1..] == incoming[i + 1..];
        var clone := incoming[i].(libraryId := id);
        data := data.(items := data.items[clone.id := clone]);
        libIdx := libIdx[IdxKey(id, clone.id) := ""];
        parentIdx := parentIdx[IdxKey(clone.parentId, clone.id) := ""];
      }
      lib := lib.(itemCount := |incoming|);
      lib := lib.(scannedAt := at);
      data := data.(libraries := data.libraries[id := lib]);
      return None;
    }

    /** `listItemsByIndex`. */
    method ListItemsByIndex(idx: map<string, string>, dim: string) returns (out: seq<Item>)
      ensures out == ListVia(State(), idx, dim)
    {
      var ks := ForEachPrefix(idx, IdxPrefix(dim));
      ScanUnique(ks, ScanOf(idx, IdxPrefix(dim)));
      ghost var ids := Tails(dim, ks);
      out := [];
      for i := 0 to |ks|
        invariant out == Follow(data.items, ids[..i])
      {
        assert ids[..i + 1][..i] == ids[..i];
        assert ks[i] in ks;
        var id := ks[i][|IdxPrefix(dim)|..];
        if id in data.items {
          out := out + [data.items[id]];
        }
      }
      assert ids[..|ks|] == ids;
    }

    method ListItemsByLibrary(libraryId: string) returns (out: seq<Item>)
      ensures out == ListVia(State(), libIdx, libraryId)
    {
      out := ListItemsByIndex(libIdx, libraryId);
    }

    method ListItemsByParent(parentId: string) returns (out: seq<Item>)
      ensures out == ListVia(State(), parentIdx, parentId)
    {
      out := ListItemsByIndex(parentIdx, parentId);
    }

    method UpsertUserItemData(x: UserData) returns (e: Option<Error>)
      modifies this
      ensures (State(), e) == Step(old(State()), J.Op.UpsertUserItemData(x))
    {
      data := data.(userData := data.userData[IdxKey(x.userId, x.itemId) := x]);
      return None;
    }

    method ListUserItemData(userId: string) returns (out: seq<UserData>)
      ensures var ks := ScanOf(data.userData, IdxPrefix(userId));
        |out| == |ks| && forall i :: 0 <= i < |ks| ==> out[i] == data.userData[ks[i]]
    {
      var ks := ForEachPrefix(data.userData, IdxPrefix(userId));
      ScanUnique(ks, ScanOf(data.userData, IdxPrefix(userId)));
      out := [];
      for i := 0 to |ks|
        invariant |out| == i && forall j :: 0 <= j < i ==> out[j] == data.userData[ks[j]]
      {
        out := out + [data.userData[ks[i]]];
      }
    }
  }

  function LookUp(b: Buckets, tokenHash: string): Result<Session, Error> {
    if tokenHash !in b.tokenIdx || b.tokenIdx[tokenHash] !in b.data.sessions then Err(NotFound)
    else Ok(b.data.sessions[b.tokenIdx[tokenHash]])
  }

  ghost function ListVia(b: Buckets, idx: map<string, string>, dim: string): seq<Item> {
    Follow(b.data.items, Tails(dim, ScanOf(idx, IdxPrefix(dim))))
  }
}
