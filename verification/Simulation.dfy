/** The indexed store behaves as the scanning store: the indexes hold exactly the
    keys the primary records imply, so every look-up by index returns what a full
    scan returns. */
module Simulation {
  import opened Wrappers
  import opened Models
  import opened Keys
  import opened BoltStore
  import J = JsonStore

  // ------------------------------------------------------------- one index

  function LibraryOf(x: Item): string { x.libraryId }
  function ParentOf(x: Item): string { x.parentId }

  ghost predicate Entry(items: map<string, Item>, dimOf: Item -> string, k: string) {
    exists id :: id in items && k == IdxKey(dimOf(items[id]), id)
  }

  /** The index holds one key per item and no other key. */
  ghost predicate Indexed(items: map<string, Item>, idx: map<string, string>, dimOf: Item -> string) {
    && (forall id :: id in items ==>
         NulFree(id) && NulFree(dimOf(items[id])) && IdxKey(dimOf(items[id]), id) in idx)
    && forall k :: k in idx ==> Entry(items, dimOf, k)
  }

  lemma IndexedKey(items: map<string, Item>, idx: map<string, string>, dimOf: Item -> string, dim: string, id: string)
    requires Indexed(items, idx, dimOf) && NulFree(dim)
    ensures IdxKey(dim, id) in idx <==> id in items && dimOf(items[id]) == dim
  {
    if IdxKey(dim, id) in idx {
      assert Entry(items, dimOf, IdxKey(dim, id));
      var j :| j in items && IdxKey(dim, id) == IdxKey(dimOf(items[j]), j);
      KeySplits(dim, id, dimOf(items[j]), j);
    }
  }

  lemma RemoveEntry(items: map<string, Item>, idx: map<string, string>, dimOf: Item -> string, id: string)
    requires Indexed(items, idx, dimOf) && id in items
    ensures Indexed(items - {id}, idx - {IdxKey(dimOf(items[id]), id)}, dimOf)
  {
    var gone := IdxKey(dimOf(items[id]), id);
    forall j | j in items - {id} ensures IdxKey(dimOf(items[j]), j) in idx - {gone} {
      if IdxKey(dimOf(items[j]), j) == gone {
        KeySplits(dimOf(items[j]), j, dimOf(items[id]), id);
      }
    }
    forall k | k in idx - {gone} ensures Entry(items - {id}, dimOf, k) {
      assert Entry(items, dimOf, k);
      var j :| j in items && k == IdxKey(dimOf(items[j]), j);
      assert j in items - {id};
    }
  }

  /** Adding an item and its key keeps the index right unless it replaces an item
      filed under another dimension, whose key stays behind. */
  lemma AddEntry(items: map<string, Item>, idx: map<string, string>, dimOf: Item -> string, id: string, x: Item)
    requires Indexed(items, idx, dimOf) && NulFree(id) && NulFree(dimOf(x))
    requires id in items ==> dimOf(items[id]) == dimOf(x)
    ensures Indexed(items[id := x], idx[IdxKey(dimOf(x), id) := ""], dimOf)
  {
    var m := items[id := x];
    forall k | k in idx[IdxKey(dimOf(x), id) := ""] ensures Entry(m, dimOf, k) {
      if k == IdxKey(dimOf(x), id) {
        assert id in m && m[id] == x;
      } else {
        assert Entry(items, dimOf, k);
        var j :| j in items && k == IdxKey(dimOf(items[j]), j);
        assert j in m && dimOf(m[j]) == dimOf(items[j]);
      }
    }
  }

  /** Two keys for one item: beyond repair by further additions. */
  ghost predicate Skewed(idx: map<string, string>, id: string) {
    exists a, c :: TwoKeys(idx, id, a, c)
  }

  ghost predicate TwoKeys(idx: map<string, string>, id: string, a: string, c: string) {
    a != c && NulFree(a) && NulFree(c) && IdxKey(a, id) in idx && IdxKey(c, id) in idx
  }

  lemma SkewedIsWrong(items: map<string, Item>, idx: map<string, string>, dimOf: Item -> string, id: string)
    requires Skewed(idx, id)
    ensures !Indexed(items, idx, dimOf)
  {
    if Indexed(items, idx, dimOf) {
      var a, c :| TwoKeys(idx, id, a, c);
      IndexedKey(items, idx, dimOf, a, id);
      IndexedKey(items, idx, dimOf, c, id);
    }
  }

  // ------------------------------------------------------- deleting a library

  ghost predicate ItemsOk(b: Buckets) {
    && Indexed(b.data.items, b.libIdx, LibraryOf)
    && Indexed(b.data.items, b.parentIdx, ParentOf)
    && forall id :: id in b.data.items ==> b.data.items[id].id == id
  }

  ghost predicate Distinct<T>(s: seq<T>) { forall i, j :: 0 <= i < j < |s| ==> s[i] != s[j] }

  /** What a prefix scan of an index by `dim` leads to. */
  lemma ScanIds(items: map<string, Item>, idx: map<string, string>, dimOf: Item -> string, dim: string)
    requires Indexed(items, idx, dimOf)
    ensures var ids := Tails(dim, ScanOf(idx, IdxPrefix(dim)));
      Distinct(ids) && forall id :: id in ids <==> id in items && dimOf(items[id]) == dim
  {
    var ks := ScanOf(idx, IdxPrefix(dim));
    var ids := Tails(dim, ks);
    forall i | 0 <= i < |ks|
      ensures ks[i] == IdxKey(dim, ids[i]) && ids[i] in items && dimOf(items[ids[i]]) == dim
    {
      assert ks[i] in ks;
      assert Entry(items, dimOf, ks[i]);
      var j :| j in items && ks[i] == IdxKey(dimOf(items[j]), j);
      PrefixSelects(dim, dimOf(items[j]), j);
    }
    forall i, j | 0 <= i < j < |ids| ensures ids[i] != ids[j] {
      assert Less(ks[i], ks[j]);
      LessTotal(ks[i], ks[j]);
    }
    forall id | id in items && dimOf(items[id]) == dim ensures id in ids {
      var k := IdxKey(dim, id);
      PrefixSelects(dim, dim, id);
      assert k in ks;
      var i :| 0 <= i < |ks| && ks[i] == k;
      KeySplits(dim, ids[i], dim, id);
      assert ids[i] == id;
    }
  }

  lemma DeleteOneOk(b: Buckets, libraryId: string, id: string)
    requires ItemsOk(b) && id in b.data.items && b.data.items[id].libraryId == libraryId
    ensures ItemsOk(DeleteOne(b, libraryId, id))
  {
    RemoveEntry(b.data.items, b.libIdx, LibraryOf, id);
    RemoveEntry(b.data.items, b.parentIdx, ParentOf, id);
  }

  lemma {:induction false} DeleteEachFrame(b: Buckets, libraryId: string, ids: seq<string>)
    ensures var c := DeleteEach(b, libraryId, ids);
      c == b.(data := b.data.(items := c.data.items), libIdx := c.libIdx, parentIdx := c.parentIdx)
    decreases ids
  {
    if ids != [] {
      DeleteEachFrame(DeleteOne(b, libraryId, ids[0]), libraryId, ids[1..]);
    }
  }

  lemma {:induction false} DeleteEachItems(b: Buckets, libraryId: string, ids: seq<string>)
    ensures DeleteEach(b, libraryId, ids).data.items == map id | id in b.data.items && id !in ids :: b.data.items[id]
    decreases ids
  {
    if ids != [] {
      DeleteEachItems(DeleteOne(b, libraryId, ids[0]), libraryId, ids[1..]);
      assert forall id :: id in ids <==> id == ids[0] || id in ids[1..];
    }
  }

  lemma {:induction false} DeleteEachOk(b: Buckets, libraryId: string, ids: seq<string>)
    requires ItemsOk(b) && Distinct(ids)
    requires forall i :: 0 <= i < |ids| ==>
      ids[i] in b.data.items && b.data.items[ids[i]].libraryId == libraryId
    ensures ItemsOk(DeleteEach(b, libraryId, ids))
    decreases ids
  {
    if ids != [] {
      var c, rest := DeleteOne(b, libraryId, ids[0]), ids[1..];
      DeleteOneOk(b, libraryId, ids[0]);
      forall i | 0 <= i < |rest| ensures rest[i] in c.data.items && c.data.items[rest[i]].libraryId == libraryId {
        assert rest[i] == ids[i + 1] && ids[i + 1] != ids[0];
      }
      assert Distinct(rest) by {
        assert forall i :: 0 <= i < |rest| ==> rest[i] == ids[i + 1];
      }
      DeleteEachOk(c, libraryId, rest);
    }
  }

  /** Deleting by index deletes what the scan deletes and leaves no stray key. */
  lemma DeleteIds(b: Buckets, libraryId: string)
    requires ItemsOk(b)
    ensures var ids := Tails(libraryId, ScanOf(b.libIdx, IdxPrefix(libraryId)));
      && Distinct(ids)
      && (forall id :: id in ids <==> id in b.data.items && LibraryOf(b.data.items[id]) == libraryId)
      && DeleteItems(b, libraryId) == DeleteEach(b, libraryId, ids)
  {
    ScanIds(b.data.items, b.libIdx, LibraryOf, libraryId);
  }

  lemma DeleteItemsOk(b: Buckets, libraryId: string)
    requires ItemsOk(b)
    ensures var c := DeleteItems(b, libraryId);
      ItemsOk(c) && c == b.(data := b.data.(items := c.data.items), libIdx := c.libIdx, parentIdx := c.parentIdx)
    ensures DeleteItems(b, libraryId).data.items == J.DeleteLibraryItems(b.data.items, libraryId)
  {
    var ids := Tails(libraryId, ScanOf(b.libIdx, IdxPrefix(libraryId)));
    DeleteIds(b, libraryId);
    assert forall i :: 0 <= i < |ids| ==> ids[i] in ids;
    DeleteEachFrame(b, libraryId, ids);
    DeleteEachItems(b, libraryId, ids);
    DeleteEachOk(b, libraryId, ids);
  }

  // ------------------------------------------------------- inserting new items

  /** The item replaces nothing, or something of the same library and parent. */
  ghost predicate Agrees(m: map<string, Item>, libraryId: string, it: Item) {
    it.id in m ==> m[it.id].libraryId == libraryId && m[it.id].parentId == it.parentId
  }

  /** What a caller of ReplaceLibraryItems must see to: no ID belongs to another
      library, and one ID is not given two parents. */
  ghost predicate Compatible(m: map<string, Item>, libraryId: string, items: seq<Item>) {
    && (forall i :: 0 <= i < |items| ==> Agrees(m, libraryId, items[i]))
    && forall i, j :: 0 <= i < j < |items| && items[i].id == items[j].id ==> items[i].parentId == items[j].parentId
  }

  ghost predicate CleanItems(libraryId: string, items: seq<Item>) {
    NulFree(libraryId) && forall i :: 0 <= i < |items| ==> NulFree(items[i].id) && NulFree(items[i].parentId)
  }

  lemma CompatibleStep(m: map<string, Item>, libraryId: string, items: seq<Item>)
    requires items != []
    ensures Compatible(m, libraryId, items) <==>
      Agrees(m, libraryId, items[0])
      && Compatible(m[items[0].id := items[0].(libraryId := libraryId)], libraryId, items[1..])
  {
    var it, rest := items[0], items[1..];
    var n := m[it.id := it.(libraryId := libraryId)];
    if Compatible(m, libraryId, items) {
      forall i | 0 <= i < |rest| ensures Agrees(n, libraryId, rest[i]) {
        assert rest[i] == items[i + 1];
      }
      forall i, j | 0 <= i < j < |rest| && rest[i].id == rest[j].id ensures rest[i].parentId == rest[j].parentId {
        assert rest[i] == items[i + 1] && rest[j] == items[j + 1];
      }
    }
    if Agrees(m, libraryId, it) && Compatible(n, libraryId, rest) {
      forall i | 0 <= i < |items| ensures Agrees(m, libraryId, items[i]) {
        if i > 0 {
          assert items[i] == rest[i - 1];
          assert Agrees(n, libraryId, rest[i - 1]);
        }
      }
      forall i, j | 0 <= i < j < |items| && items[i].id == items[j].id ensures items[i].parentId == items[j].parentId {
        assert items[j] == rest[j - 1];
        if i > 0 {
          assert items[i] == rest[i - 1];
        } else {
          assert Agrees(n, libraryId, rest[j - 1]);
        }
      }
    }
  }

  lemma PutOneExact(b: Buckets, libraryId: string, it: Item)
    requires ItemsOk(b) && NulFree(libraryId) && NulFree(it.id) && NulFree(it.parentId)
    ensures Agrees(b.data.items, libraryId, it) ==> ItemsOk(PutOne(b, libraryId, it))
    ensures !Agrees(b.data.items, libraryId, it) ==>
      var c := PutOne(b, libraryId, it); Skewed(c.libIdx, it.id) || Skewed(c.parentIdx, it.id)
  {
    var x := it.(libraryId := libraryId);
    var c := PutOne(b, libraryId, it);
    if Agrees(b.data.items, libraryId, it) {
      AddEntry(b.data.items, b.libIdx, LibraryOf, it.id, x);
      AddEntry(b.data.items, b.parentIdx, ParentOf, it.id, x);
    } else {
      var was := b.data.items[it.id];
      if was.libraryId != libraryId {
        assert TwoKeys(c.libIdx, it.id, was.libraryId, libraryId);
      } else {
        assert TwoKeys(c.parentIdx, it.id, was.parentId, it.parentId);
      }
    }
  }

  lemma {:induction false} PutEachKeepsSkew(b: Buckets, libraryId: string, items: seq<Item>, id: string)
    requires Skewed(b.libIdx, id) || Skewed(b.parentIdx, id)
    ensures var c := PutEach(b, libraryId, items); Skewed(c.libIdx, id) || Skewed(c.parentIdx, id)
    decreases items
  {
    if items != [] {
      var c := PutOne(b, libraryId, items[0]);
      if Skewed(b.libIdx, id) {
        var x, y :| TwoKeys(b.libIdx, id, x, y);
        assert TwoKeys(c.libIdx, id, x, y);
      } else {
        var x, y :| TwoKeys(b.parentIdx, id, x, y);
        assert TwoKeys(c.parentIdx, id, x, y);
      }
      PutEachKeepsSkew(c, libraryId, items[1..], id);
    }
  }

  lemma {:induction false} PutEachExact(b: Buckets, libraryId: string, items: seq<Item>)
    requires ItemsOk(b) && CleanItems(libraryId, items)
    ensures ItemsOk(PutEach(b, libraryId, items)) <==> Compatible(b.data.items, libraryId, items)
    decreases items
  {
    if items != [] {
      var c := PutOne(b, libraryId, items[0]);
      CompatibleStep(b.data.items, libraryId, items);
      PutOneExact(b, libraryId, items[0]);
      if Agrees(b.data.items, libraryId, items[0]) {
        assert CleanItems(libraryId, items[1..]) by {
          assert forall i :: 0 <= i < |items[1..]| ==> items[1..][i] == items[i + 1];
        }
        PutEachExact(c, libraryId, items[1..]);
      } else {
        PutEachKeepsSkew(c, libraryId, items[1..], items[0].id);
        var d := PutEach(b, libraryId, items);
        if Skewed(d.libIdx, items[0].id) {
          SkewedIsWrong(d.data.items, d.libIdx, LibraryOf, items[0].id);
        } else {
          SkewedIsWrong(d.data.items, d.parentIdx, ParentOf, items[0].id);
        }
      }
    }
  }

  lemma {:induction false} PutEachData(b: Buckets, libraryId: string, items: seq<Item>)
    ensures var c := PutEach(b, libraryId, items);
      && c.data == b.data.(items := J.PutItems(b.data.items, libraryId, items))
      && c.tokenIdx == b.tokenIdx
    decreases items
  {
    if items != [] {
      PutEachData(PutOne(b, libraryId, items[0]), libraryId, items[1..]);
    }
  }

  // ----------------------------------------------------- the whole invariant

  ghost predicate TokensOk(b: Buckets) {
    && (forall id :: id in b.data.sessions ==>
         var h := b.data.sessions[id].tokenHash; h in b.tokenIdx && b.tokenIdx[h] == id)
    && forall h :: h in b.tokenIdx ==>
         b.tokenIdx[h] in b.data.sessions && b.data.sessions[b.tokenIdx[h]].tokenHash == h
  }

  ghost predicate RowsOk(d: Data) {
    && Keyed(d)
    && (forall k, l :: k in d.libraries && l in d.libraries && d.libraries[k].path == d.libraries[l].path ==> k == l)
    && forall k :: k in d.userData ==>
         k == IdxKey(d.userData[k].userId, d.userData[k].itemId) && NulFree(d.userData[k].userId)
  }

  ghost predicate Inv(b: Buckets) { TokensOk(b) && ItemsOk(b) && RowsOk(b.data) }

  /** IDs that become the first part of a composite key, or the second part of an
      item key, contain no NUL. */
  ghost predicate Clean(op: J.Op) {
    match op
    case ReplaceLibraryItems(id, items, _) => CleanItems(id, items)
    case UpsertUserItemData(x) => NulFree(x.userId)
    case _ => true
  }

  /** What a caller must see to before an operation. */
  ghost predicate Admissible(d: Data, op: J.Op) {
    match op
    case CreateSession(s) =>
      && (s.id in d.sessions ==> d.sessions[s.id].tokenHash == s.tokenHash)
      && forall k :: k in d.sessions && k != s.id ==> d.sessions[k].tokenHash != s.tokenHash
    case ReplaceLibraryItems(id, items, _) =>
      id in d.libraries ==> Compatible(J.DeleteLibraryItems(d.items, id), id, items)
    case _ => true
  }

  lemma CreateSessionExact(b: Buckets, s: Session)
    requires Inv(b)
    ensures Inv(CreateSessionIn(b, s)) <==> Admissible(b.data, J.Op.CreateSession(s))
  {
    var c := CreateSessionIn(b, s);
    if Admissible(b.data, J.Op.CreateSession(s)) {
      assert TokensOk(c);
      assert RowsOk(c.data);
    } else if s.id in b.data.sessions && b.data.sessions[s.id].tokenHash != s.tokenHash {
      var h := b.data.sessions[s.id].tokenHash;
      assert c.tokenIdx[h] == s.id && c.data.sessions[s.id].tokenHash != h;
    } else {
      var k :| k in b.data.sessions && k != s.id && b.data.sessions[k].tokenHash == s.tokenHash;
      assert c.data.sessions[k].tokenHash == s.tokenHash && c.tokenIdx[s.tokenHash] != k;
    }
  }

  /** The items and indexes after the loop, before the library's own record. */
  lemma ReplaceItems(b: Buckets, id: string, items: seq<Item>)
    requires Inv(b) && CleanItems(id, items)
    ensures var c := PutEach(DeleteItems(b, id), id, items);
      && (ItemsOk(c) <==> Compatible(J.DeleteLibraryItems(b.data.items, id), id, items))
      && c.data == b.data.(items := J.PutItems(J.DeleteLibraryItems(b.data.items, id), id, items))
      && c.tokenIdx == b.tokenIdx
  {
    DeleteItemsOk(b, id);
    PutEachExact(DeleteItems(b, id), id, items);
    PutEachData(DeleteItems(b, id), id, items);
  }

  /** A library's record has no part in the indexes, and keeps its path. */
  lemma LibraryRecord(b: Buckets, c: Buckets, id: string, l: Library)
    requires Inv(b) && id in b.data.libraries && l.id == id && l.path == b.data.libraries[id].path
    requires c.data == b.data.(items := c.data.items) && c.tokenIdx == b.tokenIdx
    requires forall k :: k in c.data.items ==> c.data.items[k].id == k
    ensures Inv(PutLibrary(c, id, l)) <==> ItemsOk(c)
  {
    var d := PutLibrary(c, id, l);
    assert RowsOk(d.data);
    assert TokensOk(d);
  }

  lemma ReplaceExact(b: Buckets, op: J.Op)
    requires Inv(b) && op.ReplaceLibraryItems? && Clean(op)
    ensures Inv(Step(b, op).0) <==> Admissible(b.data, op)
    ensures Step(b, op).0.data == J.Step(b.data, op).0
  {
    var id := op.libraryId;
    if id in b.data.libraries {
      var c := PutEach(DeleteItems(b, id), id, op.items);
      ReplaceItems(b, id, op.items);
      PutItemsKeyed(J.DeleteLibraryItems(b.data.items, id), id, op.items);
      LibraryRecord(b, c, id, b.data.libraries[id].(itemCount := |op.items|, scannedAt := op.at));
    }
  }

  lemma {:induction false} PutItemsKeyed(m: map<string, Item>, libraryId: string, items: seq<Item>)
    requires forall k :: k in m ==> m[k].id == k
    ensures forall k :: k in J.PutItems(m, libraryId, items) ==> J.PutItems(m, libraryId, items)[k].id == k
    decreases items
  {
    if items != [] {
      PutItemsKeyed(m[items[0].id := items[0].(libraryId := libraryId)], libraryId, items[1..]);
    }
  }

  lemma DeleteSessionOk(b: Buckets, id: string)
    requires Inv(b)
    ensures Inv(Step(b, J.Op.DeleteSession(id)).0)
  {
    var c := Step(b, J.Op.DeleteSession(id)).0;
    assert TokensOk(c);
    assert RowsOk(c.data);
  }

  lemma CreateLibraryOk(b: Buckets, l: Library)
    requires Inv(b)
    ensures Inv(Step(b, J.Op.CreateLibrary(l)).0)
  {
    var c := Step(b, J.Op.CreateLibrary(l)).0;
    assert c == b.(data := c.data) && c.data == b.data.(libraries := c.data.libraries);
    assert RowsOk(c.data);
  }

  lemma UpsertOk(b: Buckets, x: UserData)
    requires Inv(b) && NulFree(x.userId)
    ensures Inv(Step(b, J.Op.UpsertUserItemData(x)).0)
  {
    var c := Step(b, J.Op.UpsertUserItemData(x)).0;
    assert c == b.(data := c.data) && c.data == b.data.(userData := c.data.userData);
    assert RowsOk(c.data);
  }

  lemma TouchOk(b: Buckets, id: string, at: int)
    requires Inv(b)
    ensures Inv(Step(b, J.Op.TouchSession(id, at)).0)
  {
    var c := Step(b, J.Op.TouchSession(id, at)).0;
    assert c == b.(data := c.data) && c.data == b.data.(sessions := c.data.sessions);
    assert TokensOk(c);
    assert RowsOk(c.data);
  }

  lemma DeleteLibraryOk(b: Buckets, id: string)
    requires Inv(b)
    ensures Inv(Step(b, J.Op.DeleteLibrary(id)).0)
  {
    if id in b.data.libraries {
      DeleteItemsOk(b.(data := b.data.(libraries := b.data.libraries - {id})), id);
    }
  }

  /** The indexes still hold exactly the implied keys after an operation if and
      only if the caller respected its condition. */
  lemma StepExact(b: Buckets, op: J.Op)
    requires Inv(b) && Clean(op)
    ensures Inv(Step(b, op).0) <==> Admissible(b.data, op)
  {
    match op
    case CreateSession(s) => CreateSessionExact(b, s);
    case ReplaceLibraryItems(_, _, _) => ReplaceExact(b, op);
    case DeleteLibrary(id) => DeleteLibraryOk(b, id);
    case DeleteSession(id) => DeleteSessionOk(b, id);
    case CreateLibrary(l) => CreateLibraryOk(b, l);
    case UpsertUserItemData(x) => UpsertOk(b, x);
    case TouchSession(id, at) => TouchOk(b, id, at);
  }

  /** Both stores leave the same primary records and return the same error. */
  lemma StepAgrees(b: Buckets, op: J.Op)
    requires Inv(b) && Clean(op)
    ensures Step(b, op).0.data == J.Step(b.data, op).0
    ensures Step(b, op).1 == J.Step(b.data, op).1
  {
    match op
    case ReplaceLibraryItems(_, _, _) => ReplaceExact(b, op);
    case DeleteLibrary(id) =>
      if id in b.data.libraries {
        DeleteItemsOk(b.(data := b.data.(libraries := b.data.libraries - {id})), id);
      }
    case _ =>
  }

  // ------------------------------------------------------------------ look-ups

  lemma TokenLookUpAgrees(b: Buckets, tokenHash: string)
    requires Inv(b)
    ensures J.AnswersToken(b.data, tokenHash, LookUp(b, tokenHash))
    ensures forall r :: J.AnswersToken(b.data, tokenHash, r) ==> r == LookUp(b, tokenHash)
  {
  }

  lemma {:induction false} FollowAll(items: map<string, Item>, ids: seq<string>)
    requires forall id :: id in ids ==> id in items
    ensures |Follow(items, ids)| == |ids| && forall i :: 0 <= i < |ids| ==> Follow(items, ids)[i] == items[ids[i]]
    decreases ids
  {
    if ids != [] {
      FollowAll(items, ids[..|ids| - 1]);
      assert ids[|ids| - 1] in ids;
    }
  }

  lemma IndexListsMember(b: Buckets, idx: map<string, string>, dimOf: Item -> string, dim: string, x: Item)
    requires Indexed(b.data.items, idx, dimOf) && Keyed(b.data)
    ensures x in ListVia(b, idx, dim) <==> x.id in b.data.items && b.data.items[x.id] == x && dimOf(x) == dim
  {
    var ids := Tails(dim, ScanOf(idx, IdxPrefix(dim)));
    ScanIds(b.data.items, idx, dimOf, dim);
    FollowAll(b.data.items, ids);
    var out := ListVia(b, idx, dim);
    if x in out {
      var i :| 0 <= i < |out| && out[i] == x;
      assert ids[i] in ids;
    }
    if x.id in ids && b.data.items[x.id] == x {
      var i :| 0 <= i < |ids| && ids[i] == x.id;
      assert out[i] == x;
    }
  }

  lemma IndexListsOnce(b: Buckets, idx: map<string, string>, dimOf: Item -> string, dim: string, i: nat, j: nat)
    requires Indexed(b.data.items, idx, dimOf) && Keyed(b.data) && i < j < |ListVia(b, idx, dim)|
    ensures ListVia(b, idx, dim)[i] != ListVia(b, idx, dim)[j]
  {
    var ids := Tails(dim, ScanOf(idx, IdxPrefix(dim)));
    ScanIds(b.data.items, idx, dimOf, dim);
    FollowAll(b.data.items, ids);
    assert ids[i] in ids && ids[j] in ids;
  }

  lemma IndexLists(b: Buckets, idx: map<string, string>, dimOf: Item -> string, dim: string)
    requires Indexed(b.data.items, idx, dimOf) && Keyed(b.data)
    ensures Lists(ListVia(b, idx, dim), b.data.items, (x: Item) => dimOf(x) == dim)
  {
    var out := ListVia(b, idx, dim);
    forall x ensures x in out <==> x.id in b.data.items && b.data.items[x.id] == x && dimOf(x) == dim {
      IndexListsMember(b, idx, dimOf, dim, x);
    }
    forall i, j | 0 <= i < j < |out| ensures out[i] != out[j] {
      IndexListsOnce(b, idx, dimOf, dim, i, j);
    }
  }

  /** Listing a library by its index gives the scan's items, for any query. */
  lemma LibraryListingAgrees(b: Buckets, dim: string, scanned: seq<Item>)
    requires Inv(b) && Lists(scanned, b.data.items, (x: Item) => x.libraryId == dim)
    ensures multiset(ListVia(b, b.libIdx, dim)) == multiset(scanned)
  {
    IndexLists(b, b.libIdx, LibraryOf, dim);
    var out := ListVia(b, b.libIdx, dim);
    assert Lists(out, b.data.items, (x: Item) => x.libraryId == dim);
    ListingsAgree(out, scanned, b.data.items, (x: Item) => x.libraryId == dim);
  }

  lemma ParentListingAgrees(b: Buckets, dim: string, scanned: seq<Item>)
    requires Inv(b) && Lists(scanned, b.data.items, (x: Item) => x.parentId == dim)
    ensures multiset(ListVia(b, b.parentIdx, dim)) == multiset(scanned)
  {
    IndexLists(b, b.parentIdx, ParentOf, dim);
    var out := ListVia(b, b.parentIdx, dim);
    assert Lists(out, b.data.items, (x: Item) => x.parentId == dim);
    ListingsAgree(out, scanned, b.data.items, (x: Item) => x.parentId == dim);
  }

  /** The rows under a user's prefix are that user's rows and no other's, even when
      one user ID is a prefix of another. */
  lemma UserListingAgrees(d: Data, userId: string, out: seq<UserData>)
    requires RowsOk(d) && NulFree(userId)
    requires var ks := ScanOf(d.userData, IdxPrefix(userId));
      |out| == |ks| && forall i :: 0 <= i < |ks| ==> out[i] == d.userData[ks[i]]
    ensures J.AnswersUser(d, userId, out)
  {
    var ks := ScanOf(d.userData, IdxPrefix(userId));
    forall x ensures x in out <==>
      var k := IdxKey(x.userId, x.itemId); k in d.userData && d.userData[k] == x && x.userId == userId
    {
      var k := IdxKey(x.userId, x.itemId);
      if x in out {
        var i :| 0 <= i < |out| && out[i] == x;
        assert ks[i] in ks && ks[i] == k;
        PrefixSelects(userId, x.userId, x.itemId);
      }
      if k in d.userData && d.userData[k] == x && x.userId == userId {
        PrefixSelects(userId, x.userId, x.itemId);
        assert k in ks;
        var i :| 0 <= i < |ks| && ks[i] == k;
        assert out[i] == x;
      }
    }
    forall i, j | 0 <= i < j < |out| ensures out[i] != out[j] {
      assert ks[i] in ks && ks[j] in ks && Less(ks[i], ks[j]);
      LessTotal(ks[i], ks[j]);
    }
  }

  // ---------------------------------------------------------------- all runs

  ghost function BoltRun(b: Buckets, ops: seq<J.Op>): (Buckets, seq<Option<Error>>)
    decreases ops
  {
    if ops == [] then (b, [])
    else
      var (c, e) := Step(b, ops[0]);
      var (d, es) := BoltRun(c, ops[1..]);
      (d, [e] + es)
  }

  function JsonRun(d: Data, ops: seq<J.Op>): (Data, seq<Option<Error>>)
    decreases ops
  {
    if ops == [] then (d, [])
    else
      var (c, e) := J.Step(d, ops[0]);
      var (x, es) := JsonRun(c, ops[1..]);
      (x, [e] + es)
  }

  /** Each operation of the run is admissible where the scanning store stands. */
  ghost predicate AdmissibleRun(d: Data, ops: seq<J.Op>)
    decreases ops
  {
    ops == [] || (Clean(ops[0]) && Admissible(d, ops[0]) && AdmissibleRun(J.Step(d, ops[0]).0, ops[1..]))
  }

  /** For every run: the same results, the same records, and indexes that agree
      with them, so that every later look-up agrees too. */
  lemma {:induction false} RunsAgree(b: Buckets, ops: seq<J.Op>)
    requires Inv(b) && AdmissibleRun(b.data, ops)
    ensures BoltRun(b, ops).1 == JsonRun(b.data, ops).1
    ensures BoltRun(b, ops).0.data == JsonRun(b.data, ops).0
    ensures Inv(BoltRun(b, ops).0)
    decreases ops
  {
    if ops != [] {
      StepExact(b, ops[0]);
      StepAgrees(b, ops[0]);
      RunsAgree(Step(b, ops[0]).0, ops[1..]);
    }
  }
}
