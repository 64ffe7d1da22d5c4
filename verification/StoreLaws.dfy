/** What reading back says after each write to the JSON store
    (internal/store/jsonstore.go), and so, by simulation, to the bolt store. */
module StoreLaws {
  import opened Wrappers
  import opened Models
  import opened Keys
  import opened JsonStore

  // ------------------------------------------------------------------- sessions

  /** No session but `id` has the hash. */
  ghost predicate HashIsOnly(d: Data, tokenHash: string, id: string) {
    forall k :: k in d.sessions && d.sessions[k].tokenHash == tokenHash ==> k == id
  }

  /** A new session is the answer to its token, and deleting it makes the token unknown. */
  lemma SessionReadBack(d: Data, s: Session, r: Result<Session, Error>, gone: Result<Session, Error>)
    requires HashIsOnly(d, s.tokenHash, s.id)
    requires var d1 := Step(d, Op.CreateSession(s)).0;
      AnswersToken(d1, s.tokenHash, r) && AnswersToken(Step(d1, Op.DeleteSession(s.id)).0, s.tokenHash, gone)
    ensures r == Ok(s) && gone == Err(NotFound)
    ensures Step(d, Op.CreateSession(s)).1 == None
  {
  }

  /** A touched session has the new activity when it is looked up, and nothing else new. */
  lemma TouchReadBack(d: Data, id: string, at: int, r: Result<Session, Error>)
    requires Keyed(d) && id in d.sessions && HashIsOnly(d, d.sessions[id].tokenHash, id)
    requires AnswersToken(Step(d, Op.TouchSession(id, at)).0, d.sessions[id].tokenHash, r)
    ensures r == Ok(Session(id, d.sessions[id].userId, d.sessions[id].tokenHash, at))
  {
    var after := Step(d, Op.TouchSession(id, at)).0.sessions;
    assert id in after && after[id].tokenHash == d.sessions[id].tokenHash;
    assert forall k :: k in after ==> k in d.sessions && after[k].tokenHash == d.sessions[k].tokenHash;
  }

  /** Session calls: what they answer, and that they change no other session and no
      other table. */
  lemma SessionFrame(d: Data, op: Op, id: string)
    requires op == Op.DeleteSession(id) || (op.TouchSession? && op.sessionId == id)
             || (op.CreateSession? && op.session.id == id)
    ensures var (d', e) := Step(d, op);
      && e == (if op.CreateSession? || id in d.sessions then None else Some(NotFound))
      && (forall k :: k != id ==> (k in d'.sessions <==> k in d.sessions))
      && (forall k :: k != id && k in d.sessions ==> d'.sessions[k] == d.sessions[k])
      && (id in d'.sessions <==> op.CreateSession? || (op.TouchSession? && id in d.sessions))
      && d'.libraries == d.libraries && d'.items == d.items && d'.userData == d.userData
  {
  }

  // ------------------------------------------------------------------ user data

  /** A stored row is listed for its user; every other row of every user stays as it was. */
  lemma UpsertReadBack(d: Data, x: UserData, out: seq<UserData>)
    requires AnswersUser(Step(d, Op.UpsertUserItemData(x)).0, x.userId, out)
    ensures x in out
    ensures forall y: UserData :: y.userId == x.userId && IdxKey(y.userId, y.itemId) != IdxKey(x.userId, x.itemId) ==>
      (y in out <==> IdxKey(y.userId, y.itemId) in d.userData && d.userData[IdxKey(y.userId, y.itemId)] == y)
    ensures forall y :: y in out && y.itemId == x.itemId ==> y == x
    ensures var (d', e) := Step(d, Op.UpsertUserItemData(x));
      && e == None && d'.sessions == d.sessions && d'.libraries == d.libraries && d'.items == d.items
      && forall k :: k != IdxKey(x.userId, x.itemId) ==>
           (k in d'.userData <==> k in d.userData) && (k in d.userData ==> d'.userData[k] == d.userData[k])
  {
  }

  // ------------------------------------------------------------------- libraries

  /** A library is refused exactly when some library has its path; else it is there as
      given, beside the others. */
  lemma CreateLibraryReadBack(d: Data, l: Library)
    ensures var (d', e) := Step(d, Op.CreateLibrary(l));
      if exists k :: k in d.libraries && d.libraries[k].path == l.path then d' == d && e == Some(Conflict)
      else
        && e == None && d'.libraries.Keys == d.libraries.Keys + {l.id} && d'.libraries[l.id] == l
        && (forall k :: k in d.libraries && k != l.id ==> d'.libraries[k] == d.libraries[k])
        && d'.sessions == d.sessions && d'.items == d.items && d'.userData == d.userData
  {
  }

  /** A deleted library is gone and lists nothing; the items of the others stay. */
  lemma DeleteLibraryReadBack(d: Data, id: string, out: seq<Item>)
    requires Lists(out, Step(d, Op.DeleteLibrary(id)).0.items, (x: Item) => x.libraryId == id)
    ensures var (d', e) := Step(d, Op.DeleteLibrary(id));
      if id !in d.libraries then d' == d && e == Some(NotFound)
      else
        && e == None && d'.libraries.Keys == d.libraries.Keys - {id} && out == []
        && (forall k :: k in d'.libraries ==> d'.libraries[k] == d.libraries[k])
        && (forall k :: k in d'.items <==> k in d.items && d.items[k].libraryId != id)
        && (forall k :: k in d'.items ==> d'.items[k] == d.items[k])
        && d'.sessions == d.sessions && d'.userData == d.userData
  {
    assert out != [] ==> out[0] in out;
  }

  /** The i-th incoming item, and no later one, has the ID. */
  ghost predicate LastWith(items: seq<Item>, id: string, i: int) {
    0 <= i < |items| && items[i].id == id && forall j :: i < j < |items| ==> items[j].id != id
  }

  lemma {:induction false} PutExact(m: map<string, Item>, lib: string, items: seq<Item>, id: string)
    ensures forall i :: LastWith(items, id, i) ==>
      id in PutItems(m, lib, items) && PutItems(m, lib, items)[id] == items[i].(libraryId := lib)
    ensures (forall i :: 0 <= i < |items| ==> items[i].id != id) ==>
      && (id in PutItems(m, lib, items) <==> id in m)
      && (id in m ==> PutItems(m, lib, items)[id] == m[id])
    decreases items
  {
    if items != [] {
      var m1, rest := m[items[0].id := items[0].(libraryId := lib)], items[1..];
      PutExact(m1, lib, rest, id);
      forall i | LastWith(items, id, i)
        ensures id in PutItems(m, lib, items) && PutItems(m, lib, items)[id] == items[i].(libraryId := lib)
      {
        if i > 0 {
          assert LastWith(rest, id, i - 1);
        } else {
          assert forall j :: 0 <= j < |rest| ==> rest[j] == items[j + 1];
        }
      }
      if forall i :: 0 <= i < |items| ==> items[i].id != id {
        assert forall j :: 0 <= j < |rest| ==> rest[j] == items[j + 1];
      }
    }
  }

  /** After a rescan an incoming item is read back stamped with the library, the last of
      each ID winning; of the rest, the library's old items are gone and those of other
      libraries as they were; the library's count is the number of incoming items. */
  lemma ReplaceReadBack(d: Data, lib: string, items: seq<Item>, at: int, id: string)
    ensures var (d', e) := Step(d, Op.ReplaceLibraryItems(lib, items, at));
      if lib !in d.libraries then d' == d && e == Some(NotFound)
      else
        && e == None && d'.sessions == d.sessions && d'.userData == d.userData
        && (forall i :: LastWith(items, id, i) ==> id in d'.items && d'.items[id] == items[i].(libraryId := lib))
        && ((forall i :: 0 <= i < |items| ==> items[i].id != id) ==>
              (id in d'.items <==> id in d.items && d.items[id].libraryId != lib)
              && (id in d'.items ==> d'.items[id] == d.items[id]))
        && d'.libraries.Keys == d.libraries.Keys
        && (forall k :: k in d.libraries && k != lib ==> d'.libraries[k] == d.libraries[k])
        && d'.libraries[lib] == Library(d.libraries[lib].id, d.libraries[lib].name, d.libraries[lib].path, |items|, at)
  {
    PutExact(DeleteLibraryItems(d.items, lib), lib, items, id);
  }
}
