/** Runs of library registration, removal and rescans: the scans meet the indexed
    store's conditions, and the published listings keep agreeing with the
    counters (internal/media/scan.go against internal/store). */
module Publishing {
  import opened Wrappers
  import opened Models
  import opened Keys
  import opened MediaIds
  import opened Scan
  import opened Catalog
  import J = JsonStore
  import S = Simulation
  import B = BoltStore

  // ------------------------------------------------------- libraries stay apart

  /** Libraries are identified by their root; no two hold the same file; every
      item comes from its library. `paths` says which files each last scan saw. */
  ghost predicate Apart(e: Env, d: Data, paths: map<string, set<string>>) {
    && Keyed(d)
    && paths.Keys == d.libraries.Keys
    && (forall l :: l in d.libraries ==> l == LibraryId(e, d.libraries[l].path))
    && (forall l, m :: l in paths && m in paths && l != m ==> paths[l] !! paths[m])
    && forall k :: k in d.items ==>
         d.items[k].libraryId in paths && FromLibrary(e, d.items[k].libraryId, paths[d.items[k].libraryId], d.items[k])
  }

  lemma LibraryIdClean(e: Env, root: string)
    requires Hashing(e)
    ensures ':' !in LibraryId(e, root) && NulFree(LibraryId(e, root))
    ensures LibraryId(e, root) == IdOf(e, LibraryId(e, root), OfLibrary(root))
  {
  }

  lemma OriginsOfTwoLibraries(e: Env, root: string, p: set<string>, o: Origin, root': string, p': set<string>, o': Origin,
                              id: string)
    requires Hashing(e) && LibraryId(e, root) != LibraryId(e, root') && p !! p'
    requires IdFrom(e, LibraryId(e, root), p, o, id)
    ensures !IdFrom(e, LibraryId(e, root'), p', o', id)
    ensures !FolderFrom(e, LibraryId(e, root'), o', id)
    ensures id != LibraryId(e, root')
  {
    var lib, lib' := LibraryId(e, root), LibraryId(e, root');
    LibraryIdClean(e, root);
    LibraryIdClean(e, root');
    if IdOf(e, lib, o) == IdOf(e, lib', o') {
      SameIdSameOrigin(e, lib, o, lib', o');
    }
    if IdOf(e, lib, o) == lib' {
      SameIdSameOrigin(e, lib, o, lib', OfLibrary(root'));
    }
  }

  /** No item is named like an item of another library or filed under one. */
  lemma FromDifferentLibraries(e: Env, root: string, p: set<string>, x: Item, root': string, p': set<string>, y: Item)
    requires Hashing(e) && LibraryId(e, root) != LibraryId(e, root') && p !! p'
    requires FromLibrary(e, LibraryId(e, root), p, x) && FromLibrary(e, LibraryId(e, root'), p', y)
    ensures x.id != y.id && y.parentId != x.id
  {
    var lib' := LibraryId(e, root');
    var o :| IdFrom(e, LibraryId(e, root), p, o, x.id);
    var o' :| IdFrom(e, lib', p', o', y.id);
    OriginsOfTwoLibraries(e, root, p, o, root', p', o', x.id);
    if y.parentId != lib' {
      var q :| FolderFrom(e, lib', q, y.parentId);
      OriginsOfTwoLibraries(e, root, p, o, root', p', q, x.id);
    }
  }

  // ---------------------------------------------------------- listings agree

  ghost function KidsIn(items: map<string, Item>, id: string): set<string> {
    set k | k in items && items[k].parentId == id
  }

  ghost function OwnedIn(items: map<string, Item>, lib: string): set<string> {
    set k | k in items && items[k].libraryId == lib
  }

  /** Each item's ChildCount and each library's ItemCount is the length of the
      listing a client would get. */
  ghost predicate CountsOk(d: Data) {
    && (forall k :: k in d.items ==> |KidsIn(d.items, k)| == d.items[k].childCount)
    && forall l :: l in d.libraries ==> |OwnedIn(d.items, l)| == d.libraries[l].itemCount
  }

  lemma {:induction false} PutItemsAt(m: map<string, Item>, lib: string, out: seq<Item>, k: string)
    requires forall i, j :: 0 <= i < j < |out| ==> out[i].id != out[j].id
    ensures k in J.PutItems(m, lib, out) <==> k in m || exists i :: 0 <= i < |out| && out[i].id == k
    ensures k in J.PutItems(m, lib, out) && (forall i :: 0 <= i < |out| ==> out[i].id != k) ==>
      J.PutItems(m, lib, out)[k] == m[k]
    ensures forall i :: 0 <= i < |out| && out[i].id == k ==> J.PutItems(m, lib, out)[k] == out[i].(libraryId := lib)
    decreases out
  {
    if out != [] {
      var rest := out[1..];
      var n := m[out[0].id := out[0].(libraryId := lib)];
      forall i, j | 0 <= i < j < |rest| ensures rest[i].id != rest[j].id {
        assert rest[i] == out[i + 1] && rest[j] == out[j + 1];
      }
      PutItemsAt(n, lib, rest, k);
      assert forall i :: 0 <= i < |rest| ==> rest[i] == out[i + 1];
      if i :| 0 <= i < |out| && out[i].id == k {
        assert i > 0 ==> rest[i - 1].id == k;
      }
    }
  }

  /** The items after publishing: other libraries' items and the new ones. */
  ghost predicate Merged(before: map<string, Item>, lib: string, out: seq<Item>, after: map<string, Item>) {
    && (forall k :: k in before && before[k].libraryId != lib ==> k in after && after[k] == before[k])
    && (forall i :: 0 <= i < |out| ==> out[i].id in after && after[out[i].id] == out[i])
    && forall k :: k in after ==>
         (k in before && before[k].libraryId != lib) || exists i :: 0 <= i < |out| && out[i].id == k
  }

  ghost predicate NoneForeign(before: map<string, Item>, lib: string, out: seq<Item>) {
    forall k, i :: k in before && before[k].libraryId != lib && 0 <= i < |out| ==>
      out[i].id != k && out[i].parentId != k && before[k].parentId != out[i].id
  }

  lemma PublishMerges(e: Env, d: Data, root: string, paths: set<string>, out: seq<Item>)
    requires Scanned(e, root, paths, out) && NoneForeign(d.items, LibraryId(e, root), out)
    ensures Merged(d.items, LibraryId(e, root), out,
      J.PutItems(J.DeleteLibraryItems(d.items, LibraryId(e, root)), LibraryId(e, root), out))
  {
    var lib := LibraryId(e, root);
    var kept := J.DeleteLibraryItems(d.items, lib);
    var after := J.PutItems(kept, lib, out);
    forall k | k in d.items && d.items[k].libraryId != lib ensures k in after && after[k] == d.items[k] {
      PutItemsAt(kept, lib, out, k);
    }
    forall i | 0 <= i < |out| ensures out[i].id in after && after[out[i].id] == out[i] {
      PutItemsAt(kept, lib, out, out[i].id);
      assert out[i] in out;
    }
    forall k | k in after
      ensures (k in d.items && d.items[k].libraryId != lib) || exists i :: 0 <= i < |out| && out[i].id == k
    {
      PutItemsAt(kept, lib, out, k);
    }
  }

  lemma MergedKids(before: map<string, Item>, lib: string, out: seq<Item>, after: map<string, Item>, k: string)
    requires Merged(before, lib, out, after) && NoneForeign(before, lib, out) && k in after
    requires forall j :: j in before && before[j].libraryId == lib && k in before && before[k].libraryId != lib ==>
      before[j].parentId != k
    ensures KidsIn(after, k) ==
      if k in before && before[k].libraryId != lib then KidsIn(before, k) else KidsOf(out, k)
  {
    if k in before && before[k].libraryId != lib {
      assert forall i :: 0 <= i < |out| ==> after[out[i].id] == out[i] && out[i].parentId != k;
      assert forall j :: j in KidsIn(after, k) ==> j in before && before[j].libraryId != lib;
    } else {
      var n :| 0 <= n < |out| && out[n].id == k;
      forall j ensures j in KidsIn(after, k) <==> j in KidsOf(out, k) {
        if j in KidsIn(after, k) {
          assert !(j in before && before[j].libraryId != lib);
          var i :| 0 <= i < |out| && out[i].id == j;
          assert out[i] in out;
        }
        if j in KidsOf(out, k) {
          var y :| y in out && y.parentId == k && y.id == j;
          var i :| 0 <= i < |out| && out[i] == y;
        }
      }
    }
  }

  lemma MergedOwned(before: map<string, Item>, lib: string, out: seq<Item>, after: map<string, Item>, l: string)
    requires Merged(before, lib, out, after) && forall i :: 0 <= i < |out| ==> out[i].libraryId == lib
    requires forall i, j :: 0 <= i < j < |out| ==> out[i].id != out[j].id
    ensures |OwnedIn(after, l)| == if l == lib then |out| else |OwnedIn(before, l)|
  {
    if l == lib {
      forall k ensures k in OwnedIn(after, l) <==> k in Ids(out) {
        if k in Ids(out) {
          var i :| 0 <= i < |out| && out[i].id == k;
        }
      }
      assert OwnedIn(after, l) == Ids(out);
      IdsCount(out);
    } else {
      assert OwnedIn(after, l) == OwnedIn(before, l);
    }
  }

  ghost function Ids(out: seq<Item>): set<string> { set i | 0 <= i < |out| :: out[i].id }

  lemma {:induction false} IdsCount(out: seq<Item>)
    requires forall i, j :: 0 <= i < j < |out| ==> out[i].id != out[j].id
    ensures |Ids(out)| == |out|
    decreases out
  {
    if out != [] {
      var n := |out| - 1;
      IdsCount(out[..n]);
      IdsMore(out[..n], out[n]);
      assert out == out[..n] + [out[n]];
      assert out[n].id !in Ids(out[..n]);
    }
  }

  lemma IdsMore(out: seq<Item>, x: Item)
    ensures Ids(out + [x]) == Ids(out) + {x.id}
  {
    var all := out + [x];
    assert all[|out|] == x && forall i :: 0 <= i < |out| ==> all[i] == out[i];
  }

  // ------------------------------------------------------------------ one step

  datatype Event =
    | Register(library: Library)
    | Remove(libraryId: string)
    | Rescan(root: string, files: set<string>, out: seq<Item>, at: int)

  function OpOf(e: Env, ev: Event): J.Op {
    match ev
    case Register(l) => J.CreateLibrary(l)
    case Remove(id) => J.DeleteLibrary(id)
    case Rescan(root, _, out, at) => J.ReplaceLibraryItems(LibraryId(e, root), out, at)
  }

  /** New libraries start empty under the ID of their path; a rescan publishes the
      output of a scan whose files are in no other library. */
  ghost predicate Proper(e: Env, paths: map<string, set<string>>, ev: Event) {
    match ev
    case Register(l) => l.id == LibraryId(e, l.path) && l.itemCount == 0
    case Remove(_) => true
    case Rescan(root, files, out, _) =>
      && Scanned(e, root, files, out)
      && forall l :: l in paths && l != LibraryId(e, root) ==> paths[l] !! files
  }

  ghost function PathsAfter(e: Env, d: Data, paths: map<string, set<string>>, ev: Event): map<string, set<string>> {
    match ev
    case Register(l) => if J.PathTaken(d.libraries, l.path) then paths else paths[l.id := {}]
    case Remove(id) => paths - {id}
    case Rescan(root, files, _, _) => if LibraryId(e, root) in paths then paths[LibraryId(e, root) := files] else paths
  }

  lemma RescanForeign(e: Env, d: Data, paths: map<string, set<string>>, root: string, files: set<string>, out: seq<Item>)
    requires Hashing(e) && Apart(e, d, paths) && Scanned(e, root, files, out) && LibraryId(e, root) in d.libraries
    requires forall l :: l in paths && l != LibraryId(e, root) ==> paths[l] !! files
    ensures NoneForeign(d.items, LibraryId(e, root), out)
  {
    var lib := LibraryId(e, root);
    forall k, i | k in d.items && d.items[k].libraryId != lib && 0 <= i < |out|
      ensures out[i].id != k && out[i].parentId != k && d.items[k].parentId != out[i].id
    {
      var m := d.items[k].libraryId;
      assert out[i] in out;
      FromDifferentLibraries(e, root, files, out[i], d.libraries[m].path, paths[m], d.items[k]);
      FromDifferentLibraries(e, d.libraries[m].path, paths[m], d.items[k], root, files, out[i]);
    }
  }

  lemma OwnKids(e: Env, d: Data, paths: map<string, set<string>>, lib: string, k: string)
    requires Hashing(e) && Apart(e, d, paths) && k in d.items && d.items[k].libraryId != lib
    ensures forall j :: j in d.items && d.items[j].libraryId == lib ==> d.items[j].parentId != k
  {
    var m := d.items[k].libraryId;
    forall j | j in d.items && d.items[j].libraryId == lib ensures d.items[j].parentId != k {
      FromDifferentLibraries(e, d.libraries[m].path, paths[m], d.items[k],
                             d.libraries[lib].path, paths[lib], d.items[j]);
    }
  }

  lemma RescanCounts(e: Env, d: Data, paths: map<string, set<string>>, root: string, files: set<string>,
                     out: seq<Item>, after: map<string, Item>, k: string)
    requires Hashing(e) && Apart(e, d, paths) && CountsOk(d) && Scanned(e, root, files, out)
    requires NoneForeign(d.items, LibraryId(e, root), out) && Merged(d.items, LibraryId(e, root), out, after)
    requires k in after
    ensures |KidsIn(after, k)| == after[k].childCount
  {
    var lib := LibraryId(e, root);
    if k in d.items && d.items[k].libraryId != lib {
      OwnKids(e, d, paths, lib, k);
      MergedKids(d.items, lib, out, after, k);
    } else {
      MergedKids(d.items, lib, out, after, k);
      var i :| 0 <= i < |out| && out[i].id == k;
      assert out[i] in out;
    }
  }

  lemma RescanCountsOk(e: Env, d: Data, paths: map<string, set<string>>, root: string, files: set<string>,
                       out: seq<Item>, at: int, after: Data)
    requires Hashing(e) && Apart(e, d, paths) && CountsOk(d) && Scanned(e, root, files, out)
    requires NoneForeign(d.items, LibraryId(e, root), out) && Merged(d.items, LibraryId(e, root), out, after.items)
    requires LibraryId(e, root) in d.libraries
    requires after.libraries == d.libraries[LibraryId(e, root) :=
      d.libraries[LibraryId(e, root)].(itemCount := |out|, scannedAt := at)]
    ensures CountsOk(after)
  {
    forall k | k in after.items ensures |KidsIn(after.items, k)| == after.items[k].childCount {
      RescanCounts(e, d, paths, root, files, out, after.items, k);
    }
    RescanOwned(e, d, root, files, out, after.items);
  }

  lemma RescanMerged(e: Env, d: Data, paths: map<string, set<string>>, ev: Event)
    requires Hashing(e) && Apart(e, d, paths) && Proper(e, paths, ev)
    requires ev.Rescan? && LibraryId(e, ev.root) in d.libraries
    ensures NoneForeign(d.items, LibraryId(e, ev.root), ev.out)
    ensures Merged(d.items, LibraryId(e, ev.root), ev.out, J.Step(d, OpOf(e, ev)).0.items)
  {
    RescanForeign(e, d, paths, ev.root, ev.files, ev.out);
    PublishMerges(e, d, ev.root, ev.files, ev.out);
    RescanItems(d, LibraryId(e, ev.root), ev.out, ev.at);
  }

  lemma RescanItems(d: Data, lib: string, out: seq<Item>, at: int)
    requires lib in d.libraries
    ensures J.Step(d, J.ReplaceLibraryItems(lib, out, at)).0.items
      == J.PutItems(J.DeleteLibraryItems(d.items, lib), lib, out)
  {
  }

  lemma RescanLibraries(d: Data, lib: string, out: seq<Item>, at: int)
    requires lib in d.libraries
    ensures J.Step(d, J.ReplaceLibraryItems(lib, out, at)).0.libraries
      == d.libraries[lib := d.libraries[lib].(itemCount := |out|, scannedAt := at)]
  {
  }

  lemma RescanKeepsCounts(e: Env, d: Data, paths: map<string, set<string>>, ev: Event)
    requires Hashing(e) && Apart(e, d, paths) && CountsOk(d) && Proper(e, paths, ev)
    requires ev.Rescan? && LibraryId(e, ev.root) in d.libraries
    ensures CountsOk(J.Step(d, OpOf(e, ev)).0)
  {
    var after := J.Step(d, OpOf(e, ev)).0;
    RescanMerged(e, d, paths, ev);
    RescanLibraries(d, LibraryId(e, ev.root), ev.out, ev.at);
    RescanCountsOk(e, d, paths, ev.root, ev.files, ev.out, ev.at, after);
  }

  lemma RescanOwned(e: Env, d: Data, root: string, files: set<string>, out: seq<Item>, after: map<string, Item>)
    requires Scanned(e, root, files, out) && Merged(d.items, LibraryId(e, root), out, after)
    ensures forall l :: |OwnedIn(after, l)| == if l == LibraryId(e, root) then |out| else |OwnedIn(d.items, l)|
  {
    forall l ensures |OwnedIn(after, l)| == if l == LibraryId(e, root) then |out| else |OwnedIn(d.items, l)| {
      assert forall i :: 0 <= i < |out| ==> out[i] in out;
      MergedOwned(d.items, LibraryId(e, root), out, after, l);
    }
  }

  lemma RescanApart(e: Env, d: Data, paths: map<string, set<string>>, ev: Event)
    requires Apart(e, d, paths) && Proper(e, paths, ev)
    requires ev.Rescan? && LibraryId(e, ev.root) in d.libraries
    requires Merged(d.items, LibraryId(e, ev.root), ev.out, J.Step(d, OpOf(e, ev)).0.items)
    ensures Apart(e, J.Step(d, OpOf(e, ev)).0, PathsAfter(e, d, paths, ev))
  {
    var lib := LibraryId(e, ev.root);
    var after := J.Step(d, OpOf(e, ev)).0;
    assert after.libraries[lib].path == d.libraries[lib].path && after.libraries.Keys == d.libraries.Keys;
    assert after.sessions == d.sessions;
    ItemsApart(e, d, paths, lib, ev.files, ev.out, after.items);
  }

  lemma ItemsApart(e: Env, d: Data, paths: map<string, set<string>>, lib: string, files: set<string>, out: seq<Item>,
                   after: map<string, Item>)
    requires Apart(e, d, paths) && lib in paths && Merged(d.items, lib, out, after)
    requires forall x :: x in out ==> FromLibrary(e, lib, files, x)
    ensures forall k :: k in after ==>
      var paths' := paths[lib := files];
      && after[k].id == k && after[k].libraryId in paths'
      && FromLibrary(e, after[k].libraryId, paths'[after[k].libraryId], after[k])
  {
    forall k | k in after && !(k in d.items && d.items[k].libraryId != lib)
      ensures after[k].id == k && after[k].libraryId == lib && FromLibrary(e, lib, files, after[k])
    {
      var i :| 0 <= i < |out| && out[i].id == k;
      assert out[i] in out;
    }
  }

  lemma RemoveApart(e: Env, d: Data, paths: map<string, set<string>>, id: string, after: Data)
    requires Apart(e, d, paths)
    requires after == d.(libraries := d.libraries - {id}, items := J.DeleteLibraryItems(d.items, id))
    ensures Apart(e, after, paths - {id})
  {
  }

  lemma RemoveKids(e: Env, d: Data, paths: map<string, set<string>>, id: string, k: string)
    requires Hashing(e) && Apart(e, d, paths) && k in J.DeleteLibraryItems(d.items, id)
    ensures KidsIn(J.DeleteLibraryItems(d.items, id), k) == KidsIn(d.items, k)
  {
    OwnKids(e, d, paths, id, k);
  }

  lemma RemoveCounts(e: Env, d: Data, paths: map<string, set<string>>, id: string, after: Data)
    requires Hashing(e) && Apart(e, d, paths) && CountsOk(d) && id in d.libraries
    requires after == d.(libraries := d.libraries - {id}, items := J.DeleteLibraryItems(d.items, id))
    ensures CountsOk(after)
  {
    forall k | k in after.items ensures |KidsIn(after.items, k)| == after.items[k].childCount {
      RemoveKids(e, d, paths, id, k);
    }
    forall l | l in after.libraries ensures OwnedIn(after.items, l) == OwnedIn(d.items, l) {
    }
  }

  lemma RemoveKeeps(e: Env, d: Data, paths: map<string, set<string>>, id: string)
    requires Hashing(e) && Apart(e, d, paths) && CountsOk(d) && id in d.libraries
    ensures var after := J.Step(d, J.DeleteLibrary(id)).0; Apart(e, after, paths - {id}) && CountsOk(after)
  {
    var after := J.Step(d, J.DeleteLibrary(id)).0;
    RemoveApart(e, d, paths, id, after);
    RemoveCounts(e, d, paths, id, after);
  }

  lemma RegisterApart(e: Env, d: Data, paths: map<string, set<string>>, l: Library)
    requires Apart(e, d, paths) && l.id == LibraryId(e, l.path) && l.id !in d.libraries
    ensures Apart(e, d.(libraries := d.libraries[l.id := l]), paths[l.id := {}])
  {
    var paths' := paths[l.id := {}];
    assert forall m :: m in paths ==> paths'[m] == paths[m];
  }

  lemma RegisterKeeps(e: Env, d: Data, paths: map<string, set<string>>, l: Library)
    requires Hashing(e) && Apart(e, d, paths) && CountsOk(d) && l.id == LibraryId(e, l.path) && l.itemCount == 0
    requires !J.PathTaken(d.libraries, l.path)
    ensures var after := J.Step(d, J.CreateLibrary(l)).0; Apart(e, after, paths[l.id := {}]) && CountsOk(after)
  {
    NewLibraryId(e, d, paths, l);
    RegisterApart(e, d, paths, l);
    assert OwnedIn(d.items, l.id) == {};
  }

  /** The ID of a new path is new. */
  lemma NewLibraryId(e: Env, d: Data, paths: map<string, set<string>>, l: Library)
    requires Hashing(e) && Apart(e, d, paths) && l.id == LibraryId(e, l.path) && !J.PathTaken(d.libraries, l.path)
    ensures l.id !in d.libraries
  {
    if l.id in d.libraries {
      HashInjective(e, "library" + [':'] + l.path, "library" + [':'] + d.libraries[l.id].path);
      SplitsAtColon("library", l.path, "library", d.libraries[l.id].path);
    }
  }

  lemma StepKeeps(e: Env, d: Data, paths: map<string, set<string>>, ev: Event)
    requires Hashing(e) && Apart(e, d, paths) && CountsOk(d) && Proper(e, paths, ev)
    ensures Apart(e, J.Step(d, OpOf(e, ev)).0, PathsAfter(e, d, paths, ev))
    ensures CountsOk(J.Step(d, OpOf(e, ev)).0)
  {
    match ev
    case Rescan(root, _, _, _) =>
      if LibraryId(e, root) in d.libraries {
        RescanKeepsCounts(e, d, paths, ev);
        RescanMerged(e, d, paths, ev);
        RescanApart(e, d, paths, ev);
      }
    case Remove(id) =>
      if id in d.libraries {
        RemoveKeeps(e, d, paths, id);
      } else {
        assert paths - {id} == paths;
      }
    case Register(l) =>
      if !J.PathTaken(d.libraries, l.path) {
        RegisterKeeps(e, d, paths, l);
      }
  }

  lemma IdClean(e: Env, lib: string, o: Origin)
    requires Hashing(e)
    ensures NulFree(IdOf(e, lib, o))
  {
  }

  lemma ItemClean(e: Env, lib: string, files: set<string>, x: Item)
    requires Hashing(e) && NulFree(lib) && FromLibrary(e, lib, files, x)
    ensures NulFree(x.id) && NulFree(x.parentId)
  {
    var o :| IdFrom(e, lib, files, o, x.id);
    IdClean(e, lib, o);
    if x.parentId != lib {
      var p :| FolderFrom(e, lib, p, x.parentId);
      IdClean(e, lib, p);
    }
  }

  lemma OutputClean(e: Env, root: string, files: set<string>, out: seq<Item>)
    requires Hashing(e) && Scanned(e, root, files, out)
    ensures S.CleanItems(LibraryId(e, root), out)
  {
    LibraryIdClean(e, root);
    forall i | 0 <= i < |out| ensures NulFree(out[i].id) && NulFree(out[i].parentId) {
      assert out[i] in out;
      ItemClean(e, LibraryId(e, root), files, out[i]);
    }
  }

  /** A scan's output meets what the indexed store asks of its callers. */
  lemma ScanMeetsStore(e: Env, d: Data, paths: map<string, set<string>>, ev: Event)
    requires Hashing(e) && Apart(e, d, paths) && Proper(e, paths, ev)
    ensures S.Clean(OpOf(e, ev)) && S.Admissible(d, OpOf(e, ev))
  {
    if ev.Rescan? {
      OutputClean(e, ev.root, ev.files, ev.out);
      if LibraryId(e, ev.root) in d.libraries {
        RescanForeign(e, d, paths, ev.root, ev.files, ev.out);
      }
    }
  }

  /** Another library holds an item of this ID. */
  ghost predicate Foreign(d: Data, lib: string, id: string) { id in d.items && d.items[id].libraryId != lib }

  /** A rescan is what the indexed store can handle exactly when none of its IDs is
      held by another library - whether libraries overlap or not. */
  lemma RescanAdmissibleExactly(e: Env, d: Data, root: string, files: set<string>, out: seq<Item>, at: int)
    requires Scanned(e, root, files, out) && LibraryId(e, root) in d.libraries
    ensures S.Admissible(d, J.ReplaceLibraryItems(LibraryId(e, root), out, at))
      <==> forall i :: 0 <= i < |out| ==> !Foreign(d, LibraryId(e, root), out[i].id)
  {
    var lib := LibraryId(e, root);
    var kept := J.DeleteLibraryItems(d.items, lib);
    forall i | 0 <= i < |out| ensures S.Agrees(kept, lib, out[i]) <==> !Foreign(d, lib, out[i].id) {
    }
  }

  // ----------------------------------------------------------------- all runs

  function Ops(e: Env, evs: seq<Event>): seq<J.Op> {
    seq(|evs|, i requires 0 <= i < |evs| => OpOf(e, evs[i]))
  }

  ghost predicate ProperRun(e: Env, d: Data, paths: map<string, set<string>>, evs: seq<Event>)
    decreases evs
  {
    evs == [] ||
    (Proper(e, paths, evs[0])
     && ProperRun(e, J.Step(d, OpOf(e, evs[0])).0, PathsAfter(e, d, paths, evs[0]), evs[1..]))
  }

  /** Over every run of registrations, removals and rescans: the run is one the
      indexed store handles exactly as the scanning store does, and at its end
      each folder's listing has ChildCount entries and each library's listing has
      ItemCount entries. */
  lemma {:induction false} CountersMatchListings(
    e: Env, d: Data, paths: map<string, set<string>>, evs: seq<Event>)
    requires Hashing(e) && Apart(e, d, paths) && CountsOk(d) && ProperRun(e, d, paths, evs)
    ensures S.AdmissibleRun(d, Ops(e, evs))
    ensures CountsOk(S.JsonRun(d, Ops(e, evs)).0)
    decreases evs
  {
    if evs != [] {
      StepKeeps(e, d, paths, evs[0]);
      ScanMeetsStore(e, d, paths, evs[0]);
      assert Ops(e, evs)[1..] == Ops(e, evs[1..]);
      CountersMatchListings(e, J.Step(d, OpOf(e, evs[0])).0, PathsAfter(e, d, paths, evs[0]), evs[1..]);
    }
  }

  /** What the counters mean to a client of the indexed store: listing a folder by
      its index gives ChildCount items. */
  lemma FolderListing(b: B.Buckets, folder: string)
    requires S.Inv(b) && CountsOk(b.data) && folder in b.data.items
    ensures |B.ListVia(b, b.parentIdx, folder)| == b.data.items[folder].childCount
  {
    S.IndexLists(b, b.parentIdx, S.ParentOf, folder);
    ListedIds(b.data.items, B.ListVia(b, b.parentIdx, folder), (x: Item) => S.ParentOf(x) == folder,
              KidsIn(b.data.items, folder));
  }

  lemma LibraryListing(b: B.Buckets, lib: string)
    requires S.Inv(b) && CountsOk(b.data) && lib in b.data.libraries
    ensures |B.ListVia(b, b.libIdx, lib)| == b.data.libraries[lib].itemCount
  {
    S.IndexLists(b, b.libIdx, S.LibraryOf, lib);
    ListedIds(b.data.items, B.ListVia(b, b.libIdx, lib), (x: Item) => S.LibraryOf(x) == lib, OwnedIn(b.data.items, lib));
  }

  lemma ListedIds(items: map<string, Item>, out: seq<Item>, selected: Item -> bool, ids: set<string>)
    requires Lists(out, items, selected) && forall k :: k in items ==> items[k].id == k
    requires forall k :: k in ids <==> k in items && selected(items[k])
    ensures |out| == |ids|
  {
    forall i, j | 0 <= i < j < |out| ensures out[i].id != out[j].id {
      assert out[i] in out && out[j] in out;
    }
    IdsCount(out);
    forall k ensures k in Ids(out) <==> k in ids {
      if k in Ids(out) {
        var i :| 0 <= i < |out| && out[i].id == k;
        assert out[i] in out;
      }
      if k in ids {
        assert items[k] in out;
        var i :| 0 <= i < |out| && out[i] == items[k];
      }
    }
    assert Ids(out) == ids;
  }

  const EMPTY: Data := Data(map[], map[], map[], map[])

  /** From the empty store on, whatever proper run: the indexed store returns the
      scanning store's results, and its listings have the counted lengths. */
  lemma EndToEnd(e: Env, evs: seq<Event>)
    requires Hashing(e) && ProperRun(e, EMPTY, map[], evs)
    ensures var (b, errors) := S.BoltRun(B.Buckets(EMPTY, map[], map[], map[]), Ops(e, evs));
      && errors == S.JsonRun(EMPTY, Ops(e, evs)).1
      && (forall k :: k in b.data.items ==> |B.ListVia(b, b.parentIdx, k)| == b.data.items[k].childCount)
      && (forall l :: l in b.data.libraries ==> |B.ListVia(b, b.libIdx, l)| == b.data.libraries[l].itemCount)
  {
    var start := B.Buckets(EMPTY, map[], map[], map[]);
    CountersMatchListings(e, EMPTY, map[], evs);
    S.RunsAgree(start, Ops(e, evs));
    var b := S.BoltRun(start, Ops(e, evs)).0;
    forall k | k in b.data.items ensures |B.ListVia(b, b.parentIdx, k)| == b.data.items[k].childCount {
      FolderListing(b, k);
    }
    forall l | l in b.data.libraries ensures |B.ListVia(b, b.libIdx, l)| == b.data.libraries[l].itemCount {
      LibraryListing(b, l);
    }
  }
}
