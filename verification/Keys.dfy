/** Composite keys and prefix scans over byte-ordered buckets
    (internal/store/boltstore.go). Keys are strings; their lexicographic order by
    character is the byte order of their UTF-8 encodings. */
module Keys {
  import opened Wrappers

  const SEP: char := '\0'

  predicate NulFree(s: string) { SEP !in s }

  function IdxPrefix(a: string): string { a + [SEP] }

  function IdxKey(a: string, b: string): string { a + [SEP] + b }

  // ------------------------------------------------------------ composite keys

  /** A prefix scan by `dim` selects a key exactly when its first component is
      `dim`, even if one is a prefix of the other. */
  lemma PrefixSelects(dim: string, a: string, b: string)
    requires NulFree(a) && (NulFree(dim) || NulFree(b))
    ensures IdxPrefix(dim) <= IdxKey(a, b) <==> dim == a
    ensures dim == a ==> IdxKey(a, b)[|IdxPrefix(dim)|..] == b
  {
    var k := IdxKey(a, b);
    assert forall i :: 0 <= i < |a| ==> k[i] == a[i] && a[i] in a;
    assert forall i :: |a| < i < |k| ==> k[i] == b[i - |a| - 1] && b[i - |a| - 1] in b;
    assert k[|a|] == SEP && k[|a| + 1..] == b;
    if IdxPrefix(dim) <= k {
      assert forall i :: 0 <= i < |dim| ==> k[i] == IdxPrefix(dim)[i] == dim[i] && dim[i] in dim;
      assert k[|dim|] == IdxPrefix(dim)[|dim|] == SEP;
      assert |dim| == |a|;
      assert dim == k[..|dim|] == a;
    }
  }

  /** With a NUL-free first component a composite key determines both parts. */
  lemma KeySplits(a: string, b: string, c: string, d: string)
    requires NulFree(a) && NulFree(c) && IdxKey(a, b) == IdxKey(c, d)
    ensures a == c && b == d
  {
    assert IdxPrefix(c) <= IdxKey(c, d);
    PrefixSelects(c, a, b);
    PrefixSelects(c, c, d);
  }

  /** Which dimensions a prefix scan can confuse: the scan of `dim` selects some key
      of the dimension `a` exactly when one of the two, NUL and all, begins the other.
      For NUL-free dimensions that is when they are equal. */
  lemma SelectionExact(dim: string, a: string)
    ensures (exists b :: IdxPrefix(dim) <= IdxKey(a, b)) <==> IdxPrefix(dim) <= IdxPrefix(a) || IdxPrefix(a) <= dim
  {
    if b :| IdxPrefix(dim) <= IdxKey(a, b) {
      var k := IdxKey(a, b);
      assert IdxPrefix(a) == k[..|a| + 1] && IdxPrefix(dim) == k[..|dim| + 1];
      if |dim| <= |a| {
        assert IdxPrefix(dim) == IdxPrefix(a)[..|dim| + 1];
      } else {
        assert dim == k[..|dim|];
        assert IdxPrefix(a) == dim[..|a| + 1];
      }
    }
    if IdxPrefix(dim) <= IdxPrefix(a) {
      assert IdxKey(a, "") == IdxPrefix(a);
    }
    if IdxPrefix(a) <= dim {
      var b := dim[|a| + 1..] + [SEP];
      assert IdxKey(a, b) == IdxPrefix(dim);
    }
  }

  /** Without the restriction the selection is wrong: here user "a" would be
      handed the row that belongs to user "a\0b". */
  lemma NulBreaksSelection()
    ensures "a" != "a\0b" && IdxPrefix("a") <= IdxKey("a\0b", "c")
    ensures IdxKey("a\0b", "c") == IdxKey("a", "b\0c")
  {
    assert IdxKey("a\0b", "c") == "a\0b\0c" == IdxKey("a", "b\0c");
    assert IdxPrefix("a") == "a\0";
  }

  // ---------------------------------------------------------------- the order

  predicate Less(a: string, b: string) {
    b != "" && (a == "" || a[0] < b[0] || (a[0] == b[0] && Less(a[1..], b[1..])))
  }

  /** At place n, the first where they differ, `a` is over or has the smaller byte. */
  ghost predicate FallsBelow(a: string, b: string, n: int) {
    && 0 <= n <= |a| && n < |b|
    && (forall i :: 0 <= i < n ==> a[i] == b[i])
    && (n < |a| ==> a[n] < b[n])
  }

  lemma {:induction false} LessFalls(a: string, b: string) returns (n: nat)
    requires Less(a, b)
    ensures FallsBelow(a, b, n)
  {
    n := 0;
    if a != "" && a[0] == b[0] {
      var m := LessFalls(a[1..], b[1..]);
      n := m + 1;
      forall i | 0 < i < n ensures a[i] == b[i] {
        assert a[1..][i - 1] == b[1..][i - 1];
      }
    }
  }

  lemma {:induction false} FallsLess(a: string, b: string, n: nat)
    requires FallsBelow(a, b, n)
    ensures Less(a, b)
  {
    if n > 0 {
      FallsLess(a[1..], b[1..], n - 1);
    }
  }

  /** The order of keys and names is the byte-wise one: the first difference decides. */
  lemma LessExact(a: string, b: string)
    ensures Less(a, b) <==> exists n :: FallsBelow(a, b, n)
  {
    if Less(a, b) {
      var n := LessFalls(a, b);
    }
    if n :| FallsBelow(a, b, n) {
      FallsLess(a, b, n);
    }
  }

  lemma {:induction false} LessTransitive(a: string, b: string, c: string)
    requires Less(a, b) && Less(b, c)
    ensures Less(a, c)
  {
    if a != "" && a[0] == b[0] == c[0] {
      LessTransitive(a[1..], b[1..], c[1..]);
    }
  }

  lemma {:induction false} LessTotal(a: string, b: string)
    ensures Less(a, b) || a == b || Less(b, a)
    ensures !(Less(a, b) && Less(b, a)) && !Less(a, a)
  {
    if a != "" && b != "" {
      LessTotal(a[1..], b[1..]);
      LessTotal(a[1..], a[1..]);
      assert a == [a[0]] + a[1..] && b == [b[0]] + b[1..];
    } else if a != "" {
      LessTotal(a[1..], a[1..]);
    }
  }

  /** A prefix comes no later than what it starts. */
  lemma {:induction false} PrefixFirst(p: string, k: string)
    requires p <= k
    ensures p == k || Less(p, k)
  {
    if p != "" {
      assert p == [p[0]] + p[1..] && k == [k[0]] + k[1..];
      PrefixFirst(p[1..], k[1..]);
    }
  }

  /** The keys with a given prefix are contiguous in the order. */
  lemma {:induction false} PrefixBlock(p: string, a: string, b: string)
    requires (p == a || Less(p, a)) && Less(a, b) && p <= b
    ensures p <= a
  {
    if p != "" && p != a {
      assert b == [b[0]] + b[1..] && p == [p[0]] + p[1..];
      if a[0] == p[0] {
        assert p[1..] <= b[1..];
        PrefixBlock(p[1..], a[1..], b[1..]);
        assert a == [a[0]] + a[1..];
      }
    }
  }

  // -------------------------------------------------------------- the cursor

  /** `k` is the least key of the bucket that is not below `p`. */
  ghost predicate IsLeastFrom<V>(m: map<string, V>, p: string, k: string) {
    k in m && !Less(k, p) && forall j :: j in m && !Less(j, p) ==> !Less(j, k)
  }

  /** Cursor.Seek; how bbolt's pages find the key is not modelled. */
  method Seek<V>(m: map<string, V>, p: string) returns (r: Option<string>)
    ensures r.Some? ==> IsLeastFrom(m, p, r.value)
    ensures r.None? ==> forall j :: j in m ==> Less(j, p)
  {
    r := None;
    var todo := m.Keys;
    while todo != {}
      invariant todo <= m.Keys
      invariant r.Some? ==> r.value in m && !Less(r.value, p)
      invariant forall j :: j in m && j !in todo && !Less(j, p) ==> r.Some? && !Less(j, r.value)
      decreases todo
    {
      var k :| k in todo;
      if !Less(k, p) && (r.None? || Less(k, r.value)) {
        forall j | j in m && j !in todo && !Less(j, p) ensures !Less(j, k) {
          if Less(j, k) {
            LessTransitive(j, k, r.value);
          }
        }
        r := Some(k);
      }
      LessTotal(k, k);
      todo := todo - {k};
    }
  }

  /** Cursor.Next: the least key above `k`. */
  method Next<V>(m: map<string, V>, k: string) returns (r: Option<string>)
    ensures r.Some? ==> r.value in m && Less(k, r.value) && forall j :: j in m && Less(k, j) ==> !Less(j, r.value)
    ensures r.None? ==> forall j :: j in m ==> !Less(k, j)
  {
    r := None;
    var todo := m.Keys;
    while todo != {}
      invariant todo <= m.Keys
      invariant r.Some? ==> r.value in m && Less(k, r.value)
      invariant forall j :: j in m && j !in todo && Less(k, j) ==> r.Some? && !Less(j, r.value)
      decreases todo
    {
      var c :| c in todo;
      if Less(k, c) && (r.None? || Less(c, r.value)) {
        forall j | j in m && j !in todo && Less(k, j) ensures !Less(j, c) {
          if Less(j, c) {
            LessTransitive(j, c, r.value);
          }
        }
        r := Some(c);
      }
      LessTotal(c, c);
      todo := todo - {c};
    }
  }

  ghost predicate Ascending(ks: seq<string>) {
    forall i, j :: 0 <= i < j < |ks| ==> Less(ks[i], ks[j])
  }

  /** `ks` lists exactly the keys of the bucket that start with `p`, once each
      and in order. */
  ghost predicate IsScan<V>(m: map<string, V>, p: string, ks: seq<string>) {
    Ascending(ks) && forall k :: k in ks <==> k in m && p <= k
  }

  /** The keys the cursor has still to come to. */
  ghost function Rest<V>(m: map<string, V>, k: Option<string>): set<string> {
    if k.Some? then set j | j in m && !Less(j, k.value) else {}
  }

  /** `forEachPrefix`: the keys in the order the callback is given them. */
  method ForEachPrefix<V>(m: map<string, V>, p: string) returns (ks: seq<string>)
    ensures IsScan(m, p, ks)
  {
    ks := [];
    var k := Seek(m, p);
    if k.Some? {
      NothingBefore(m, p, k.value);
    }
    forall j | j in m && p <= j && k.None? ensures false {
      PrefixFirst(p, j);
      LessTotal(p, j);
    }
    while k.Some? && p <= k.value
      invariant Ascending(ks)
      invariant forall j :: j in ks ==> j in m && p <= j
      invariant k.Some? ==> k.value in m && (p == k.value || Less(p, k.value))
      invariant forall j :: j in m && p <= j ==> j in ks || (k.Some? && !Less(j, k.value))
      invariant k.Some? ==> forall j :: j in ks ==> Less(j, k.value)
      decreases Rest(m, k)
    {
      var cur := k.value;
      ks := ks + [cur];
      k := Next(m, cur);
      Advance(m, p, ks, cur, k);
    }
    if k.Some? {
      forall j | j in m && p <= j ensures j in ks {
        if j !in ks {
          LessTotal(j, k.value);
          PrefixBlock(p, k.value, j);
        }
      }
    }
  }

  lemma NothingBefore<V>(m: map<string, V>, p: string, k: string)
    requires IsLeastFrom(m, p, k)
    ensures p == k || Less(p, k)
    ensures forall j :: j in m && p <= j ==> !Less(j, k)
  {
    LessTotal(p, k);
    forall j | j in m && p <= j ensures !Less(j, k) {
      PrefixFirst(p, j);
      LessTotal(p, j);
    }
  }

  lemma Advance<V>(m: map<string, V>, p: string, ks: seq<string>, cur: string, k: Option<string>)
    requires cur in m && cur in ks && (p == cur || Less(p, cur))
    requires forall j :: j in m && p <= j ==> j in ks || !Less(j, cur)
    requires forall j :: j in ks ==> j == cur || Less(j, cur)
    requires k.Some? ==> k.value in m && Less(cur, k.value) && forall j :: j in m && Less(cur, j) ==> !Less(j, k.value)
    requires k.None? ==> forall j :: j in m ==> !Less(cur, j)
    ensures k.Some? ==> Less(p, k.value) && forall j :: j in ks ==> Less(j, k.value)
    ensures forall j :: j in m && p <= j ==> j in ks || (k.Some? && !Less(j, k.value))
    ensures Rest(m, k) < Rest(m, Some(cur))
  {
    LessTotal(cur, cur);
    if k.Some? {
      if Less(p, cur) {
        LessTransitive(p, cur, k.value);
      }
      forall j | j in ks ensures Less(j, k.value) {
        if j != cur {
          LessTransitive(j, cur, k.value);
        }
      }
      forall j | j in m && !Less(j, k.value) ensures !Less(j, cur) {
        if Less(j, cur) {
          LessTransitive(j, cur, k.value);
        }
      }
    }
    forall j | j in m && p <= j && j !in ks ensures Less(cur, j) {
      LessTotal(cur, j);
    }
    assert cur in Rest(m, Some(cur));
    assert k.Some? ==> cur !in Rest(m, k);
  }

  /** A scan is determined by the bucket and the prefix. */
  lemma {:induction false} ScanUnique(a: seq<string>, b: seq<string>)
    requires Ascending(a) && Ascending(b) && forall k :: k in a <==> k in b
    ensures a == b
    decreases |a|
  {
    if a == [] {
      assert forall i :: 0 <= i < |b| ==> b[i] in b;
    } else {
      assert a[0] in b && (b != [] ==> b[0] in a);
      LessTotal(a[0], b[0]);
      assert a[0] == b[0];
      forall k ensures k in a[1..] <==> k in b[1..] {
        LessTotal(a[0], a[0]);
        assert k in a <==> k == a[0] || k in a[1..];
        assert k in b <==> k == b[0] || k in b[1..];
      }
      ScanUnique(a[1..], b[1..]);
      assert a == [a[0]] + a[1..] && b == [b[0]] + b[1..];
    }
  }

  ghost function ScanOf<V>(m: map<string, V>, p: string): (ks: seq<string>)
    ensures IsScan(m, p, ks)
  {
    ScanExists(m, p);
    var ks :| IsScan(m, p, ks);
    ks
  }

  /** A key put between the smaller and the larger ones. */
  lemma InsertAscending(lo: seq<string>, k: string, hi: seq<string>)
    requires Ascending(lo + hi)
    requires forall j :: 0 <= j < |lo| ==> Less(lo[j], k)
    requires hi != [] ==> !Less(hi[0], k) && hi[0] != k
    ensures Ascending(lo + [k] + hi)
  {
    var both, all := lo + hi, lo + [k] + hi;
    forall j | 0 <= j < |hi| ensures Less(k, hi[j]) {
      LessTotal(k, hi[0]);
      assert both[|lo|] == hi[0] && both[|lo| + j] == hi[j];
      if j > 0 {
        LessTransitive(k, hi[0], hi[j]);
      }
    }
    forall i, j | 0 <= i < j < |all| ensures Less(all[i], all[j]) {
      var a := if i <= |lo| then i else i - 1;
      var b := if j <= |lo| then j else j - 1;
      if i != |lo| && j != |lo| {
        assert all[i] == both[a] && all[j] == both[b];
      }
    }
  }

  /** Every bucket has one, by putting keys in one at a time. */
  lemma {:induction false} ScanExists<V>(m: map<string, V>, p: string)
    ensures exists ks :: IsScan(m, p, ks)
    decreases m.Keys
  {
    if k :| k in m.Keys {
      ScanExists(m - {k}, p);
      var ks :| IsScan(m - {k}, p, ks);
      ScanWith(m, p, k, ks);
    } else {
      assert IsScan<V>(m, p, []);
    }
  }

  lemma InsertMembers(lo: seq<string>, k: string, hi: seq<string>)
    ensures forall j :: j in lo + [k] + hi <==> j == k || j in lo + hi
  {
  }

  lemma ScanWith<V>(m: map<string, V>, p: string, k: string, ks: seq<string>)
    requires k in m && IsScan(m - {k}, p, ks)
    ensures exists ks' :: IsScan(m, p, ks')
  {
    assert forall j :: j in m <==> j == k || j in m - {k};
    if p <= k {
      var i := 0;
      while i < |ks| && Less(ks[i], k)
        invariant i <= |ks| && forall j :: 0 <= j < i ==> Less(ks[j], k)
      {
        i := i + 1;
      }
      var lo, hi := ks[..i], ks[i..];
      assert ks == lo + hi;
      assert hi != [] ==> hi[0] in ks;
      InsertAscending(lo, k, hi);
      InsertMembers(lo, k, hi);
      assert IsScan(m, p, lo + [k] + hi);
    } else {
      assert IsScan(m, p, ks);
    }
  }
}
