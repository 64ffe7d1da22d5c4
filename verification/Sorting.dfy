/** Sorting by a total preorder, as sort.Slice and sort.SliceStable do. */
module Sorting {
  ghost predicate Preorder<T(!new)>(le: (T, T) -> bool) {
    && (forall a, b :: le(a, b) || le(b, a))
    && forall a, b, c :: le(a, b) && le(b, c) ==> le(a, c)
  }

  ghost predicate SortedBy<T>(s: seq<T>, le: (T, T) -> bool) {
    s == [] || (SortedBy(s[1..], le) && forall y :: y in s[1..] ==> le(s[0], y))
  }

  function Insert<T>(x: T, s: seq<T>, le: (T, T) -> bool): seq<T> {
    if s == [] || le(x, s[0]) then [x] + s else [s[0]] + Insert(x, s[1..], le)
  }

  /** The stable arrangement: each element goes before those of its class that
      followed it. */
  function Sort<T>(s: seq<T>, le: (T, T) -> bool): seq<T> {
    if s == [] then [] else Insert(s[0], Sort(s[1..], le), le)
  }

  /** The elements the order does not tell from x, as they stand. */
  function Class<T>(s: seq<T>, x: T, le: (T, T) -> bool): seq<T> {
    if s == [] then []
    else (if le(x, s[0]) && le(s[0], x) then [s[0]] else []) + Class(s[1..], x, le)
  }

  lemma {:induction false} InsertCorrect<T(!new)>(x: T, s: seq<T>, le: (T, T) -> bool)
    requires Preorder(le) && SortedBy(s, le)
    ensures SortedBy(Insert(x, s, le), le)
    ensures multiset(Insert(x, s, le)) == multiset{x} + multiset(s)
    ensures forall y :: y in Insert(x, s, le) <==> y == x || y in s
  {
    if s != [] {
      assert s == [s[0]] + s[1..];
      if le(x, s[0]) {
        assert ([x] + s)[1..] == s;
      } else {
        InsertCorrect(x, s[1..], le);
        var r := Insert(x, s[1..], le);
        assert Insert(x, s, le)[1..] == r;
        assert forall y :: y in s <==> y == s[0] || y in s[1..];
      }
    }
  }

  lemma {:induction false} InsertStable<T(!new)>(x: T, s: seq<T>, le: (T, T) -> bool, z: T)
    requires Preorder(le)
    ensures Class(Insert(x, s, le), z, le) == (if le(z, x) && le(x, z) then [x] else []) + Class(s, z, le)
  {
    if s == [] || le(x, s[0]) {
      assert ([x] + s)[1..] == s;
    } else {
      var rest, r := s[1..], Insert(x, s[1..], le);
      InsertStable(x, rest, le, z);
      assert ([s[0]] + r)[1..] == r;
      var h := if le(z, s[0]) && le(s[0], z) then [s[0]] else [];
      assert Class(s, z, le) == h + Class(rest, z, le);
      assert Class([s[0]] + r, z, le) == h + Class(r, z, le);
      if le(z, x) && le(x, z) {
        assert h == [];
      }
    }
  }

  /** Sort yields a sorted permutation that keeps every class in its old order. */
  lemma {:induction false} SortCorrect<T(!new)>(s: seq<T>, le: (T, T) -> bool)
    requires Preorder(le)
    ensures SortedBy(Sort(s, le), le) && multiset(Sort(s, le)) == multiset(s)
    ensures forall z :: Class(Sort(s, le), z, le) == Class(s, z, le)
  {
    if s != [] {
      SortCorrect(s[1..], le);
      InsertCorrect(s[0], Sort(s[1..], le), le);
      assert s == [s[0]] + s[1..];
      forall z ensures Class(Sort(s, le), z, le) == Class(s, z, le) {
        InsertStable(s[0], Sort(s[1..], le), le, z);
      }
    }
  }

  lemma SortMembers<T(!new)>(s: seq<T>, le: (T, T) -> bool)
    requires Preorder(le)
    ensures forall x :: x in Sort(s, le) <==> x in s
    ensures |Sort(s, le)| == |s|
  {
    SortCorrect(s, le);
    assert forall x :: x in Sort(s, le) <==> x in multiset(Sort(s, le));
    assert forall x :: x in s <==> x in multiset(s);
    assert |multiset(Sort(s, le))| == |Sort(s, le)| && |multiset(s)| == |s|;
  }

  lemma {:induction false} SortedPairs<T>(s: seq<T>, le: (T, T) -> bool, i: nat, j: nat)
    requires SortedBy(s, le) && i < j < |s|
    ensures le(s[i], s[j])
  {
    if i == 0 {
      assert s[j] == s[1..][j - 1];
    } else {
      SortedPairs(s[1..], le, i - 1, j - 1);
    }
  }

  /** Sorted arrangements with the same classes coincide: a stable sort has only
      one possible result. */
  lemma {:induction false} StableUnique<T(!new)>(a: seq<T>, b: seq<T>, le: (T, T) -> bool)
    requires Preorder(le) && SortedBy(a, le) && SortedBy(b, le)
    requires forall z :: Class(a, z, le) == Class(b, z, le)
    ensures a == b
    decreases |a| + |b|
  {
    if a != [] || b != [] {
      var w := if a != [] then a[0] else b[0];
      assert le(w, w) && Class(a, w, le) == Class(b, w, le);
      ClassMember(a, w, le);
      ClassMember(b, w, le);
      var x := a[0];
      assert le(x, x) && le(b[0], b[0]);
      ClassMember(a, b[0], le);
      ClassMember(b, x, le);
      assert Class(a, x, le) == Class(b, x, le) && Class(a, b[0], le) == Class(b, b[0], le);
      assert a == [x] + a[1..] && b == [b[0]] + b[1..];
      assert le(b[0], x) && le(x, b[0]);
      assert Class(a, x, le)[0] == x && Class(b, x, le)[0] == b[0];
      forall z ensures Class(a[1..], z, le) == Class(b[1..], z, le) {
        var h := if le(z, x) && le(x, z) then [x] else [];
        assert Class(a, z, le) == h + Class(a[1..], z, le);
        assert Class(b, z, le) == h + Class(b[1..], z, le);
        assert Class(a[1..], z, le) == Class(a, z, le)[|h|..];
      }
      StableUnique(a[1..], b[1..], le);
    }
  }

  lemma {:induction false} ClassMember<T>(s: seq<T>, x: T, le: (T, T) -> bool)
    ensures forall y :: y in Class(s, x, le) <==> y in s && le(x, y) && le(y, x)
  {
    if s != [] {
      ClassMember(s[1..], x, le);
      assert forall y :: y in s <==> y == s[0] || y in s[1..];
    }
  }

  lemma {:induction false} ClassAt<T>(s: seq<T>, x: T, le: (T, T) -> bool, b: nat)
    requires b < |Class(s, x, le)|
    ensures exists q :: 0 <= q < |s| && s[q] == Class(s, x, le)[b]
  {
    if s != [] {
      var d := if le(x, s[0]) && le(s[0], x) then 1 else 0;
      if b < d {
        assert s[0] == Class(s, x, le)[b];
      } else {
        ClassAt(s[1..], x, le, b - d);
        var q :| 0 <= q < |s[1..]| && s[1..][q] == Class(s[1..], x, le)[b - d];
        assert s[q + 1] == Class(s, x, le)[b];
      }
    }
  }

  /** Two elements of a class stand in s in the order they have in the class. */
  lemma {:induction false} ClassOrder<T>(s: seq<T>, x: T, le: (T, T) -> bool, a: nat, b: nat)
    requires a < b < |Class(s, x, le)|
    ensures exists p, q :: 0 <= p < q < |s| && s[p] == Class(s, x, le)[a] && s[q] == Class(s, x, le)[b]
  {
    if s != [] {
      var d := if le(x, s[0]) && le(s[0], x) then 1 else 0;
      var rest := Class(s[1..], x, le);
      if a < d {
        ClassAt(s[1..], x, le, b - 1);
        var q :| 0 <= q < |s[1..]| && s[1..][q] == rest[b - 1];
        assert s[0] == Class(s, x, le)[a] && s[q + 1] == Class(s, x, le)[b];
      } else {
        ClassOrder(s[1..], x, le, a - d, b - d);
        var p, q :| 0 <= p < q < |s[1..]| && s[1..][p] == rest[a - d] && s[1..][q] == rest[b - d];
        assert s[p + 1] == Class(s, x, le)[a] && s[q + 1] == Class(s, x, le)[b];
      }
    }
  }

  /** And elements of a class keep in it the order they have in s. */
  lemma {:induction false} ClassPositions<T>(s: seq<T>, x: T, le: (T, T) -> bool, p: nat, q: nat)
    requires p < q < |s|
    requires le(x, s[p]) && le(s[p], x) && le(x, s[q]) && le(s[q], x)
    ensures exists a, b :: 0 <= a < b < |Class(s, x, le)| && Class(s, x, le)[a] == s[p] && Class(s, x, le)[b] == s[q]
  {
    var d := if le(x, s[0]) && le(s[0], x) then 1 else 0;
    var rest := Class(s[1..], x, le);
    if p == 0 {
      ClassMember(s[1..], x, le);
      assert s[q] == s[1..][q - 1];
      assert s[q] in rest;
      var b :| 0 <= b < |rest| && rest[b] == s[q];
      assert Class(s, x, le)[0] == s[p] && Class(s, x, le)[b + 1] == s[q];
    } else {
      ClassPositions(s[1..], x, le, p - 1, q - 1);
      var a, b :| 0 <= a < b < |rest| && rest[a] == s[p] && rest[b] == s[q];
      assert Class(s, x, le)[a + d] == s[p] && Class(s, x, le)[b + d] == s[q];
    }
  }

  /** Stability: elements the order does not tell apart come out in the order they
      went in. */
  lemma SortStable<T(!new)>(s: seq<T>, le: (T, T) -> bool, i: nat, j: nat)
    requires Preorder(le) && i < j < |Sort(s, le)|
    requires le(Sort(s, le)[j], Sort(s, le)[i])
    ensures exists p, q :: 0 <= p < q < |s| && s[p] == Sort(s, le)[i] && s[q] == Sort(s, le)[j]
  {
    var t := Sort(s, le);
    SortCorrect(s, le);
    SortedPairs(t, le, i, j);
    assert le(t[i], t[i]);
    ClassPositions(t, t[i], le, i, j);
    var a, b :| 0 <= a < b < |Class(t, t[i], le)| && Class(t, t[i], le)[a] == t[i] && Class(t, t[i], le)[b] == t[j];
    ClassOrder(s, t[i], le, a, b);
  }

  lemma HeadsAgree<T(!new)>(a: seq<T>, b: seq<T>, le: (T, T) -> bool)
    requires Preorder(le) && SortedBy(a, le) && SortedBy(b, le) && multiset(a) == multiset(b) && a != []
    ensures b != [] && a[0] in b && b[0] in a && le(a[0], b[0]) && le(b[0], a[0])
  {
    assert a[0] in multiset(a);
    assert a[0] in b;
    assert b[0] in multiset(b);
    assert b[0] in a;
    assert le(a[0], a[0]) && le(b[0], b[0]);
    assert forall y :: y in a ==> y == a[0] || y in a[1..];
    assert forall y :: y in b ==> y == b[0] || y in b[1..];
  }

  /** When the order tells all elements apart, being a sorted permutation is
      enough: the result does not depend on the input's order. */
  lemma {:induction false} SortedPermutationsCoincide<T(!new)>(a: seq<T>, b: seq<T>, le: (T, T) -> bool)
    requires Preorder(le) && SortedBy(a, le) && SortedBy(b, le) && multiset(a) == multiset(b)
    requires forall x, y :: x in a && y in a && le(x, y) && le(y, x) ==> x == y
    ensures a == b
  {
    if a == [] {
      assert |b| == |multiset(b)| == 0;
    } else {
      HeadsAgree(a, b, le);
      TailsPermute(a, b);
      assert forall x :: x in a[1..] ==> x in a;
      SortedPermutationsCoincide(a[1..], b[1..], le);
    }
  }

  lemma TailsPermute<T(!new)>(a: seq<T>, b: seq<T>)
    requires a != [] && b != [] && a[0] == b[0] && multiset(a) == multiset(b)
    ensures multiset(a[1..]) == multiset(b[1..])
  {
    assert a == [a[0]] + a[1..] && b == [b[0]] + b[1..];
    assert multiset(a[1..]) == multiset(a) - multiset{a[0]};
    assert multiset(b[1..]) == multiset(b) - multiset{b[0]};
  }
}
