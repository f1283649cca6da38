/** Sorting as the pipeline uses it: the library sort behind `sort.Slice` and `sort.Ints`, the byte-wise
    order of strings, and the fact that a sorted list is determined by its elements. */
module Ordering {

  /** What a comparison handed to the library sort has to satisfy. */
  ghost predicate WeakOrder<T(!new)>(less: (T, T) -> bool) {
    && (forall a, b :: less(a, b) ==> !less(b, a))
    && (forall a, b, c :: !less(a, b) && !less(b, c) ==> !less(a, c))
  }

  /** A comparison that also tells any two different elements apart. */
  ghost predicate TotalOrder<T(!new)>(less: (T, T) -> bool) {
    && WeakOrder(less)
    && (forall a, b :: !less(a, b) && !less(b, a) ==> a == b)
  }

  ghost predicate Ascending<T>(less: (T, T) -> bool, s: seq<T>) {
    forall i, j :: 0 <= i < j < |s| ==> !less(s[j], s[i])
  }

  function Insert<T>(less: (T, T) -> bool, s: seq<T>, x: T): seq<T> {
    if s == [] || less(x, s[0]) then [x] + s else [s[0]] + Insert(less, s[1..], x)
  }

  lemma {:induction false} InsertMultiset<T>(less: (T, T) -> bool, s: seq<T>, x: T)
    ensures multiset(Insert(less, s, x)) == multiset(s) + multiset{x}
  {
    if s != [] && !less(x, s[0]) {
      InsertMultiset(less, s[1..], x);
      assert s == [s[0]] + s[1..];
    }
  }

  lemma {:induction false} InsertAscending<T(!new)>(less: (T, T) -> bool, s: seq<T>, x: T)
    requires WeakOrder(less) && Ascending(less, s)
    ensures Ascending(less, Insert(less, s, x))
  {
    if s != [] && !less(x, s[0]) {
      InsertAscending(less, s[1..], x);
      InsertMultiset(less, s[1..], x);
      var rest := Insert(less, s[1..], x);
      forall j | 0 <= j < |rest|
        ensures !less(rest[j], s[0])
      {
        assert rest[j] in multiset(rest);
        assert rest[j] == x || rest[j] in s[1..];
      }
    }
  }

  /** The library sort. */
  function SortBy<T(!new)>(less: (T, T) -> bool, s: seq<T>): (r: seq<T>)
    requires WeakOrder(less)
    ensures Ascending(less, r)
    ensures multiset(r) == multiset(s)
  {
    if s == [] then []
    else
      var last := |s| - 1;
      var front := SortBy(less, s[..last]);
      assert s == s[..last] + [s[last]];
      InsertMultiset(less, front, s[last]);
      InsertAscending(less, front, s[last]);
      Insert(less, front, s[last])
  }

  /** Two ascending arrangements of the same elements are the same list. */
  lemma {:induction false} AscendingUnique<T(!new)>(less: (T, T) -> bool, a: seq<T>, b: seq<T>)
    requires TotalOrder(less)
    requires Ascending(less, a) && Ascending(less, b)
    requires multiset(a) == multiset(b)
    ensures a == b
  {
    assert |a| == |multiset(a)| == |multiset(b)| == |b|;
    if a != [] {
      SameLeast(less, a, b);
      hide TotalOrder;
      assert a == [a[0]] + a[1..] && b == [b[0]] + b[1..];
      assert multiset(a[1..]) == multiset(a) - multiset{a[0]};
      AscendingUnique(less, a[1..], b[1..]);
    }
  }

  lemma SameLeast<T(!new)>(less: (T, T) -> bool, a: seq<T>, b: seq<T>)
    requires TotalOrder(less) && Ascending(less, a) && Ascending(less, b)
    requires multiset(a) == multiset(b) && a != [] && b != []
    ensures a[0] == b[0]
  {
    assert a[0] in multiset(b) && b[0] in multiset(a);
    var i :| 0 <= i < |b| && b[i] == a[0];
    var j :| 0 <= j < |a| && a[j] == b[0];
    assert !less(a[0], b[0]) && !less(b[0], a[0]);
  }

  /** Duplicate-free lists over the same elements are permutations of each other. */
  lemma {:induction false} SameElementsSameMultiset<T>(a: seq<T>, b: seq<T>)
    requires forall i, j :: 0 <= i < j < |a| ==> a[i] != a[j]
    requires forall i, j :: 0 <= i < j < |b| ==> b[i] != b[j]
    requires forall x :: x in a <==> x in b
    ensures multiset(a) == multiset(b)
  {
    forall x
      ensures multiset(a)[x] == multiset(b)[x]
    {
      DistinctMultiplicity(a, x);
      DistinctMultiplicity(b, x);
    }
  }

  lemma {:induction false} DistinctMultiplicity<T>(s: seq<T>, x: T)
    requires forall i, j :: 0 <= i < j < |s| ==> s[i] != s[j]
    ensures multiset(s)[x] == if x in s then 1 else 0
  {
    if s != [] {
      assert s == s[..|s| - 1] + [s[|s| - 1]];
      DistinctMultiplicity(s[..|s| - 1], x);
    }
  }

  lemma {:induction false} PermutationKeepsDistinct<T>(a: seq<T>, b: seq<T>)
    requires forall i, j :: 0 <= i < j < |a| ==> a[i] != a[j]
    requires multiset(a) == multiset(b)
    ensures forall i, j :: 0 <= i < j < |b| ==> b[i] != b[j]
  {
    forall i, j | 0 <= i < j < |b|
      ensures b[i] != b[j]
    {
      DistinctMultiplicity(a, b[j]);
      assert b == b[..j] + [b[j]] + b[j + 1..];
      assert multiset(b)[b[j]] == multiset(b[..j])[b[j]] + 1 + multiset(b[j + 1..])[b[j]];
      assert b[j] !in b[..j] && b[i] in b[..j];
    }
  }

  /** The elements of a set in ascending order. */
  ghost function SortedSet<T(!new)>(less: (T, T) -> bool, s: set<T>): (r: seq<T>)
    requires TotalOrder(less)
    ensures Ascending(less, r)
    ensures forall x :: x in r <==> x in s
    ensures forall i, j :: 0 <= i < j < |r| ==> r[i] != r[j]
    ensures |r| == |s|
  {
    if s == {} then []
    else
      var x :| x in s;
      var rest := SortedSet(less, s - {x});
      InsertAscending(less, rest, x);
      InsertFresh(less, rest, x);
      Insert(less, rest, x)
  }

  lemma InsertFresh<T>(less: (T, T) -> bool, s: seq<T>, x: T)
    requires forall i, j :: 0 <= i < j < |s| ==> s[i] != s[j]
    requires x !in s
    ensures forall y :: y in Insert(less, s, x) <==> y == x || y in s
    ensures forall i, j :: 0 <= i < j < |Insert(less, s, x)| ==> Insert(less, s, x)[i] != Insert(less, s, x)[j]
    ensures |Insert(less, s, x)| == |s| + 1
  {
    var r := Insert(less, s, x);
    InsertMultiset(less, s, x);
    assert multiset([x] + s) == multiset(r);
    PermutationKeepsDistinct([x] + s, r);
    assert forall y :: y in r <==> y in multiset(r);
    assert |r| == |multiset(r)|;
  }

  /** Sorting what ranging over a set found gives its elements in ascending order, whatever order the
      range took. */
  lemma SortedRange<T(!new)>(less: (T, T) -> bool, s: set<T>, found: seq<T>)
    requires TotalOrder(less)
    requires forall x :: x in found <==> x in s
    requires forall i, j :: 0 <= i < j < |found| ==> found[i] != found[j]
    ensures SortBy(less, found) == SortedSet(less, s)
  {
    SameElementsSameMultiset(found, SortedSet(less, s));
    AscendingUnique(less, SortBy(less, found), SortedSet(less, s));
  }

  method Pick<T(==)>(s: set<T>) returns (x: T)
    requires s != {}
    ensures x in s
  {
    x :| x in s;
  }

  /** Ranging over a map: every key once, in an order the language leaves open. */
  method Range<T(==)>(keys: set<T>) returns (found: seq<T>)
    ensures forall x :: x in found <==> x in keys
    ensures forall i, j :: 0 <= i < j < |found| ==> found[i] != found[j]
  {
    found := [];
    var todo := keys;
    while todo != {}
      invariant todo <= keys
      invariant forall x :: x in found <==> x in keys && x !in todo
      invariant forall i, j :: 0 <= i < j < |found| ==> found[i] != found[j]
      decreases |todo|
    {
      var x := Pick(todo);
      found, todo := found + [x], todo - {x};
    }
  }

  /** Go's `<` on strings. (Dafny's own `<` on strings is the prefix order.) */
  predicate StringLess(a: string, b: string) {
    if b == [] then false
    else if a == [] then true
    else if a[0] != b[0] then a[0] < b[0]
    else StringLess(a[1..], b[1..])
  }

  lemma {:induction false} StringLessAsymmetric(a: string, b: string)
    requires StringLess(a, b)
    ensures !StringLess(b, a)
  {
    if a != [] && b != [] && a[0] == b[0] { StringLessAsymmetric(a[1..], b[1..]); }
  }

  lemma {:induction false} StringLessConnected(a: string, b: string)
    requires !StringLess(a, b) && !StringLess(b, a)
    ensures a == b
  {
    if a != [] && b != [] {
      StringLessConnected(a[1..], b[1..]);
      assert a == [a[0]] + a[1..] && b == [b[0]] + b[1..];
    }
  }

  lemma {:induction false} StringLessNegativelyTransitive(a: string, b: string, c: string)
    requires !StringLess(a, b) && !StringLess(b, c)
    ensures !StringLess(a, c)
  {
    if a != [] && b != [] && c != [] && a[0] == b[0] == c[0] {
      StringLessNegativelyTransitive(a[1..], b[1..], c[1..]);
    }
  }

  /** Strings are ordered by their first difference, a proper prefix coming first. */
  predicate DiffersAt(a: string, b: string, i: nat) {
    && i <= |a| && i < |b| && a[..i] == b[..i]
    && (i == |a| || a[i] < b[i])
  }

  lemma SameHead(a: string, b: string, i: nat)
    requires i <= |a| && i <= |b| && a[..i] == b[..i]
    ensures i > 0 ==> a[0] == b[0]
  {
    if i > 0 { assert a[..i][0] == a[0] && b[..i][0] == b[0]; }
  }

  lemma {:induction false} StringLessIff(a: string, b: string)
    ensures StringLess(a, b) <==> exists i: nat :: DiffersAt(a, b, i)
  {
    if a == [] || b == [] {
      if b != [] { assert DiffersAt(a, b, 0); }
    } else if a[0] != b[0] {
      if a[0] < b[0] { assert DiffersAt(a, b, 0); }
      if i: nat :| DiffersAt(a, b, i) { SameHead(a, b, i); }
    } else {
      StringLessIff(a[1..], b[1..]);
      if i: nat :| DiffersAt(a[1..], b[1..], i) {
        assert a[..i + 1] == [a[0]] + a[1..][..i] && b[..i + 1] == [b[0]] + b[1..][..i];
        assert DiffersAt(a, b, i + 1);
      }
      if i: nat :| DiffersAt(a, b, i) {
        assert a[1..][..i - 1] == a[..i][1..] && b[1..][..i - 1] == b[..i][1..];
        assert DiffersAt(a[1..], b[1..], i - 1);
      }
    }
  }

  lemma StringLessTotal()
    ensures TotalOrder(StringLess)
  {
    forall a, b | StringLess(a, b) ensures !StringLess(b, a) { StringLessAsymmetric(a, b); }
    forall a, b | !StringLess(a, b) && !StringLess(b, a) ensures a == b { StringLessConnected(a, b); }
    forall a, b, c | !StringLess(a, b) && !StringLess(b, c) ensures !StringLess(a, c) {
      StringLessNegativelyTransitive(a, b, c);
    }
  }

  predicate IntLess(a: int, b: int) { a < b }
}
