/** Counting values by cell. A sketch keeps, for each cell a value can fall in, how many values fell there;
    this module says what that summary determines about the values, for any monotone choice of cells. */
module Buckets {
  import opened Ordering
  import opened SketchMath

  function At(cell: int -> int, v: int): int { cell(v) }

  /** A cell for every value: -1 for the non-positive ones, and never decreasing. */
  ghost predicate Cells(cell: int -> int) {
    && (forall v :: At(cell, v) >= -1 && (At(cell, v) == -1 <==> v <= 0))
    && (forall v, w :: v <= w ==> At(cell, v) <= At(cell, w))
  }

  ghost function SortedValues(vs: seq<int>): (s: seq<int>)
    ensures |s| == |vs|
    ensures multiset(s) == multiset(vs)
    ensures Ascending(IntLess, s)
  {
    var s := SortBy(IntLess, vs);
    assert |s| == |multiset(s)|;
    s
  }

  // ---- The summary the sketch keeps ----

  datatype Summary = Summary(buckets: map<int, int>, zeroCount: int, count: int, min: int, max: int)

  const Empty := Summary(map[], 0, 0, MAX_INT64, MIN_INT64)

  function Held(m: map<int, int>, i: int): int { if i in m then m[i] else 0 }

  function Absorb(cell: int -> int, s: Summary, v: int): Summary
  {
    var counted := s.(count := s.count + 1,
                      max := if v > s.max then v else s.max,
                      min := if v < s.min then v else s.min);
    if v <= 0 then counted.(zeroCount := s.zeroCount + 1)
    else
      var i := At(cell, v);
      counted.(buckets := s.buckets[i := Held(s.buckets, i) + 1])
  }

  function Summarise(cell: int -> int, vs: seq<int>): (s: Summary)
    ensures s.count == |vs|
    ensures s.min <= MAX_INT64 && s.max >= MIN_INT64
  {
    if vs == [] then Empty else Absorb(cell, Summarise(cell, vs[..|vs| - 1]), vs[|vs| - 1])
  }

  lemma SummariseAppend(cell: int -> int, vs: seq<int>, v: int)
    ensures Summarise(cell, vs + [v]) == Absorb(cell, Summarise(cell, vs), v)
  {
    assert (vs + [v])[..|vs|] == vs;
  }

  function SumBuckets(m: map<int, int>, n: map<int, int>): map<int, int> {
    map i | i in m.Keys + n.Keys :: Held(m, i) + Held(n, i)
  }

  function Combine(a: Summary, b: Summary): Summary {
    Summary(SumBuckets(a.buckets, b.buckets),
            a.zeroCount + b.zeroCount, a.count + b.count,
            if b.min < a.min then b.min else a.min,
            if b.max > a.max then b.max else a.max)
  }

  lemma SumBucketsAdd(m: map<int, int>, n: map<int, int>, i: int)
    ensures var sum := SumBuckets(m, n);
            sum[i := Held(sum, i) + 1] == SumBuckets(m, n[i := Held(n, i) + 1])
  {
  }

  lemma AbsorbCombined(cell: int -> int, a: Summary, b: Summary, v: int)
    ensures Absorb(cell, Combine(a, b), v) == Combine(a, Absorb(cell, b, v))
  {
    if v > 0 { SumBucketsAdd(a.buckets, b.buckets, At(cell, v)); }
  }

  /** Summarising is a homomorphism from concatenation to merging. */
  lemma {:induction false} MergeHomomorphism(cell: int -> int, vs: seq<int>, ws: seq<int>)
    ensures Summarise(cell, vs + ws) == Combine(Summarise(cell, vs), Summarise(cell, ws))
  {
    var a := Summarise(cell, vs);
    if ws == [] {
      assert vs + ws == vs;
      assert Combine(a, Empty).buckets == a.buckets;
    } else {
      var front, w := ws[..|ws| - 1], ws[|ws| - 1];
      assert (vs + ws)[..|vs + ws| - 1] == vs + front;
      MergeHomomorphism(cell, vs, front);
      AbsorbCombined(cell, a, Summarise(cell, front), w);
    }
  }

  lemma SumBucketsLaws(l: map<int, int>, m: map<int, int>, n: map<int, int>)
    ensures SumBuckets(l, m) == SumBuckets(m, l)
    ensures SumBuckets(SumBuckets(l, m), n) == SumBuckets(l, SumBuckets(m, n))
  {
    var lm, mn := SumBuckets(l, m), SumBuckets(m, n);
    assert forall i :: Held(lm, i) == Held(l, i) + Held(m, i);
    assert forall i :: Held(mn, i) == Held(m, i) + Held(n, i);
  }

  /** Merging is commutative and associative. */
  lemma CombineLaws(a: Summary, b: Summary, c: Summary)
    ensures Combine(a, b) == Combine(b, a)
    ensures Combine(Combine(a, b), c) == Combine(a, Combine(b, c))
  {
    hide SumBuckets;
    SumBucketsLaws(a.buckets, b.buckets, c.buckets);
  }

  // ---- Cells: what the buckets say about the values ----

  /** How many values fall in cell `c`, and in the cells up to `c`. */
  function InCell(cell: int -> int, vs: seq<int>, c: int): (n: nat)
  {
    if vs == [] then 0
    else InCell(cell, vs[..|vs| - 1], c) + if At(cell, vs[|vs| - 1]) == c then 1 else 0
  }

  function UpTo(cell: int -> int, vs: seq<int>, c: int): (n: nat)
    ensures n <= |vs|
  {
    if vs == [] then 0
    else UpTo(cell, vs[..|vs| - 1], c) + if At(cell, vs[|vs| - 1]) <= c then 1 else 0
  }

  /** Each bucket holds the number of values in its cell, and there is one for every occupied cell. */
  lemma {:induction false} BucketsCountCells(cell: int -> int, vs: seq<int>)
    requires Cells(cell)
    ensures var s := Summarise(cell, vs);
            && s.zeroCount == InCell(cell, vs, -1)
            && (forall c :: c in s.buckets ==> c >= 0 && s.buckets[c] == InCell(cell, vs, c))
            && (forall v :: v in vs && v > 0 ==> At(cell, v) in s.buckets)
  {
    if vs != [] {
      BucketsCountCells(cell, vs[..|vs| - 1]);
      assert vs == vs[..|vs| - 1] + [vs[|vs| - 1]];
      EmptyCell(cell, vs[..|vs| - 1], At(cell, vs[|vs| - 1]));
    }
  }

  lemma {:induction false} EmptyCell(cell: int -> int, vs: seq<int>, c: int)
    ensures InCell(cell, vs, c) == 0 <==> forall v :: v in vs ==> At(cell, v) != c
  {
    if vs != [] {
      EmptyCell(cell, vs[..|vs| - 1], c);
      assert vs == vs[..|vs| - 1] + [vs[|vs| - 1]];
    }
  }

  /** Skipping over unoccupied cells adds exactly the next occupied one. */
  lemma {:induction false} UpToNext(cell: int -> int, vs: seq<int>, c: int, d: int)
    requires c < d
    requires forall v :: v in vs ==> At(cell, v) <= c || At(cell, v) >= d
    ensures UpTo(cell, vs, d) == UpTo(cell, vs, c) + InCell(cell, vs, d)
  {
    if vs != [] {
      assert vs == vs[..|vs| - 1] + [vs[|vs| - 1]];
      UpToNext(cell, vs[..|vs| - 1], c, d);
    }
  }

  lemma {:induction false} UpToBase(cell: int -> int, vs: seq<int>)
    requires Cells(cell)
    ensures UpTo(cell, vs, -1) == InCell(cell, vs, -1)
  {
    if vs != [] { UpToBase(cell, vs[..|vs| - 1]); }
  }

  lemma {:induction false} UpToAll(cell: int -> int, vs: seq<int>, c: int)
    requires forall v :: v in vs ==> At(cell, v) <= c
    ensures UpTo(cell, vs, c) == |vs|
  {
    if vs != [] {
      assert vs[|vs| - 1] in vs;
      UpToAll(cell, vs[..|vs| - 1], c);
    }
  }

  lemma {:induction false} UpToConcat(cell: int -> int, a: seq<int>, b: seq<int>, c: int)
    ensures UpTo(cell, a + b, c) == UpTo(cell, a, c) + UpTo(cell, b, c)
  {
    if b == [] {
      assert a + b == a;
    } else {
      assert (a + b)[..|a + b| - 1] == a + b[..|b| - 1];
      UpToConcat(cell, a, b[..|b| - 1], c);
    }
  }

  lemma UpToRemove(cell: int -> int, s: seq<int>, k: nat, c: int)
    requires k < |s|
    ensures UpTo(cell, s, c) == UpTo(cell, s[..k] + s[k + 1..], c) + if At(cell, s[k]) <= c then 1 else 0
  {
    assert s == s[..k] + ([s[k]] + s[k + 1..]);
    UpToConcat(cell, s[..k], s[k + 1..], c);
    UpToConcat(cell, s[..k], [s[k]] + s[k + 1..], c);
    UpToConcat(cell, [s[k]], s[k + 1..], c);
    assert [s[k]][..0] == [];
  }

  lemma RemoveFromMultiset(s: seq<int>, k: nat)
    requires k < |s|
    ensures multiset(s[..k] + s[k + 1..]) == multiset(s) - multiset{s[k]}
  {
    assert s == s[..k] + [s[k]] + s[k + 1..];
  }

  lemma {:induction false} UpToPermutation(cell: int -> int, a: seq<int>, b: seq<int>, c: int)
    requires multiset(a) == multiset(b)
    ensures UpTo(cell, a, c) == UpTo(cell, b, c)
    decreases |a|
  {
    if a == [] {
      assert b == [] by { assert |multiset(b)| == 0; }
    } else {
      var last := |a| - 1;
      assert a[last] in multiset(b);
      var k :| 0 <= k < |b| && b[k] == a[last];
      RemoveFromMultiset(a, last);
      RemoveFromMultiset(b, k);
      assert a[..last] + a[last + 1..] == a[..last];
      UpToPermutation(cell, a[..last], b[..k] + b[k + 1..], c);
      UpToRemove(cell, b, k, c);
    }
  }

  /** In sorted order the values of the cells up to `c` are a prefix, `UpTo` long. */
  lemma {:induction false} SortedPrefix(cell: int -> int, s: seq<int>, k: nat, c: int)
    requires Cells(cell)
    requires Ascending(IntLess, s) && k < |s|
    ensures k < UpTo(cell, s, c) <==> At(cell, s[k]) <= c
  {
    var last := |s| - 1;
    if At(cell, s[last]) <= c {
      forall v | v in s
        ensures At(cell, v) <= c
      {
        var i :| 0 <= i < |s| && s[i] == v;
        assert v <= s[last];
      }
      UpToAll(cell, s, c);
    } else if k < last {
      SortedPrefix(cell, s[..last], k, c);
    }
  }

  // ---- Counting by value ----

  /** How many values are at most `x`. */
  function CountUpTo(vs: seq<int>, x: int): nat {
    if vs == [] then 0 else CountUpTo(vs[..|vs| - 1], x) + if vs[|vs| - 1] <= x then 1 else 0
  }

  lemma {:induction false} CountIsUpTo(vs: seq<int>, x: int)
    ensures CountUpTo(vs, x) == UpTo(v => v, vs, x)
  {
    if vs != [] { CountIsUpTo(vs[..|vs| - 1], x); }
  }

  lemma CountPermutation(a: seq<int>, b: seq<int>, x: int)
    requires multiset(a) == multiset(b)
    ensures CountUpTo(a, x) == CountUpTo(b, x)
  {
    CountIsUpTo(a, x);
    CountIsUpTo(b, x);
    UpToPermutation(v => v, a, b, x);
  }

  lemma {:induction false} CountAll(s: seq<int>, x: int)
    requires forall i :: 0 <= i < |s| ==> s[i] <= x
    ensures CountUpTo(s, x) == |s|
  {
    if s != [] { CountAll(s[..|s| - 1], x); }
  }

  /** In sorted order the values up to `x` are a prefix, `CountUpTo` long. */
  lemma {:induction false} CountPrefix(s: seq<int>, k: nat, x: int)
    requires Ascending(IntLess, s) && k < |s|
    ensures k < CountUpTo(s, x) <==> s[k] <= x
  {
    var last := |s| - 1;
    if s[last] <= x {
      CountAll(s, x);
    } else if k < last {
      CountPrefix(s[..last], k, x);
    } else {
      CountFew(s[..last], x);
    }
  }

  lemma {:induction false} CountFew(s: seq<int>, x: int)
    ensures CountUpTo(s, x) <= |s|
  {
    if s != [] { CountFew(s[..|s| - 1], x); }
  }

  /** Position `k` of the sorted values lies in a cell up to `c` exactly when more than `k` values do. */
  lemma RankedCell(cell: int -> int, vs: seq<int>, k: nat, c: int)
    requires Cells(cell) && k < |vs|
    ensures k < UpTo(cell, vs, c) <==> At(cell, SortedValues(vs)[k]) <= c
  {
    UpToPermutation(cell, vs, SortedValues(vs), c);
    SortedPrefix(cell, SortedValues(vs), k, c);
  }

  // ---- The bucket order ----

  /** The bucket indexes in ascending order. */
  ghost predicate IsKeyList(s: seq<int>, keys: set<int>) {
    && (forall i, j :: 0 <= i < j < |s| ==> s[i] < s[j])
    && (forall c :: c in s <==> c in keys)
  }

  /** The cell reached after walking the first `t` buckets. */
  function Level(keys: seq<int>, t: nat): int
    requires t <= |keys|
  {
    if t == 0 then -1 else keys[t - 1]
  }

  /** No value lies strictly between neighbouring buckets, nor above the last one. */
  lemma KeyListGaps(cell: int -> int, vs: seq<int>, keys: seq<int>, t: nat, v: int)
    requires Cells(cell) && IsKeyList(keys, Summarise(cell, vs).buckets.Keys)
    requires t <= |keys| && v in vs
    ensures At(cell, v) <= Level(keys, t) || (t < |keys| && At(cell, v) >= keys[t])
  {
    BucketsCountCells(cell, vs);
    assert t > 0 ==> keys[t - 1] in keys;
    if At(cell, v) > Level(keys, t) {
      assert At(cell, v) in Summarise(cell, vs).buckets;
      var j :| 0 <= j < |keys| && keys[j] == At(cell, v);
      assert t > 0 ==> j >= t;
    }
  }

  /** One bucket of the walk: the running count covers the next cell, and the value of rank `k` is in
      that cell when the count passes `k` there. */
  lemma WalkStep(cell: int -> int, vs: seq<int>, keys: seq<int>, t: nat, k: nat)
    requires Cells(cell) && IsKeyList(keys, Summarise(cell, vs).buckets.Keys)
    requires t < |keys| && k < |vs|
    ensures keys[t] in Summarise(cell, vs).buckets
    ensures UpTo(cell, vs, keys[t]) == UpTo(cell, vs, Level(keys, t)) + Summarise(cell, vs).buckets[keys[t]]
    ensures UpTo(cell, vs, Level(keys, t)) <= k < UpTo(cell, vs, keys[t]) ==> At(cell, SortedValues(vs)[k]) == keys[t]
  {
    var c, d := Level(keys, t), keys[t];
    BucketsCountCells(cell, vs);
    assert d in keys;
    forall v | v in vs
      ensures At(cell, v) <= c || At(cell, v) >= d
    {
      KeyListGaps(cell, vs, keys, t, v);
    }
    UpToNext(cell, vs, c, d);
    RankedCell(cell, vs, k, c);
    RankedCell(cell, vs, k, d);
    assert SortedValues(vs)[k] in multiset(vs);
  }

  /** A walk over every bucket counts every value. */
  lemma WalkEnd(cell: int -> int, vs: seq<int>, keys: seq<int>)
    requires Cells(cell) && IsKeyList(keys, Summarise(cell, vs).buckets.Keys)
    ensures UpTo(cell, vs, Level(keys, |keys|)) == |vs|
  {
    forall v | v in vs
      ensures At(cell, v) <= Level(keys, |keys|)
    {
      KeyListGaps(cell, vs, keys, |keys|, v);
    }
    UpToAll(cell, vs, Level(keys, |keys|));
  }

  /** Ranging over the buckets and sorting what was found gives the ascending key list. */
  method SortedKeys(buckets: map<int, int>) returns (keys: seq<int>)
    ensures IsKeyList(keys, buckets.Keys)
  {
    var found := Range(buckets.Keys);
    keys := SortBy(IntLess, found);
    PermutationKeepsDistinct(found, keys);
    assert forall c :: c in keys <==> c in multiset(keys);
    assert forall c :: c in found <==> c in multiset(found);
  }
}
