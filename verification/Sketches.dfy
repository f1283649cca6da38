/** The mergeable quantile sketch (internal/aggregate/sketch.go): the order statistic its quantiles stand
    for, and the object with its lazily rebuilt bucket order. */
module Sketches {
  import opened Buckets
  import opened DecimalText
  import opened Ordering
  import opened SketchMath

  // ---- The reference: order statistics of the values added ----

  function Rank(q: real, n: nat): (k: nat)
    requires 0.0 <= q <= 1.0 && n > 0
    ensures k < n && k as real <= q * (n - 1) as real < k as real + 1.0
  {
    ScaleMonotone(q, 0.0, (n - 1) as real);
    assert q * (n - 1) as real <= (n - 1) as real by {
      ScaleMonotone((n - 1) as real, q, 1.0);
      assert (n - 1) as real * q == q * (n - 1) as real;
    }
    (q * (n - 1) as real).Floor
  }

  lemma RankMonotone(q: real, q': real, n: nat)
    requires 0.0 <= q <= q' <= 1.0 && n > 0
    ensures Rank(q, n) <= Rank(q', n)
  {
    var m := (n - 1) as real;
    ScaleMonotone(m, q, q');
    var lower, upper := q * m, q' * m;
    assert lower <= upper && lower.Floor <= upper.Floor;
  }

  /** The exact order statistic of rank floor(q * (n - 1)). */
  ghost function OrderStatistic(vs: seq<int>, q: real): (x: int)
    requires vs != [] && 0.0 <= q <= 1.0
    ensures x in vs
  {
    var s := SortedValues(vs);
    assert s[Rank(q, |vs|)] in multiset(s);
    s[Rank(q, |vs|)]
  }

  /** `x` is the value of rank floor(q * (n - 1)), said by counting: no more values than the rank are below it,
      and more than the rank are at most it. */
  ghost predicate IsStatistic(vs: seq<int>, q: real, x: int) {
    vs != [] && x in vs && CountUpTo(vs, x - 1) <= (q * (|vs| - 1) as real).Floor < CountUpTo(vs, x)
  }

  /** The order statistic is the one value of that rank. */
  lemma StatisticByCounting(vs: seq<int>, q: real, x: int)
    requires vs != [] && 0.0 <= q <= 1.0
    ensures IsStatistic(vs, q, x) <==> x == OrderStatistic(vs, q)
  {
    var s, k := SortedValues(vs), Rank(q, |vs|);
    var floor := (q * (|vs| - 1) as real).Floor;
    assert k == floor;
    CountPermutation(vs, s, x);
    CountPermutation(vs, s, x - 1);
    CountPrefix(s, k, x);
    CountPrefix(s, k, x - 1);
  }

  /** The reported quantile is within the relative accuracy, and rounding, of the exact one. */
  ghost predicate Near(alpha: real, reported: int, exact: int) {
    if exact <= 0 then reported == 0
    else -(alpha * exact as real + 0.5) <= (reported - exact) as real <= alpha * exact as real + 0.5
  }

  /** `r` answers for the value of that rank. */
  ghost predicate Answers(alpha: real, vs: seq<int>, q: real, r: int) {
    exists x :: IsStatistic(vs, q, x) && Near(alpha, r, x)
  }

  /** What `Quantile` answers, said through sorting instead of through buckets. */
  ghost function QuantileOf(alpha: real, vs: seq<int>, q: real): int
    requires ValidAccuracy(alpha) && 0.0 <= q <= 1.0
  {
    if vs == [] then 0
    else
      var x := OrderStatistic(vs, q);
      if x <= 0 then 0 else Estimate(alpha, Index(Gamma(alpha), x))
  }

  /** The accuracy the sketch promises, for any values and any quantile. */
  lemma QuantileAccuracy(alpha: real, vs: seq<int>, q: real)
    requires ValidAccuracy(alpha) && 0.0 <= q <= 1.0
    requires vs != [] && forall v :: v in vs ==> IsInt64(v)
    ensures Near(alpha, QuantileOf(alpha, vs, q), OrderStatistic(vs, q))
    ensures Answers(alpha, vs, q, QuantileOf(alpha, vs, q))
  {
    if OrderStatistic(vs, q) > 0 { EstimateAccuracy(alpha, OrderStatistic(vs, q)); }
    StatisticByCounting(vs, q, OrderStatistic(vs, q));
  }

  /** Quantiles never decrease as `q` grows; in particular p95 <= p99. */
  lemma QuantileMonotone(alpha: real, vs: seq<int>, q: real, q': real)
    requires ValidAccuracy(alpha) && 0.0 <= q <= q' <= 1.0
    ensures QuantileOf(alpha, vs, q) <= QuantileOf(alpha, vs, q')
  {
    if vs != [] {
      RankMonotone(q, q', |vs|);
      var x, x' := OrderStatistic(vs, q), OrderStatistic(vs, q');
      assert x <= x';
      if x > 0 {
        IndexMonotone(Gamma(alpha), x, x');
        EstimateMonotone(alpha, Index(Gamma(alpha), x), Index(Gamma(alpha), x'));
      }
    }
  }

  lemma IntLessTotal()
    ensures TotalOrder(IntLess)
  {
  }

  /** Quantiles depend on which values were added, not on their order. */
  lemma QuantileOrderFree(alpha: real, vs: seq<int>, ws: seq<int>, q: real)
    requires ValidAccuracy(alpha) && 0.0 <= q <= 1.0
    requires multiset(vs) == multiset(ws)
    ensures QuantileOf(alpha, vs, q) == QuantileOf(alpha, ws, q)
  {
    IntLessTotal();
    AscendingUnique(IntLess, SortedValues(vs), SortedValues(ws));
  }

  // ---- Cells ----

  /** The cell of a value at this accuracy: -1 for the non-positive values, else its bucket. */
  function Cell(alpha: real, v: int): int
    requires ValidAccuracy(alpha)
  {
    if v <= 0 then -1 else Index(Gamma(alpha), v)
  }

  function CellsOf(alpha: real): (cell: int -> int)
    requires ValidAccuracy(alpha)
    ensures Cells(cell)
    ensures forall v :: At(cell, v) == Cell(alpha, v)
  {
    CellsMonotone(alpha);
    var cell := (v: int) => Cell(alpha, v);
    assert forall v :: At(cell, v) == Cell(alpha, v);
    cell
  }

  lemma CellsMonotone(alpha: real)
    requires ValidAccuracy(alpha)
    ensures forall v, w :: v <= w ==> Cell(alpha, v) <= Cell(alpha, w)
  {
    forall v, w | v <= w
      ensures Cell(alpha, v) <= Cell(alpha, w)
    {
      if v > 0 { IndexMonotone(Gamma(alpha), v, w); }
    }
  }

  /** The summary of the values added, at this accuracy. */
  function SummaryOf(alpha: real, vs: seq<int>): Summary
    requires ValidAccuracy(alpha)
  {
    Summarise(CellsOf(alpha), vs)
  }

  /** Merging summaries in either order, or in any grouping, gives the summary and every quantile of
      one sketch of all the values. */
  lemma MergeIsOneSketch(alpha: real, us: seq<int>, vs: seq<int>, ws: seq<int>, q: real)
    requires ValidAccuracy(alpha) && 0.0 <= q <= 1.0
    ensures Combine(SummaryOf(alpha, us), SummaryOf(alpha, vs)) == SummaryOf(alpha, us + vs)
         == SummaryOf(alpha, vs + us)
    ensures Combine(Combine(SummaryOf(alpha, us), SummaryOf(alpha, vs)), SummaryOf(alpha, ws))
         == Combine(SummaryOf(alpha, us), Combine(SummaryOf(alpha, vs), SummaryOf(alpha, ws)))
         == SummaryOf(alpha, us + vs + ws)
    ensures QuantileOf(alpha, us + vs, q) == QuantileOf(alpha, vs + us, q)
  {
    var cell := CellsOf(alpha);
    CombineLaws(Summarise(cell, us), Summarise(cell, vs), Summarise(cell, ws));
    MergeHomomorphism(cell, us, vs);
    MergeHomomorphism(cell, vs, us);
    MergeHomomorphism(cell, us + vs, ws);
    QuantileOrderFree(alpha, us + vs, vs + us, q);
  }

  // ---- The object ----

  class Sketch {
    const relativeAccuracy: real
    const cell: int -> int
    var buckets: map<int, int>
    var sorted: Option<seq<int>>
    var sortedStale: bool
    var zeroCount: int
    var count: int
    var max: int
    var min: int
    ghost var added: seq<int>

    ghost function View(): Summary
      reads this
    {
      Summary(buckets, zeroCount, count, min, max)
    }

    /** The fields summarise the values added, and a bucket order that would be reused is current. */
    ghost predicate Valid()
      reads this
    {
      && View() == Summarise(cell, added)
      && (!sortedStale && sorted.Some? ==> IsKeyList(sorted.value, buckets.Keys))
    }

    /** The cells are the logarithmic buckets of this accuracy. */
    ghost predicate Accurate() {
      ValidAccuracy(relativeAccuracy) && cell == CellsOf(relativeAccuracy)
    }

    constructor (alpha: real)
      requires ValidAccuracy(alpha)
      ensures Valid() && Accurate() && relativeAccuracy == alpha && added == []
    {
      relativeAccuracy := alpha;
      cell := CellsOf(alpha);
      buckets, sorted, sortedStale := map[], None, false;
      zeroCount, count, max, min := 0, 0, MIN_INT64, MAX_INT64;
      added := [];
    }

    method Add(value: int)
      requires Valid()
      modifies this
      ensures Valid() && added == old(added) + [value]
    {
      hide Summarise, IsKeyList;
      ghost var next := Absorb(cell, View(), value);
      assert Summarise(cell, added + [value]) == next by { SummariseAppend(cell, added, value); }
      added := added + [value];
      count := count + 1;
      max := if value > max then value else max;
      min := if value < min then value else min;
      if value <= 0 {
        zeroCount := zeroCount + 1;
      } else {
        Bump(At(cell, value), 1);
      }
      assert View() == next;
    }

    /** Adds to one bucket; a bucket that was not there makes the cached order stale. */
    method Bump(index: int, n: int)
      modifies this`buckets, this`sortedStale
      ensures buckets == old(buckets)[index := Held(old(buckets), index) + n]
      ensures !sortedStale ==> !old(sortedStale) && buckets.Keys == old(buckets).Keys
    {
      if index !in buckets { sortedStale := true; }
      buckets := buckets[index := Held(buckets, index) + n];
    }

    /** The cached bucket order, rebuilt when a bucket has appeared since it was built. */
    method SortedIndexes() returns (keys: seq<int>)
      requires Valid()
      modifies this`sorted, this`sortedStale
      ensures Valid() && IsKeyList(keys, buckets.Keys)
    {
      if !sortedStale && sorted.Some? { return sorted.value; }
      keys := SortedKeys(buckets);
      sorted := if sorted.None? && keys == [] then None else Some(keys);
      sortedStale := false;
    }

    /** Walks the buckets in order until the running count passes the rank. It always stops inside the
        buckets, at the cell of the value of that rank. */
    method Walk(rank: nat) returns (found: bool, index: int)
      requires Valid() && Cells(cell) && zeroCount <= rank < count
      modifies this`sorted, this`sortedStale
      ensures Valid()
      ensures found && index == At(cell, SortedValues(added)[rank])
    {
      BucketsCountCells(cell, added);
      UpToBase(cell, added);
      var keys := SortedIndexes();
      var cumulative, t := zeroCount, 0;
      found, index := false, 0;
      while t < |keys| && !found
        invariant Valid() && IsKeyList(keys, buckets.Keys) && 0 <= t <= |keys|
        invariant !found ==> cumulative == UpTo(cell, added, Level(keys, t)) <= rank
        invariant found ==> index == At(cell, SortedValues(added)[rank])
        decreases |keys| - t, !found
      {
        WalkStep(cell, added, keys, t, rank);
        cumulative := cumulative + buckets[keys[t]];
        if cumulative > rank { found, index := true, keys[t]; }
        t := t + 1;
      }
      WalkEnd(cell, added, keys);
    }

    /** The answer is the one that sorting the values gives. */
    method Quantile(q: real) returns (r: Option<int>)
      requires Valid() && Accurate()
      modifies this`sorted, this`sortedStale
      ensures Valid()
      ensures r == if 0.0 <= q <= 1.0 then Some(QuantileOf(relativeAccuracy, added, q)) else None
      ensures r.Some? && added == [] ==> r.value == 0
      ensures r.Some? && added != [] && (forall v :: v in added ==> IsInt64(v)) ==>
                Answers(relativeAccuracy, added, q, r.value)
    {
      if q < 0.0 || q > 1.0 { return None; }
      if added != [] && (forall v :: v in added ==> IsInt64(v)) { QuantileAccuracy(relativeAccuracy, added, q); }
      if count == 0 { return Some(0); }
      var rank := Rank(q, count);
      ZeroRank(cell, added, rank);
      CellIsBucket(relativeAccuracy, OrderStatistic(added, q));
      if rank < zeroCount { return Some(0); }
      var found, index := Walk(rank);
      r := Some(if found then Estimate(relativeAccuracy, index) else max);
    }

    /** `Max`: the largest value added, or zero. */
    method Max() returns (m: int)
      requires Valid()
      ensures added == [] ==> m == 0
      ensures added != [] && (forall v :: v in added ==> IsInt64(v)) ==> IsPeak(added, m)
    {
      SummaryExtremes(cell, added);
      return if count == 0 then 0 else max;
    }

    /** `Min`: the smallest value added, or zero. */
    method Min() returns (m: int)
      requires Valid()
      ensures added == [] ==> m == 0
      ensures added != [] && (forall v :: v in added ==> IsInt64(v)) ==> IsLeast(added, m)
    {
      SummaryExtremes(cell, added);
      return if count == 0 then 0 else min;
    }

    /** Adds another sketch's bucket counts, key by key in whatever order the map gives them. */
    method MergeBuckets(theirs: map<int, int>)
      modifies this`buckets, this`sortedStale
      ensures buckets == SumBuckets(old(buckets), theirs)
      ensures !sortedStale ==> !old(sortedStale) && buckets.Keys == old(buckets).Keys
    {
      var keys := Range(theirs.Keys);
      for i := 0 to |keys|
        invariant buckets == MergeKeys(old(buckets), theirs, keys[..i])
        invariant !sortedStale ==> !old(sortedStale) && buckets.Keys == old(buckets).Keys
      {
        assert keys[..i + 1][..i] == keys[..i];
        Bump(keys[i], theirs[keys[i]]);
      }
      assert keys[..|keys|] == keys;
      MergeKeysAll(old(buckets), theirs, keys);
    }

    /** Merges another sketch of the same accuracy, itself included; anything else is refused and
        changes nothing. */
    method Merge(other: Sketch?) returns (ok: bool)
      requires Valid() && (other != null ==> other.Valid())
      requires other != null && other.relativeAccuracy == relativeAccuracy ==> other.cell == cell
      modifies this
      ensures Valid()
      ensures ok == (other != null && other.relativeAccuracy == relativeAccuracy)
      ensures added == if ok then old(added) + old(other.added) else old(added)
    {
      hide Summarise, IsKeyList, SumBuckets;
      if other == null || other.relativeAccuracy != relativeAccuracy { return false; }
      MergeHomomorphism(cell, added, other.added);
      if other.count == 0 {
        assert added + other.added == added;
        return true;
      }
      MergeBuckets(other.buckets);
      zeroCount := zeroCount + other.zeroCount;
      count := count + other.count;
      max := if other.max > max then other.max else max;
      min := if other.min < min then other.min else min;
      added := added + old(other.added);
      assert View() == Combine(old(View()), old(other.View()));
      return true;
    }

    /** A copy that answers as the original does and shares nothing with it. */
    method Clone() returns (clone: Sketch)
      requires Valid() && Accurate()
      ensures fresh(clone) && clone.Valid() && clone.Accurate()
      ensures clone.relativeAccuracy == relativeAccuracy && clone.added == added
    {
      clone := new Sketch(relativeAccuracy);
      clone.buckets, clone.sorted, clone.sortedStale := buckets, None, false;
      clone.zeroCount, clone.count, clone.max, clone.min := zeroCount, count, max, min;
      clone.added := added;
    }
  }

  ghost predicate IsPeak(vs: seq<int>, m: int) { m in vs && forall v :: v in vs ==> v <= m }

  ghost predicate IsLeast(vs: seq<int>, m: int) { m in vs && forall v :: v in vs ==> m <= v }

  lemma {:induction false} SummaryExtremes(cell: int -> int, vs: seq<int>)
    ensures Summarise(cell, vs).count == |vs|
    ensures vs != [] && (forall v :: v in vs ==> IsInt64(v)) ==>
              IsPeak(vs, Summarise(cell, vs).max) && IsLeast(vs, Summarise(cell, vs).min)
  {
    if vs != [] {
      var front, last := vs[..|vs| - 1], vs[|vs| - 1];
      SummaryExtremes(cell, front);
      assert forall v :: v in vs <==> v in front || v == last by { assert vs == front + [last]; }
      assert last in vs;
      if forall v :: v in vs ==> IsInt64(v) {
        var s := Summarise(cell, front);
        assert Summarise(cell, vs).max == if last > s.max then last else s.max;
        assert Summarise(cell, vs).min == if last < s.min then last else s.min;
        assert MIN_INT64 <= last <= MAX_INT64;
      }
    }
  }

  lemma ZeroRank(cell: int -> int, vs: seq<int>, k: nat)
    requires Cells(cell) && k < |vs|
    ensures k < Summarise(cell, vs).zeroCount <==> SortedValues(vs)[k] <= 0
  {
    BucketsCountCells(cell, vs);
    UpToBase(cell, vs);
    RankedCell(cell, vs, k, -1);
  }

  lemma CellIsBucket(alpha: real, v: int)
    requires ValidAccuracy(alpha)
    ensures v > 0 ==> At(CellsOf(alpha), v) == Index(Gamma(alpha), v)
  {
  }

  // ---- The merge loop, key by key ----

  function MergeKeys(mine: map<int, int>, theirs: map<int, int>, keys: seq<int>): map<int, int>
    requires forall k :: k in keys ==> k in theirs
  {
    if keys == [] then mine
    else
      var last := |keys| - 1;
      var m := MergeKeys(mine, theirs, keys[..last]);
      m[keys[last] := Held(m, keys[last]) + theirs[keys[last]]]
  }

  lemma {:induction false} MergeKeysAt(mine: map<int, int>, theirs: map<int, int>, keys: seq<int>, k: int)
    requires forall k :: k in keys ==> k in theirs
    requires forall i, j :: 0 <= i < j < |keys| ==> keys[i] != keys[j]
    ensures k in MergeKeys(mine, theirs, keys) <==> k in mine || k in keys
    ensures Held(MergeKeys(mine, theirs, keys), k) == Held(mine, k) + if k in keys then theirs[k] else 0
  {
    if keys != [] {
      assert keys == keys[..|keys| - 1] + [keys[|keys| - 1]];
      MergeKeysAt(mine, theirs, keys[..|keys| - 1], k);
    }
  }

  lemma MergeKeysAll(mine: map<int, int>, theirs: map<int, int>, keys: seq<int>)
    requires forall k :: k in keys <==> k in theirs
    requires forall i, j :: 0 <= i < j < |keys| ==> keys[i] != keys[j]
    ensures MergeKeys(mine, theirs, keys) == SumBuckets(mine, theirs)
  {
    var m := MergeKeys(mine, theirs, keys);
    forall k
      ensures k in m <==> k in mine || k in theirs
    {
      MergeKeysAt(mine, theirs, keys, k);
    }
    forall k | k in m
      ensures m[k] == Held(mine, k) + Held(theirs, k)
    {
      MergeKeysAt(mine, theirs, keys, k);
      assert Held(m, k) == m[k];
    }
    assert m.Keys == mine.Keys + theirs.Keys;
  }

  /** `NewSketch`: an accuracy outside (0, 1) is refused. */
  method NewSketch(alpha: real) returns (s: Sketch?)
    ensures s == null <==> !ValidAccuracy(alpha)
    ensures s != null ==> fresh(s) && s.Valid() && s.Accurate() && s.added == [] && s.relativeAccuracy == alpha
  {
    if alpha <= 0.0 || alpha >= 1.0 { return null; }
    s := new Sketch(alpha);
  }
}
