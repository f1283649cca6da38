/** The spool's index and the directory it stands for, as values: what every index satisfies, what a directory
    holds at any moment between two file operations, and what reading it back gives. */
module SpoolIndex {
  import opened Ordering
  import opened SpoolNames

  type Payload = seq<bv8>

  type Disk = map<string, Payload>

  datatype Index = Index(order: seq<string>, sizes: map<string, nat>, bytes: int, sequence: nat, enqueued: nat)

  // ---- The index ----

  function SizeIn(sizes: map<string, nat>, name: string): nat { if name in sizes then sizes[name] else 0 }

  function Total(order: seq<string>, sizes: map<string, nat>): nat {
    if order == [] then 0 else SizeIn(sizes, order[0]) + Total(order[1..], sizes)
  }

  predicate Precedes(a: string, b: string) { IsEntry(a) && IsEntry(b) && KeyLess(KeyOf(a), KeyOf(b)) }

  ghost predicate Distinct(order: seq<string>) { forall i, j :: 0 <= i < j < |order| ==> order[i] != order[j] }

  ghost predicate Sorted(order: seq<string>) { forall i, j :: 0 <= i < j < |order| ==> !Precedes(order[j], order[i]) }

  predicate Numbered(name: string, enqueued: int, sequence: int) {
    IsEntry(name) && KeyOf(name).ordinal <= enqueued && KeyOf(name).sequence <= sequence
  }

  /** No duplicates, the same names as the sizes, ascending, and bytes the sum of the sizes. */
  ghost predicate IndexOk(x: Index) {
    && Distinct(x.order) && Sorted(x.order)
    && (forall n :: n in x.sizes <==> n in x.order)
    && (forall n :: n in x.order ==> Numbered(n, x.enqueued, x.sequence))
    && x.bytes == Total(x.order, x.sizes)
  }

  lemma {:induction false} TotalSame(order: seq<string>, sizes: map<string, nat>, sizes': map<string, nat>)
    requires forall n :: n in order ==> SizeIn(sizes, n) == SizeIn(sizes', n)
    ensures Total(order, sizes) == Total(order, sizes')
  {
    if order != [] { TotalSame(order[1..], sizes, sizes'); }
  }

  lemma {:induction false} TotalConcat(a: seq<string>, b: seq<string>, sizes: map<string, nat>)
    ensures Total(a + b, sizes) == Total(a, sizes) + Total(b, sizes)
  {
    if a == [] {
      assert a + b == b;
    } else {
      assert (a + b)[1..] == a[1..] + b;
      TotalConcat(a[1..], b, sizes);
    }
  }

  lemma TotalOne(n: string, sizes: map<string, nat>)
    ensures Total([n], sizes) == SizeIn(sizes, n)
  {
    assert [n][1..] == [];
  }

  function Without(order: seq<string>, i: nat): seq<string>
    requires i < |order|
  {
    order[..i] + order[i + 1..]
  }

  lemma WithoutMembers(order: seq<string>, i: nat)
    requires i < |order| && Distinct(order)
    ensures forall n :: n in Without(order, i) <==> n in order && n != order[i]
    ensures Distinct(Without(order, i))
    ensures Sorted(order) ==> Sorted(Without(order, i))
  {
    hide Precedes;
    var rest := Without(order, i);
    assert forall j :: 0 <= j < |rest| ==> rest[j] == order[if j < i then j else j + 1];
    forall n | n in order && n != order[i] ensures n in rest {
      var j :| 0 <= j < |order| && order[j] == n;
      assert rest[if j < i then j else j - 1] == n;
    }
  }

  /** Taking an entry out of the index. The bytes stay the sum of the sizes, so never fall below zero. */
  lemma RemoveOk(x: Index, i: nat)
    requires IndexOk(x) && i < |x.order|
    ensures x.order[i] in x.sizes && x.bytes >= x.sizes[x.order[i]]
    ensures IndexOk(x.(order := Without(x.order, i), sizes := x.sizes - {x.order[i]},
                       bytes := x.bytes - x.sizes[x.order[i]]))
  {
    hide Precedes, Numbered, Sorted, Distinct;
    var name, rest := x.order[i], Without(x.order, i);
    WithoutMembers(x.order, i);
    assert name in x.order;
    assert x.order == x.order[..i] + [name] + x.order[i + 1..];
    TotalConcat(x.order[..i] + [name], x.order[i + 1..], x.sizes);
    TotalConcat(x.order[..i], [name], x.sizes);
    TotalConcat(x.order[..i], x.order[i + 1..], x.sizes);
    TotalOne(name, x.sizes);
    TotalSame(rest, x.sizes, x.sizes - {name});
  }

  /** Adding an entry named after every entry so far. */
  lemma AppendOk(x: Index, name: string, size: nat, enqueued: nat)
    requires IndexOk(x) && IsEntry(name) && KeyOf(name).sequence > x.sequence && KeyOf(name).ordinal > x.enqueued
    requires enqueued >= KeyOf(name).ordinal
    ensures IndexOk(Index(x.order + [name], x.sizes[name := size], x.bytes + size, KeyOf(name).sequence, enqueued))
    ensures name !in x.order && forall n :: n in x.order ==> Precedes(n, name)
  {
    hide IsEntry, ParseName;
    TotalConcat(x.order, [name], x.sizes[name := size]);
    TotalOne(name, x.sizes[name := size]);
    assert name !in x.order;
    TotalSame(x.order, x.sizes, x.sizes[name := size]);
    var y := Index(x.order + [name], x.sizes[name := size], x.bytes + size, KeyOf(name).sequence, enqueued);
    forall i, j | 0 <= i < j < |y.order| ensures !Precedes(y.order[j], y.order[i]) {
      if j == |x.order| { assert y.order[i] in x.order; }
    }
  }

  lemma MoreNumbers(x: Index, sequence: nat, enqueued: nat)
    requires IndexOk(x) && x.sequence <= sequence && x.enqueued <= enqueued
    ensures IndexOk(x.(sequence := sequence, enqueued := enqueued))
  {
    hide Precedes, IsEntry, Total;
  }

  // ---- What a directory holds ----

  /** The entries in the directory are those of these names that `contents` has, as it has them. */
  ghost predicate Holds(d: Disk, names: seq<string>, contents: Disk) {
    forall n :: IsEntry(n) ==> (n in d <==> n in names && n in contents) && (n in d ==> d[n] == contents[n])
  }

  /** The index knows every entry in the directory, with its size. Files may have vanished. */
  ghost predicate Mirrors(d: Disk, x: Index) {
    Holds(d, x.order, d) && forall n :: n in x.order && n in d ==> n in x.sizes && |d[n]| == x.sizes[n]
  }

  lemma HoldsWithout(d: Disk, names: seq<string>, contents: Disk, i: nat)
    requires Holds(d, names, contents) && i < |names| && Distinct(names)
    ensures Holds(d - {names[i]}, Without(names, i), contents)
  {
    hide IsEntry;
    WithoutMembers(names, i);
  }

  lemma HoldsOther(d: Disk, names: seq<string>, contents: Disk, name: string, content: Payload)
    requires Holds(d, names, contents) && !IsEntry(name)
    ensures Holds(d[name := content], names, contents) && Holds(d - {name}, names, contents)
  {
    hide IsEntry;
  }

  lemma HoldsNew(d: Disk, names: seq<string>, contents: Disk, name: string, payload: Payload)
    requires Holds(d, names, contents) && name !in contents
    ensures Holds(d[name := payload], names + [name], contents[name := payload])
  {
    hide IsEntry;
  }

  // ---- Listings ----

  /** What `recover` reads from a directory. */
  ghost predicate IsListing(order: seq<string>, d: Disk) {
    Distinct(order) && Sorted(order) && forall n :: n in order <==> IsEntry(n) && n in d
  }

  /** No two entries carry the same numbers. */
  ghost predicate Unambiguous(d: Disk) {
    forall a, b :: a in d && b in d && IsEntry(a) && IsEntry(b) && KeyOf(a) == KeyOf(b) ==> a == b
  }

  /** The same names, in orders that differ at most among entries with the same numbers. */
  ghost predicate SameListing(a: seq<string>, b: seq<string>) {
    && |a| == |b| && (forall n :: n in a <==> n in b)
    && forall i :: 0 <= i < |a| ==> ParseName(a[i]) == ParseName(b[i])
  }

  lemma ListingHeld(order: seq<string>, d: Disk)
    requires IsListing(order, d)
    ensures forall n :: n in order ==> IsEntry(n) && n in d
  {
  }

  /** What sorted means: by ordinal, and by sequence within an ordinal. */
  lemma SortedByNumbers(order: seq<string>, i: nat, j: nat)
    requires Sorted(order) && (forall n :: n in order ==> IsEntry(n)) && i < j < |order|
    ensures IsEntry(order[i]) && IsEntry(order[j])
    ensures var a, b := KeyOf(order[i]), KeyOf(order[j]);
            a.ordinal <= b.ordinal && (a.ordinal == b.ordinal ==> a.sequence <= b.sequence)
  {
    hide IsEntry, ParseName;
    assert order[i] in order && order[j] in order;
  }

  /** In a sorted list of entries nothing before an entry with the first one's key has another key. */
  lemma SameHead(a: seq<string>, p: nat, i: nat)
    requires Sorted(a) && (forall n :: n in a ==> IsEntry(n)) && i <= p < |a|
    requires ParseName(a[p]) == ParseName(a[0])
    ensures ParseName(a[i]) == ParseName(a[0])
  {
    hide ParseName, HasSuffix;
    assert a[0] in a && a[i] in a && a[p] in a;
    if 0 < i < p { assert !Precedes(a[i], a[0]) && !Precedes(a[p], a[i]); }
  }

  /** The least keys of two sorted lists of the same entries are equal. */
  lemma LeastKey(a: seq<string>, b: seq<string>)
    requires Sorted(a) && Sorted(b) && (forall n :: n in a ==> IsEntry(n)) && (forall n :: n in a <==> n in b)
    requires a != [] && b != []
    ensures ParseName(a[0]) == ParseName(b[0])
  {
    hide ParseName, HasSuffix;
    assert a[0] in b && b[0] in a;
    var i :| 0 <= i < |a| && a[i] == b[0];
    var j :| 0 <= j < |b| && b[j] == a[0];
    assert i > 0 ==> !Precedes(a[i], a[0]);
    assert j > 0 ==> !Precedes(b[j], b[0]);
  }

  /** Two listings of a directory differ at most among entries with the same numbers. */
  lemma {:induction false} ListingsAlike(a: seq<string>, b: seq<string>)
    requires Distinct(a) && Sorted(a) && Distinct(b) && Sorted(b)
    requires (forall n :: n in a ==> IsEntry(n)) && forall n :: n in a <==> n in b
    ensures SameListing(a, b)
    decreases |a|
  {
    hide IsEntry, ParseName, Precedes;
    FirstIn(a);
    FirstIn(b);
    if a != [] && b != [] {
      assert a[0] in b;
      var p :| 0 <= p < |b| && b[p] == a[0];
      WithoutMembers(a, 0);
      WithoutMembers(b, p);
      var a', b' := Without(a, 0), Without(b, p);
      ListingsAlike(a', b');
      LeastKey(a, b);
      forall i | 0 <= i < |a| ensures ParseName(a[i]) == ParseName(b[i]) {
        if i > 0 {
          assert a'[i - 1] == a[i] && ParseName(a'[i - 1]) == ParseName(b'[i - 1]);
          if i <= p {
            SameHead(b, p, i);
            SameHead(b, p, i - 1);
          }
        }
      }
    }
  }

  /** A directory can be read back in one way exactly when no two of its entries carry the same numbers. */
  lemma ListingUniqueIff(a: seq<string>, d: Disk)
    requires IsListing(a, d)
    ensures Unambiguous(d) <==> forall b :: IsListing(b, d) ==> b == a
  {
    hide Unambiguous, IsListing;
    if Unambiguous(d) {
      forall b | IsListing(b, d) ensures b == a { ListingUnique(b, a, d); }
    } else {
      var b := AnotherListing(a, d);
    }
  }

  lemma AnotherListing(a: seq<string>, d: Disk) returns (b: seq<string>)
    requires IsListing(a, d) && !Unambiguous(d)
    ensures IsListing(b, d) && b != a
  {
    hide IsEntry, ParseName, Sorted, Distinct;
    var x, y :| x in d && y in d && IsEntry(x) && IsEntry(y) && KeyOf(x) == KeyOf(y) && x != y;
    assert x in a && y in a;
    hide IsListing;
    var i :| 0 <= i < |a| && a[i] == x;
    var j :| 0 <= j < |a| && a[j] == y;
    Exchanged(a, d, i, j);
    b := a[i := a[j]][j := a[i]];
    assert b[j] == x != a[j];
  }

  lemma ListingUnique(a: seq<string>, b: seq<string>, d: Disk)
    requires IsListing(a, d) && IsListing(b, d) && Unambiguous(d)
    ensures a == b
  {
    hide IsEntry, ParseName, Precedes;
    ListingHeld(a, d);
    ListingHeld(b, d);
    ListingsAlike(a, b);
    forall i | 0 <= i < |a| ensures a[i] == b[i] { assert a[i] in a && b[i] in b; }
  }

  /** Exchanging two entries with the same numbers gives another listing. */
  lemma Exchanged(a: seq<string>, d: Disk, i: nat, j: nat)
    requires IsListing(a, d) && i < |a| && j < |a| && IsEntry(a[i]) && IsEntry(a[j]) && KeyOf(a[i]) == KeyOf(a[j])
    ensures IsListing(a[i := a[j]][j := a[i]], d)
  {
    hide IsEntry, ParseName;
    ListingHeld(a, d);
    var b := a[i := a[j]][j := a[i]];
    forall k | 0 <= k < |a| ensures IsEntry(b[k]) && IsEntry(a[k]) && KeyOf(b[k]) == KeyOf(a[k]) {
      assert a[k] in a && a[i] in a && a[j] in a;
    }
    forall n ensures n in b <==> n in a {
      if n in a {
        var k :| 0 <= k < |a| && a[k] == n;
        assert b[if k == i then j else if k == j then i else k] == n;
      }
    }
    forall p, q | 0 <= p < q < |b| ensures !Precedes(b[q], b[p]) { assert !Precedes(a[q], a[p]); }
  }

  // ---- What survives ----

  /** The entries of an order whose files are in the directory. */
  function Surviving(order: seq<string>, d: Disk): seq<string> {
    if order == [] then []
    else Surviving(order[..|order| - 1], d) + if order[|order| - 1] in d then [order[|order| - 1]] else []
  }

  lemma {:induction false} SurvivingMembers(order: seq<string>, d: Disk)
    ensures forall n :: n in Surviving(order, d) <==> n in order && n in d
    ensures Distinct(order) ==> Distinct(Surviving(order, d))
    ensures Sorted(order) ==> Sorted(Surviving(order, d))
  {
    hide Precedes;
    if order != [] {
      var front, last := order[..|order| - 1], order[|order| - 1];
      SurvivingMembers(front, d);
      assert order == front + [last];
      var kept := Surviving(front, d);
      forall i | 0 <= i < |kept| ensures kept[i] in front {}
    }
  }

  lemma {:induction false} SurvivingConcat(a: seq<string>, b: seq<string>, d: Disk)
    ensures Surviving(a + b, d) == Surviving(a, d) + Surviving(b, d)
  {
    if b == [] {
      assert a + b == a;
    } else {
      assert (a + b)[..|a + b| - 1] == a + b[..|b| - 1];
      SurvivingConcat(a, b[..|b| - 1], d);
    }
  }

  lemma {:induction false} SurvivingAll(order: seq<string>, d: Disk)
    requires forall n :: n in order ==> n in d
    ensures Surviving(order, d) == order
  {
    if order != [] {
      SurvivingAll(order[..|order| - 1], d);
      assert order == order[..|order| - 1] + [order[|order| - 1]];
    }
  }

  lemma {:induction false} TotalSurviving(order: seq<string>, d: Disk, sizes: map<string, nat>)
    ensures Total(Surviving(order, d), sizes) <= Total(order, sizes) && |Surviving(order, d)| <= |order|
  {
    if order != [] {
      var front, last := order[..|order| - 1], order[|order| - 1];
      TotalSurviving(front, d, sizes);
      assert order == front + [last];
      TotalConcat(front, [last], sizes);
      TotalConcat(Surviving(front, d), [last], sizes);
      TotalConcat(Surviving(front, d), [], sizes);
      TotalOne(last, sizes);
      assert Surviving(front, d) + [] == Surviving(front, d);
    }
  }

  /** A directory that holds part of an order is read back as the part that survives. */
  lemma SurvivingListing(names: seq<string>, d: Disk, contents: Disk)
    requires Distinct(names) && Sorted(names) && (forall n :: n in names ==> IsEntry(n)) && Holds(d, names, contents)
    ensures IsListing(Surviving(names, contents), d)
  {
    hide IsEntry, Precedes;
    SurvivingMembers(names, contents);
  }

  lemma SuffixOrder(order: seq<string>, k: nat)
    requires k <= |order|
    ensures Distinct(order) ==> Distinct(order[k..])
    ensures Sorted(order) ==> Sorted(order[k..])
    ensures forall n :: n in order[k..] ==> n in order
  {
    hide Precedes;
  }

  // ---- Crashes ----

  /** A directory a process can leave behind while it evicts from the front: a suffix of the order. */
  ghost predicate HoldsSuffix(d: Disk, order: seq<string>, contents: Disk) {
    exists k :: 0 <= k <= |order| && Holds(d, order[k..], contents)
  }

  /** ... or while it evicts `k` entries and, if `added`, adds one payload: a suffix, or what was to be kept
      followed by that payload, whole. */
  ghost predicate CrashSafe(
    d: Disk, order: seq<string>, contents: Disk, k: nat, added: bool, name: string, payload: Payload)
    requires k <= |order|
  {
    HoldsSuffix(d, order, contents) || (added && Holds(d, order[k..] + [name], contents[name := payload]))
  }

  /** The surviving order before a crash, or a suffix of it while evictions are under way. */
  ghost predicate IsRest(t: seq<string>, order: seq<string>, contents: Disk) {
    exists j :: 0 <= j <= |order| && t == Surviving(order[j..], contents)
  }

  /** `t` is what is read back from the directory, up to entries with the same numbers. */
  ghost predicate ReadsAs(d: Disk, recovered: seq<string>, t: seq<string>) {
    IsListing(t, d) && SameListing(recovered, t) && (Unambiguous(d) ==> recovered == t)
  }

  lemma ReadsBack(d: Disk, recovered: seq<string>, t: seq<string>)
    requires IsListing(recovered, d) && IsListing(t, d)
    ensures ReadsAs(d, recovered, t)
  {
    hide IsEntry, ParseName, Precedes;
    ListingHeld(recovered, d);
    ListingHeld(t, d);
    ListingsAlike(recovered, t);
    if Unambiguous(d) { ListingUnique(recovered, t, d); }
  }

  /** A name after all others, with what was to be kept before it. */
  lemma GrownListing(order: seq<string>, d: Disk, contents: Disk, k: nat, name: string, payload: Payload)
    requires Distinct(order) && Sorted(order) && (forall n :: n in order ==> IsEntry(n)) && k <= |order|
    requires name !in contents
    requires Holds(d, order[k..] + [name], contents[name := payload])
    requires IsEntry(name) && name !in order && forall n :: n in order ==> Precedes(n, name)
    ensures IsListing(Surviving(order[k..], contents) + [name], d)
  {
    hide IsEntry, ParseName;
    SuffixOrder(order, k);
    SurvivingMembers(order[k..], contents);
    var grown := Surviving(order[k..], contents) + [name];
    forall n ensures n in grown <==> IsEntry(n) && n in d {
      assert n in grown <==> n == name || (n in order[k..] && n in contents);
    }
    forall i, j | 0 <= i < j < |grown| ensures !Precedes(grown[j], grown[i]) && grown[i] != grown[j] {
      assert grown[i] in order;
    }
  }

  lemma SubUnambiguous(d: Disk, names: seq<string>, contents: Disk)
    requires Holds(d, names, contents) && Unambiguous(contents)
    ensures Unambiguous(d)
  {
    hide IsEntry, ParseName;
  }

  lemma GrownUnambiguous(d: Disk, names: seq<string>, contents: Disk, name: string, payload: Payload)
    requires Holds(d, names + [name], contents[name := payload]) && Unambiguous(contents)
    requires IsEntry(name) && forall n :: n in names ==> Precedes(n, name)
    ensures Unambiguous(d)
  {
    hide IsEntry, ParseName;
    forall a, b | a in d && b in d && IsEntry(a) && IsEntry(b) && KeyOf(a) == KeyOf(b) ensures a == b {
      assert a == name || a in names;
      assert b == name || b in names;
    }
  }

  /** After a crash anywhere in an eviction or an enqueue, what is read back is the surviving order or a
      suffix of it, or what was to be kept followed by the new entry; and every payload is whole. */
  lemma CrashRecovery(
    order: seq<string>, contents: Disk, d: Disk, k: nat, added: bool, name: string, payload: Payload,
    recovered: seq<string>)
    requires Distinct(order) && Sorted(order) && (forall n :: n in order ==> IsEntry(n)) && k <= |order|
    requires name !in contents
    requires IsEntry(name) && name !in order && forall n :: n in order ==> Precedes(n, name)
    requires CrashSafe(d, order, contents, k, added, name, payload) && IsListing(recovered, d)
    ensures (exists t :: IsRest(t, order, contents) && ReadsAs(d, recovered, t))
         || (added && ReadsAs(d, recovered, Surviving(order[k..], contents) + [name]))
    ensures forall n :: n in recovered && n != name ==> n in d && n in contents && d[n] == contents[n]
    ensures name in recovered ==> name in d && d[name] == payload
    ensures Unambiguous(contents) ==> Unambiguous(d)
  {
    hide IsEntry, Precedes, IsListing, Unambiguous, Sorted, Distinct;
    ListingHeld(recovered, d);
    if HoldsSuffix(d, order, contents) {
      var j :| 0 <= j <= |order| && Holds(d, order[j..], contents);
      SuffixOrder(order, j);
      SurvivingListing(order[j..], d, contents);
      ReadsBack(d, recovered, Surviving(order[j..], contents));
      assert IsRest(Surviving(order[j..], contents), order, contents);
      if Unambiguous(contents) { SubUnambiguous(d, order[j..], contents); }
    } else {
      SuffixOrder(order, k);
      GrownListing(order, d, contents, k, name, payload);
      ReadsBack(d, recovered, Surviving(order[k..], contents) + [name]);
      if Unambiguous(contents) { GrownUnambiguous(d, order[k..], contents, name, payload); }
    }
  }

  // ---- Reading a directory ----

  function NamesOf(found: seq<Found>): (names: seq<string>)
    ensures |names| == |found| && forall i :: 0 <= i < |found| ==> names[i] == found[i].name
  {
    seq(|found|, i requires 0 <= i < |found| => found[i].name)
  }

  /** An index whose order is not yet sorted. */
  ghost predicate Gathered(x: Index) {
    && Distinct(x.order)
    && (forall n :: n in x.sizes <==> n in x.order)
    && (forall n :: n in x.order ==> Numbered(n, x.enqueued, x.sequence))
    && x.bytes == Total(x.order, x.sizes)
  }

  function Max(a: int, b: int): int { if a > b then a else b }

  lemma GatherOne(x: Index, name: string, size: nat)
    requires Gathered(x) && IsEntry(name) && name !in x.order
    ensures Gathered(Index(x.order + [name], x.sizes[name := size], x.bytes + size,
                           Max(x.sequence, KeyOf(name).sequence), Max(x.enqueued, KeyOf(name).ordinal)))
  {
    hide IsEntry, ParseName;
    TotalConcat(x.order, [name], x.sizes[name := size]);
    TotalOne(name, x.sizes[name := size]);
    TotalSame(x.order, x.sizes, x.sizes[name := size]);
  }

  lemma TotalWithout(order: seq<string>, i: nat, sizes: map<string, nat>)
    requires i < |order|
    ensures Total(order, sizes) == Total(Without(order, i), sizes) + SizeIn(sizes, order[i])
  {
    assert order == order[..i] + [order[i]] + order[i + 1..];
    TotalConcat(order[..i] + [order[i]], order[i + 1..], sizes);
    TotalConcat(order[..i], [order[i]], sizes);
    TotalConcat(order[..i], order[i + 1..], sizes);
    TotalOne(order[i], sizes);
  }

  lemma FirstIn(order: seq<string>)
    ensures order != [] ==> order[0] in order
  {
  }

  /** The total does not depend on the order. */
  lemma {:induction false} TotalPermutation(a: seq<string>, b: seq<string>, sizes: map<string, nat>)
    requires Distinct(a) && Distinct(b) && forall n :: n in a <==> n in b
    ensures Total(a, sizes) == Total(b, sizes)
    decreases |a|
  {
    hide Total;
    if a == [] {
      FirstIn(b);
      assert b == [];
    } else {
      assert a[0] in b;
      var j :| 0 <= j < |b| && b[j] == a[0];
      WithoutMembers(a, 0);
      WithoutMembers(b, j);
      TotalWithout(a, 0, sizes);
      TotalWithout(b, j, sizes);
      TotalPermutation(Without(a, 0), Without(b, j), sizes);
    }
  }

  ghost predicate Labelled(found: seq<Found>) {
    forall i :: 0 <= i < |found| ==> IsEntry(found[i].name) && found[i].key == KeyOf(found[i].name)
  }

  /** A sorted arrangement of labelled entries has the same names, once each, ascending. */
  lemma SortedNames(found: seq<Found>, sorted: seq<Found>)
    requires Labelled(found) && Distinct(NamesOf(found)) && multiset(found) == multiset(sorted)
    requires Ascending(FoundLess, sorted)
    ensures forall n :: n in NamesOf(sorted) <==> n in NamesOf(found)
    ensures Distinct(NamesOf(sorted)) && Sorted(NamesOf(sorted))
  {
    hide IsEntry, ParseName;
    forall f ensures f in sorted <==> f in found { assert f in multiset(sorted) <==> f in multiset(found); }
    forall n ensures n in NamesOf(sorted) <==> n in NamesOf(found) { SameNames(found, sorted, n); }
    assert forall i, j :: 0 <= i < j < |found| ==> found[i] != found[j] by {
      assert forall i :: 0 <= i < |found| ==> NamesOf(found)[i] == found[i].name;
    }
    PermutationKeepsDistinct(found, sorted);
    forall i | 0 <= i < |sorted| ensures IsEntry(sorted[i].name) && sorted[i].key == KeyOf(sorted[i].name) {
      assert sorted[i] in found;
    }
  }

  lemma SameNames(found: seq<Found>, sorted: seq<Found>, n: string)
    requires forall f :: f in sorted <==> f in found
    ensures n in NamesOf(sorted) <==> n in NamesOf(found)
  {
    if n in NamesOf(sorted) {
      var i :| 0 <= i < |sorted| && NamesOf(sorted)[i] == n;
      assert sorted[i] in found;
      var j :| 0 <= j < |found| && found[j] == sorted[i];
      assert NamesOf(found)[j] == n;
    }
    if n in NamesOf(found) {
      var i :| 0 <= i < |found| && NamesOf(found)[i] == n;
      assert found[i] in sorted;
      var j :| 0 <= j < |sorted| && sorted[j] == found[i];
      assert NamesOf(sorted)[j] == n;
    }
  }

  /** Sorting what was gathered gives an index. */
  lemma SortGathered(x: Index, found: seq<Found>, sorted: seq<Found>)
    requires Gathered(x) && x.order == NamesOf(found) && multiset(found) == multiset(sorted)
    requires Ascending(FoundLess, sorted) && Labelled(found)
    ensures IndexOk(x.(order := NamesOf(sorted)))
    ensures forall n :: n in NamesOf(sorted) <==> n in x.order
  {
    hide IsEntry, ParseName, Numbered, Sorted, Distinct, Total, Ascending, Labelled;
    SortedNames(found, sorted);
    TotalPermutation(x.order, NamesOf(sorted), x.sizes);
  }
}
