/** The spool over process lives (internal/spool/spool.go): any run of enqueues and releases, stopped between
    any two file operations and opened again with the same budget. */
module SpoolRuns {
  import opened SpoolNames
  import opened SpoolIndex
  import opened Spool

  // ---- One operation, stopped anywhere ----

  /** Every payload read back is the one put there. */
  ghost predicate Whole(d: Disk, recovered: seq<string>, contents: Disk, name: string, payload: Payload) {
    && (forall n :: n in recovered && n != name ==> n in d && n in contents && d[n] == contents[n])
    && (name in recovered ==> name in d && d[name] == payload)
  }

  /** What is read back after a stop in an enqueue: the surviving order or a suffix of it, or what was to be
      kept followed by the new entry; every payload whole; and within the budget. */
  ghost predicate Survived(
    d: Disk, recovered: seq<string>, order: seq<string>, contents: Disk, k: nat, added: bool, name: string,
    payload: Payload,
    maxBytes: nat)
    requires k <= |order|
  {
    && ((exists t :: IsRest(t, order, contents) && ReadsAs(d, recovered, t))
        || (added && ReadsAs(d, recovered, Surviving(order[k..], contents) + [name])))
    && Whole(d, recovered, contents, name, payload)
    && SizeOnDisk(recovered, d) <= maxBytes && |recovered| <= MaxEntries(maxBytes)
  }

  lemma SuffixTotal(order: seq<string>, j: nat, sizes: map<string, nat>)
    requires j <= |order|
    ensures Total(order[j..], sizes) <= Total(order, sizes)
  {
    assert order == order[..j] + order[j..];
    TotalConcat(order[..j], order[j..], sizes);
  }

  /** The sizes of what is read back: those of what it reads as, in the index's sizes and the new payload's. */
  lemma RecoveredSize(
    x: Index, contents: Disk, d: Disk, recovered: seq<string>, t: seq<string>, name: string, payload: Payload)
    requires IndexOk(x) && Mirrors(contents, x) && IsListing(recovered, d) && ReadsAs(d, recovered, t)
    requires Whole(d, recovered, contents, name, payload) && forall n :: n in t ==> n in x.order || n == name
    ensures SizeOnDisk(recovered, d) == Total(t, x.sizes[name := |payload|]) && |recovered| == |t|
  {
    hide IsEntry, ParseName, Sorted, Holds, Total;
    var sizes := x.sizes[name := |payload|];
    forall n | n in recovered ensures n in d && n in sizes && sizes[n] == |d[n]| { assert n in t; }
    TotalOnDisk(recovered, sizes, d);
    TotalPermutation(recovered, t, sizes);
  }

  lemma RestSize(x: Index, contents: Disk, t: seq<string>, name: string, size: nat)
    requires IndexOk(x) && IsRest(t, x.order, contents) && name !in x.order
    ensures Total(t, x.sizes[name := size]) <= x.bytes && |t| <= |x.order| && forall n :: n in t ==> n in x.order
  {
    hide IsEntry, ParseName, Sorted, Distinct, Total;
    var j :| 0 <= j <= |x.order| && t == Surviving(x.order[j..], contents);
    BytesAreTotal(x);
    SuffixTotal(x.order, j, x.sizes);
    TotalSurviving(x.order[j..], contents, x.sizes);
    SurvivingMembers(x.order[j..], contents);
    forall n | n in t ensures n in x.order { assert n in x.order[j..]; }
    TotalSame(t, x.sizes, x.sizes[name := size]);
  }

  lemma GrownSize(x: Index, contents: Disk, k: nat, name: string, size: nat)
    requires IndexOk(x) && k <= |x.order| && name !in x.order
    ensures var t := Surviving(x.order[k..], contents) + [name];
            && Total(t, x.sizes[name := size]) <= Total(x.order[k..], x.sizes) + size && |t| <= |x.order| - k + 1
            && forall n :: n in t ==> n in x.order || n == name
  {
    hide IsEntry, ParseName, Sorted, Distinct, Total;
    var rest, sizes := Surviving(x.order[k..], contents), x.sizes[name := size];
    TotalSurviving(x.order[k..], contents, x.sizes);
    SurvivingMembers(x.order[k..], contents);
    forall n | n in rest ensures n in x.order { assert n in x.order[k..]; }
    TotalConcat(rest, [name], sizes);
    TotalOne(name, sizes);
    TotalSame(rest, x.sizes, sizes);
  }

  lemma CrashReads(x: Index, contents: Disk, d: Disk, k: nat, added: bool, payload: Payload, recovered: seq<string>)
    requires IndexOk(x) && Mirrors(contents, x)
    requires x.enqueued + 1 < INT64 && x.sequence + 1 < UINT64 && k <= |x.order|
    requires CrashSafe(d, x.order, contents, k, added, Name(x.enqueued + 1, x.sequence + 1), payload)
    requires IsListing(recovered, d)
    ensures var name := Name(x.enqueued + 1, x.sequence + 1);
            && name !in x.order
            && ((exists t :: IsRest(t, x.order, contents) && ReadsAs(d, recovered, t))
                || (added && ReadsAs(d, recovered, Surviving(x.order[k..], contents) + [name])))
            && Whole(d, recovered, contents, name, payload)
    ensures Unambiguous(contents) ==> Unambiguous(d)
  {
    hide IndexOk, Mirrors, Unambiguous, IsListing, CrashSafe, IsEntry, ParseName, Name, Precedes, ReadsAs, IsRest;
    hide Surviving, Sorted, Distinct;
    var name := Name(x.enqueued + 1, x.sequence + 1);
    IndexOrder(x);
    FreshName(x);
    NotOnDisk(contents, x, name);
    AllEntries(x);
    CrashRecovery(x.order, contents, d, k, added, name, payload, recovered);
  }

  /** The process stops between two file operations of an enqueue and the spool is opened again with the same
      budget. */
  lemma ReopenAfterCrash(
    x: Index, contents: Disk, d: Disk, k: nat, added: bool, payload: Payload, maxBytes: nat, recovered: seq<string>)
    requires IndexOk(x) && Mirrors(contents, x)
    requires x.enqueued + 1 < INT64 && x.sequence + 1 < UINT64 && k <= |x.order|
    requires x.bytes <= maxBytes && |x.order| <= MaxEntries(maxBytes)
    requires added ==> Total(x.order[k..], x.sizes) + |payload| <= maxBytes && |x.order| - k < MaxEntries(maxBytes)
    requires CrashSafe(d, x.order, contents, k, added, Name(x.enqueued + 1, x.sequence + 1), payload)
    requires IsListing(recovered, d)
    ensures Survived(d, recovered, x.order, contents, k, added, Name(x.enqueued + 1, x.sequence + 1), payload, maxBytes)
    ensures Unambiguous(contents) ==> Unambiguous(d)
  {
    hide IndexOk, Mirrors, Unambiguous, IsListing, CrashSafe, IsEntry, ParseName, Name, Precedes, SizeOnDisk, Total;
    hide ReadsAs, IsRest;
    hide Surviving, Whole, MaxEntries;
    var name := Name(x.enqueued + 1, x.sequence + 1);
    CrashReads(x, contents, d, k, added, payload, recovered);
    if t :| IsRest(t, x.order, contents) && ReadsAs(d, recovered, t) {
      RestSize(x, contents, t, name, |payload|);
      RecoveredSize(x, contents, d, recovered, t, name, payload);
    } else {
      var t := Surviving(x.order[k..], contents) + [name];
      GrownSize(x, contents, k, name, |payload|);
      RecoveredSize(x, contents, d, recovered, t, name, payload);
    }
  }

  lemma IndexOrder(x: Index)
    requires IndexOk(x)
    ensures Distinct(x.order) && Sorted(x.order)
  {
  }

  /** What is read back after a stop once a release has removed its file: the rest, whole and within the
      budget. */
  ghost predicate LetGo(d: Disk, recovered: seq<string>, order: seq<string>, i: nat, contents: Disk, maxBytes: nat)
    requires i < |order|
  {
    && ReadsAs(d, recovered, Surviving(SpoolIndex.Without(order, i), contents))
    && (forall n :: n in recovered ==> n in d && n in contents && d[n] == contents[n])
    && SizeOnDisk(recovered, d) <= maxBytes && |recovered| <= MaxEntries(maxBytes)
  }

  lemma ReopenAfterRelease(x: Index, contents: Disk, d: Disk, i: nat, maxBytes: nat, recovered: seq<string>)
    requires IndexOk(x) && Mirrors(contents, x) && i < |x.order|
    requires x.bytes <= maxBytes && |x.order| <= MaxEntries(maxBytes)
    requires d == contents - {x.order[i]} && IsListing(recovered, d)
    ensures LetGo(d, recovered, x.order, i, contents, maxBytes)
    ensures Unambiguous(contents) ==> Unambiguous(d)
  {
    IndexOrder(x);
    hide IndexOk, Mirrors, IsEntry, ParseName, Precedes, Unambiguous, Total, SizeOnDisk, Sorted, Distinct, Holds;
    var rest := SpoolIndex.Without(x.order, i);
    AllEntries(x);
    SpoolIndex.WithoutMembers(x.order, i);
    SyncedHolds(contents, x);
    HoldsWithout(contents, x.order, contents, i);
    FewerUnambiguous(contents, x.order[i]);
    SurvivingListing(rest, d, contents);
    ReadsBack(d, recovered, Surviving(rest, contents));
    ListingHeld(recovered, d);
    SurvivingMembers(rest, contents);
    ReleasedSize(x, contents, d, i, recovered);
  }

  lemma ReleasedSize(x: Index, contents: Disk, d: Disk, i: nat, recovered: seq<string>)
    requires IndexOk(x) && Mirrors(contents, x) && i < |x.order| && d == contents - {x.order[i]}
    requires IsListing(recovered, d) && ReadsAs(d, recovered, Surviving(SpoolIndex.Without(x.order, i), contents))
    ensures SizeOnDisk(recovered, d) <= x.bytes && |recovered| <= |x.order|
  {
    hide IsEntry, ParseName, Sorted, Holds, Total, Numbered;
    var rest := SpoolIndex.Without(x.order, i);
    var t := Surviving(rest, contents);
    SpoolIndex.WithoutMembers(x.order, i);
    SurvivingMembers(rest, contents);
    forall n | n in recovered ensures n in d && n in x.sizes && x.sizes[n] == |d[n]| { assert n in t; }
    TotalOnDisk(recovered, x.sizes, d);
    TotalPermutation(recovered, t, x.sizes);
    TotalSurviving(rest, contents, x.sizes);
    TotalWithout(x.order, i, x.sizes);
    BytesAreTotal(x);
  }

  // ---- Runs ----

  datatype Op = Put(payload: Payload, faults: Faults) | Drop(name: string)

  /** The spool between two operations, and how many file operations it has behind it. */
  datatype Moment = Moment(index: Index, disk: Disk, at: nat)

  /** What an operation came to: so many evicted and the payload added or not, the entry at `i` released, or
      nothing. */
  datatype Done = Enqueued(payload: Payload, k: nat, added: bool) | Freed(i: nat) | Untouched

  function NameAfter(x: Index): string { Name(x.enqueued + 1, x.sequence + 1) }

  ghost predicate Follows(m: Moment, op: Op, e: Done, m': Moment, maxBytes: nat) {
    var order := m.index.order;
    match op
    case Put(payload, _) =>
      && e.Enqueued? && e.payload == payload && e.k <= |order|
      && m'.index.order == order[e.k..] + (if e.added then [NameAfter(m.index)] else [])
      && (e.k > 0 ==> Total(order[e.k - 1..], m.index.sizes) + |payload| > maxBytes)
      && Holds(m'.disk, m'.index.order, if e.added then m.disk[NameAfter(m.index) := payload] else m.disk)
    case Drop(name) =>
      if name in order then
        && e.Freed? && e.i < |order| && order[e.i] == name
        && m'.index.order == SpoolIndex.Without(order, e.i) && m'.disk == m.disk - {name}
      else e.Untouched? && m'.index == m.index && m'.disk == m.disk
  }

  /** However the directory is read back, it is what the operation's stop may leave. */
  ghost predicate Recovers(d: Disk, recovered: seq<string>, m: Moment, e: Done, maxBytes: nat) {
    match e
    case Enqueued(payload, k, added) =>
      && k <= |m.index.order|
      && Survived(d, recovered, m.index.order, m.disk, k, added, NameAfter(m.index), payload, maxBytes)
    case Freed(i) => i < |m.index.order| && LetGo(d, recovered, m.index.order, i, m.disk, maxBytes)
    case Untouched => false
  }

  ghost predicate Leaves(d: Disk, m: Moment, e: Done, maxBytes: nat) {
    && (forall recovered :: IsListing(recovered, d) ==> Recovers(d, recovered, m, e, maxBytes))
    && (Unambiguous(m.disk) ==> Unambiguous(d))
  }

  lemma SafeUnambiguous(x: Index, contents: Disk, d: Disk, k: nat, added: bool, payload: Payload)
    requires IndexOk(x) && x.enqueued + 1 < INT64 && x.sequence + 1 < UINT64 && k <= |x.order|
    requires CrashSafe(d, x.order, contents, k, added, NameAfter(x), payload) && Unambiguous(contents)
    ensures Unambiguous(d)
  {
    hide IndexOk, Unambiguous, IsEntry, ParseName, Name, Precedes, Holds;
    FreshName(x);
    if HoldsSuffix(d, x.order, contents) {
      var j :| 0 <= j <= |x.order| && Holds(d, x.order[j..], contents);
      SubUnambiguous(d, x.order[j..], contents);
    } else {
      GrownUnambiguous(d, x.order[k..], contents, NameAfter(x), payload);
    }
  }

  lemma PutLeaves(x: Index, contents: Disk, d: Disk, k: nat, added: bool, payload: Payload, maxBytes: nat)
    requires IndexOk(x) && Mirrors(contents, x)
    requires x.enqueued + 1 < INT64 && x.sequence + 1 < UINT64 && k <= |x.order|
    requires x.bytes <= maxBytes && |x.order| <= MaxEntries(maxBytes)
    requires added ==> Total(x.order[k..], x.sizes) + |payload| <= maxBytes && |x.order| - k < MaxEntries(maxBytes)
    requires CrashSafe(d, x.order, contents, k, added, NameAfter(x), payload)
    ensures forall at :: Leaves(d, Moment(x, contents, at), Enqueued(payload, k, added), maxBytes)
  {
    hide IndexOk, Mirrors, Unambiguous, IsListing, CrashSafe, Survived, Total, Name;
    forall recovered | IsListing(recovered, d)
      ensures Survived(d, recovered, x.order, contents, k, added, NameAfter(x), payload, maxBytes)
    {
      ReopenAfterCrash(x, contents, d, k, added, payload, maxBytes, recovered);
    }
    if Unambiguous(contents) { SafeUnambiguous(x, contents, d, k, added, payload); }
  }

  lemma DropLeaves(x: Index, contents: Disk, i: nat, maxBytes: nat)
    requires IndexOk(x) && Mirrors(contents, x) && i < |x.order|
    requires x.bytes <= maxBytes && |x.order| <= MaxEntries(maxBytes)
    ensures forall at :: Leaves(contents - {x.order[i]}, Moment(x, contents, at), Freed(i), maxBytes)
  {
    hide IndexOk, Mirrors, Unambiguous, IsListing, LetGo;
    var d := contents - {x.order[i]};
    forall recovered | IsListing(recovered, d) ensures LetGo(d, recovered, x.order, i, contents, maxBytes) {
      ReopenAfterRelease(x, contents, d, i, maxBytes, recovered);
    }
    FewerUnambiguous(contents, x.order[i]);
  }

  lemma TrailLeaves(
    x: Index, contents: Disk, start: seq<Disk>, trail: seq<Disk>, k: nat, added: bool, payload: Payload, maxBytes: nat)
    requires IndexOk(x) && Mirrors(contents, x)
    requires x.enqueued + 1 < INT64 && x.sequence + 1 < UINT64 && k <= |x.order|
    requires x.bytes <= maxBytes && |x.order| <= MaxEntries(maxBytes)
    requires added ==> Total(x.order[k..], x.sizes) + |payload| <= maxBytes && |x.order| - k < MaxEntries(maxBytes)
    requires SafeTrail(start, trail, x.order, contents, k, added, NameAfter(x), payload)
    ensures start <= trail
    ensures forall t, at :: |start| <= t < |trail| ==>
              Leaves(trail[t], Moment(x, contents, at), Enqueued(payload, k, added), maxBytes)
  {
    hide IndexOk, Mirrors, CrashSafe, Leaves, Total, Name;
    forall t, at | |start| <= t < |trail|
      ensures Leaves(trail[t], Moment(x, contents, at), Enqueued(payload, k, added), maxBytes)
    {
      PutLeaves(x, contents, trail[t], k, added, payload, maxBytes);
    }
  }

  /** A spool in use: its index knows its directory, nothing has failed to be removed, and it is within its
      budget. */
  ghost predicate InUse(s: Spool)
    reads s
  {
    s.Valid() && s.Synced() && s.Budgeted() && s.dropFailures == 0
  }

  ghost function Now(s: Spool): Moment
    reads s
  {
    Moment(s.View(), s.disk, |s.trail|)
  }

  /** One operation, with no removal failing: what follows, and what a stop anywhere in it leaves. */
  method Perform(s: Spool, op: Op) returns (ghost e: Done)
    requires InUse(s) && s.InRange() && (op.Put? ==> op.faults.stuck == {})
    modifies s
    ensures InUse(s)
    ensures Follows(old(Now(s)), op, e, Now(s), s.maxBytes)
    ensures old(s.trail) <= s.trail
    ensures forall t :: |old(s.trail)| <= t < |s.trail| ==> Leaves(s.trail[t], old(Now(s)), e, s.maxBytes)
    ensures old(Unambiguous(s.disk)) ==> Unambiguous(s.disk)
    ensures s.enqueued <= old(s.enqueued) + 1 && s.sequence <= old(s.sequence) + 1
  {
    hide IndexOk, Mirrors, Holds, SafeTrail, Leaves, Unambiguous, Total, Name, Position, IsEntry, ParseName, Precedes;
    ghost var x, contents, start := s.View(), s.disk, s.trail;
    match op {
      case Put(payload, faults) =>
        var r;
        ghost var k, name;
        r, k, name := s.Enqueue(payload, faults);
        e := Enqueued(payload, k, Added(r));
        TrailLeaves(x, contents, start, s.trail, k, Added(r), payload, s.maxBytes);
      case Drop(name) =>
        var ok := s.Release(name, {});
        if name in x.order {
          e := Freed(Position(x.order, name));
          DropLeaves(x, contents, Position(x.order, name), s.maxBytes);
        } else {
          e := Untouched;
        }
    }
  }

  ghost predicate NoneStuck(ops: seq<Op>) { forall i :: 0 <= i < |ops| && ops[i].Put? ==> ops[i].faults.stuck == {} }

  /** Each operation follows from the moment before it, and every directory along it is what a stop in it
      leaves. */
  ghost predicate Recorded(trail: seq<Disk>, ops: seq<Op>, moments: seq<Moment>, done: seq<Done>, maxBytes: nat)
    requires |moments| == |ops| + 1 && |done| == |ops|
  {
    forall i :: 0 <= i < |ops| ==> Passed(trail, moments[i], ops[i], done[i], moments[i + 1], maxBytes)
  }

  ghost predicate Passed(trail: seq<Disk>, m: Moment, op: Op, e: Done, m': Moment, maxBytes: nat) {
    && Follows(m, op, e, m', maxBytes) && m.at <= m'.at <= |trail|
    && forall t :: m.at <= t < m'.at ==> Leaves(trail[t], m, e, maxBytes)
  }

  /** Any run of enqueues and releases on a spool in use, with no removal failing: at every point of it the
      directory, opened again, gives the surviving order, then at most the payload on its way. */
  method Run(s: Spool, ops: seq<Op>) returns (ghost moments: seq<Moment>, ghost done: seq<Done>)
    requires InUse(s) && NoneStuck(ops) && s.enqueued + |ops| < INT64 && s.sequence + |ops| < UINT64
    modifies s
    ensures InUse(s) && old(s.trail) <= s.trail
    ensures |moments| == |ops| + 1 && |done| == |ops| && moments[0] == old(Now(s)) && moments[|ops|] == Now(s)
    ensures Recorded(s.trail, ops, moments, done, s.maxBytes)
    ensures old(Unambiguous(s.disk)) ==> forall i :: 0 <= i < |moments| ==> Unambiguous(moments[i].disk)
  {
    hide InUse, Follows, Leaves, Unambiguous;
    moments, done := [Now(s)], [];
    for n := 0 to |ops|
      invariant InUse(s) && s.enqueued + |ops| - n < INT64 && s.sequence + |ops| - n < UINT64
      invariant |moments| == n + 1 && |done| == n && old(s.trail) <= s.trail
      invariant moments[0] == old(Now(s)) && moments[n] == Now(s)
      invariant Recorded(s.trail, ops[..n], moments, done, s.maxBytes)
      invariant old(Unambiguous(s.disk)) ==> forall i :: 0 <= i < |moments| ==> Unambiguous(moments[i].disk)
    {
      ghost var before := s.trail;
      ghost var e := Perform(s, ops[n]);
      assert ops[..n + 1] == ops[..n] + [ops[n]];
      RecordedOneMore(before, s.trail, ops[..n], moments, done, ops[n], e, Now(s), s.maxBytes);
      moments, done := moments + [Now(s)], done + [e];
    }
    assert ops[..|ops|] == ops;
  }

  lemma RecordedOneMore(
    trail: seq<Disk>, trail': seq<Disk>, ops: seq<Op>, moments: seq<Moment>, done: seq<Done>, op: Op, e: Done,
    m: Moment, maxBytes: nat)
    requires |moments| == |ops| + 1 && |done| == |ops| && Recorded(trail, ops, moments, done, maxBytes)
    requires trail <= trail' && moments[|ops|].at == |trail| && m.at == |trail'|
    requires Follows(moments[|ops|], op, e, m, maxBytes)
    requires forall t :: |trail| <= t < |trail'| ==> Leaves(trail'[t], moments[|ops|], e, maxBytes)
    ensures Recorded(trail', ops + [op], moments + [m], done + [e], maxBytes)
  {
    hide Follows, Leaves, Passed;
    var ops', ms, ds := ops + [op], moments + [m], done + [e];
    forall i | 0 <= i < |ops'| ensures Passed(trail', ms[i], ops'[i], ds[i], ms[i + 1], maxBytes) {
      if i < |ops| {
        PassedLater(trail, trail', moments[i], ops[i], done[i], moments[i + 1], maxBytes);
      } else {
        PassedNow(trail, trail', moments[i], op, e, m, maxBytes);
      }
    }
  }

  lemma PassedLater(trail: seq<Disk>, trail': seq<Disk>, m: Moment, op: Op, e: Done, m': Moment, maxBytes: nat)
    requires Passed(trail, m, op, e, m', maxBytes) && trail <= trail'
    ensures Passed(trail', m, op, e, m', maxBytes)
  {
    hide Follows, Leaves;
  }

  lemma PassedNow(trail: seq<Disk>, trail': seq<Disk>, m: Moment, op: Op, e: Done, m': Moment, maxBytes: nat)
    requires trail <= trail' && m.at == |trail| && m'.at == |trail'| && Follows(m, op, e, m', maxBytes)
    requires forall t :: |trail| <= t < |trail'| ==> Leaves(trail'[t], m, e, maxBytes)
    ensures Passed(trail', m, op, e, m', maxBytes)
  {
    hide Follows, Leaves;
  }

  /** The spool is opened on a directory a stop has left, with the same budget: nothing is trimmed, the order
      is what survived, and the spool is in use again. Without two entries of the same numbers the order is
      read back exactly. */
  method Restart(dir: string, d: Disk, ghost m: Moment, ghost e: Done, maxBytes: nat, stuck: set<string>)
    returns (s: Spool)
    requires dir != "" && maxBytes > 0 && Leaves(d, m, e, maxBytes)
    ensures fresh(s) && InUse(s) && s.maxBytes == maxBytes && s.dropped == 0
    ensures IsListing(s.order, d) && Recovers(d, s.order, m, e, maxBytes) && Holds(s.disk, s.order, d)
    ensures Unambiguous(m.disk) ==> Unambiguous(s.disk) && forall b :: IsListing(b, d) ==> b == s.order
  {
    hide IndexOk, Mirrors, Holds, IsListing, Unambiguous, Survived, LetGo;
    var r;
    ghost var listing, k;
    r, listing, k := Open(dir, d, maxBytes, stuck);
    FitsAgain(d, listing, m, e, maxBytes);
    s := r.spool;
    assert listing[0..] == listing;
    ListingUniqueIff(listing, d);
  }

  lemma FitsAgain(d: Disk, recovered: seq<string>, m: Moment, e: Done, maxBytes: nat)
    requires Recovers(d, recovered, m, e, maxBytes)
    ensures SizeOnDisk(recovered, d) <= maxBytes && |recovered| <= MaxEntries(maxBytes)
  {
    hide ReadsAs, IsRest, Whole, SizeOnDisk, MaxEntries;
  }

  /** From an empty directory: the same, and no two entries ever carry the same numbers. */
  method RunFromEmpty(dir: string, maxBytes: nat, ops: seq<Op>)
    returns (s: Spool, ghost moments: seq<Moment>, ghost done: seq<Done>)
    requires dir != "" && maxBytes > 0 && NoneStuck(ops) && |ops| < INT64
    ensures fresh(s) && InUse(s) && s.maxBytes == maxBytes && |moments| == |ops| + 1 && |done| == |ops|
    ensures moments[0] == Moment(Index([], map[], 0, 0, 0), map[], 0) && moments[|ops|] == Now(s)
    ensures Recorded(s.trail, ops, moments, done, maxBytes)
    ensures forall i :: 0 <= i < |moments| ==> Unambiguous(moments[i].disk)
  {
    hide Follows, Leaves, Unambiguous, IsListing, IndexOk, Mirrors, Holds;
    var r;
    ghost var listing, k;
    r, listing, k := Open(dir, map[], maxBytes, {});
    s := r.spool;
    EmptyDirectory();
    moments, done := Run(s, ops);
  }

  lemma EmptyDirectory()
    ensures Unambiguous(map[])
  {
  }
}
