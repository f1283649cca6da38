/** The disk spool (internal/spool/spool.go). The directory is a field; `trail` records it after every file
    operation, so that a statement about the trail is a statement about every point where the process may
    stop. Faults are arguments: `stuck` names files whose removal fails. */
module Spool {
  import opened DecimalText
  import opened Ordering
  import opened SpoolNames
  import opened SpoolIndex

  const MIN_BUDGET_PER_ENTRY := 1024
  const MIN_ENTRIES := 64

  datatype Result = Stored | EmptyPayload | TooLarge | TooMany | WriteFailed | RenameFailed | SyncFailed

  datatype Faults = Faults(stuck: set<string>, torn: Option<Payload>, renameOk: bool, syncOk: bool)

  /** The payload is in the spool, though its directory may not have been synced. */
  predicate Added(r: Result) { r.Stored? || r.SyncFailed? }

  function MaxEntries(maxBytes: nat): nat {
    if maxBytes / MIN_BUDGET_PER_ENTRY < MIN_ENTRIES then MIN_ENTRIES else maxBytes / MIN_BUDGET_PER_ENTRY
  }

  /** One entry for each KiB of the budget, and at least 64. */
  lemma EntryLimit(maxBytes: nat)
    ensures MaxEntries(maxBytes) >= 64
    ensures MaxEntries(maxBytes) == 64 || 1024 * MaxEntries(maxBytes) <= maxBytes
    ensures maxBytes < 1024 * (MaxEntries(maxBytes) + 1)
  {
  }

  function Position(order: seq<string>, name: string): (i: nat)
    requires name in order
    ensures i < |order| && order[i] == name && forall j :: 0 <= j < i ==> order[j] != name
  {
    if order[0] == name then 0 else 1 + Position(order[1..], name)
  }

  predicate Plain(name: string) { '/' !in name && name != "." && name != "" }

  /** The disks recorded since a given moment hold suffixes of the given order. */
  ghost predicate SuffixTrail(before: seq<Disk>, after: seq<Disk>, order: seq<string>, contents: Disk) {
    before <= after && forall i :: |before| <= i < |after| ==> HoldsSuffix(after[i], order, contents)
  }

  ghost predicate SafeTrail(
    before: seq<Disk>, after: seq<Disk>, order: seq<string>, contents: Disk, k: nat, added: bool, name: string,
    payload: Payload)
    requires k <= |order|
  {
    && before <= after
    && forall i :: |before| <= i < |after| ==> CrashSafe(after[i], order, contents, k, added, name, payload)
  }

  /** What evictions keep of a directory the index mirrors. */
  ghost predicate Kept(
    synced: bool, d: Disk, x: Index, order: seq<string>, contents: Disk, before: seq<Disk>, after: seq<Disk>)
  {
    synced ==> Mirrors(d, x) && Holds(d, x.order, contents) && SuffixTrail(before, after, order, contents)
  }

  ghost predicate SameSizes(order: seq<string>, sizes: map<string, nat>, sizes': map<string, nat>) {
    forall n :: n in order ==> SizeIn(sizes', n) == SizeIn(sizes, n)
  }

  /** What the file operations of an enqueue come to, the payload once it is in the spool. */
  function Written(faults: Faults): Result {
    if faults.torn.Some? then WriteFailed
    else if !faults.renameOk then RenameFailed
    else if faults.syncOk then Stored else SyncFailed
  }

  lemma NoChange(order: seq<string>, sizes: map<string, nat>)
    ensures SameSizes(order, sizes, sizes)
  {
  }

  lemma WrittenIs(faults: Faults)
    ensures !Written(faults).EmptyPayload? && !Written(faults).TooLarge? && !Written(faults).TooMany?
  {
  }

  lemma AdmittedSizes(order: seq<string>, sizes: map<string, nat>, left: map<string, nat>, name: string, size: nat)
    requires SameSizes(order, sizes, left) && name !in order
    ensures SameSizes(order, sizes, left[name := size]) && SizeIn(left[name := size], name) == size
  {
  }

  /** What an enqueue makes of it. */
  ghost predicate Stowed(
    synced: bool, d: Disk, x: Index, order: seq<string>, contents: Disk, before: seq<Disk>, after: seq<Disk>,
    k: nat, added: bool, name: string, payload: Payload)
    requires k <= |order|
  {
    synced ==>
      && Mirrors(d, x) && Holds(d, x.order, if added then contents[name := payload] else contents)
      && SafeTrail(before, after, order, contents, k, added, name, payload)
  }

  class Spool {
    const maxBytes: nat
    var disk: Disk
    var order: seq<string>
    var sizes: map<string, nat>
    var bytes: int
    var sequence: nat
    var enqueued: nat
    var dequeued: nat
    var dropped: nat
    var dropFailures: nat
    ghost var trail: seq<Disk>

    ghost function View(): Index reads this { Index(order, sizes, bytes, sequence, enqueued) }

    ghost predicate Valid() reads this { IndexOk(View()) }

    /** The index knows every entry in the directory. It does not if other hands add or change entries; it
        still does when they remove some. */
    ghost predicate Synced() reads this { Mirrors(disk, View()) }

    /** While no removal has failed the spool is within its budget. */
    ghost predicate Budgeted() reads this {
      dropFailures == 0 ==> bytes <= maxBytes && |order| <= MaxEntries(maxBytes)
    }

    /** The counters can still be printed and read back. */
    ghost predicate InRange() reads this { enqueued + 1 < INT64 && sequence + 1 < UINT64 }

    constructor (disk: Disk, maxBytes: nat)
      ensures this.disk == disk && this.maxBytes == maxBytes && trail == []
      ensures View() == Index([], map[], 0, 0, 0) && dequeued == 0 && dropped == 0 && dropFailures == 0
    {
      this.disk, this.maxBytes, trail := disk, maxBytes, [];
      order, sizes, bytes, sequence, enqueued := [], map[], 0, 0, 0;
      dequeued, dropped, dropFailures := 0, 0, 0;
    }

    /** `removeLocked`: unlinks the file, then forgets the entry. The bytes never need the clamp. */
    method Remove(name: string, stuck: set<string>) returns (ok: bool)
      requires Valid()
      modifies `disk, `order, `sizes, `bytes, `trail
      ensures Valid()
      ensures ok == (Plain(name) && !(name in stuck && name in old(disk)))
      ensures !ok ==> View() == old(View()) && disk == old(disk) && trail == old(trail)
      ensures ok ==> disk == old(disk) - {name} && trail == old(trail) + [disk]
      ensures ok && name !in old(order) ==> View() == old(View())
      ensures ok && name in old(order) ==>
                && name in old(sizes)
                && View() == old(View()).(order := Without(old(order), Position(old(order), name)),
                                          sizes := old(sizes) - {name},
                                          bytes := old(bytes) - old(sizes)[name])
    {
      hide IndexOk, Position;
      SizesAreOrder(View());
      if '/' in name || name == "." || name == "" { return false; }
      if name in stuck && name in disk { return false; }
      disk := disk - {name};
      trail := trail + [disk];
      if name !in sizes { return true; }
      RemoveOk(View(), Position(order, name));
      bytes := if bytes - sizes[name] < 0 then 0 else bytes - sizes[name];
      sizes := sizes - {name};
      var i := 0;
      while i < |order| && order[i] != name
        invariant 0 <= i <= Position(order, name)
      {
        i := i + 1;
      }
      order := order[..i] + order[i + 1..];
      return true;
    }

    /** Evicts from the front until a payload of the given size fits. */
    method EvictFor(size: nat, stuck: set<string>) returns (ghost k: nat)
      requires Valid()
      modifies `disk, `order, `sizes, `bytes, `dropped, `dropFailures, `trail
      ensures Valid()
      ensures k <= |old(order)| && order == old(order)[k..] && dropped == old(dropped) + k
      ensures bytes == Total(old(order)[k..], old(sizes))
      ensures k > 0 ==> Total(old(order)[k - 1..], old(sizes)) + size > maxBytes
      ensures dropFailures == old(dropFailures) && size <= maxBytes ==> bytes + size <= maxBytes
      ensures dropFailures == old(dropFailures) || dropFailures == old(dropFailures) + 1
      ensures dropFailures > old(dropFailures) ==> order != [] && order[0] in stuck
      ensures SameSizes(order, old(sizes), sizes)
      ensures Kept(old(Synced()), disk, View(), old(order), old(disk), old(trail), trail)
    {
      hide IsEntry, ParseName, Precedes, Total, IndexOk, Mirrors, Holds, Kept, Position, Without, Plain;
      k := 0;
      KeptStart(disk, View(), trail);
      BytesAreTotal(View());
      assert order[0..] == order;
      while bytes + size > maxBytes && |order| > 0
        invariant Valid()
        invariant k <= |old(order)| && order == old(order)[k..] && dropped == old(dropped) + k
        invariant bytes == Total(old(order)[k..], old(sizes))
        invariant k > 0 ==> Total(old(order)[k - 1..], old(sizes)) + size > maxBytes
        invariant dropFailures == old(dropFailures)
        invariant Kept(old(Synced()), disk, View(), old(order), old(disk), old(trail), trail)
        invariant SameSizes(order, old(sizes), sizes)
      {
        ghost var was, before, passed := View(), disk, trail;
        HeadPlain(was);
        var ok := Remove(order[0], stuck);
        if !ok {
          dropFailures := dropFailures + 1;
          return;
        }
        dropped := dropped + 1;
        SizesWithoutHead(was, View());
        KeptHead(old(Synced()), before, was, View(), old(order), k, old(disk), old(trail), passed);
        assert old(order)[k..][1..] == old(order)[k + 1..];
        TotalHead(old(order)[k..], old(sizes));
        k := k + 1;
      }
      TotalNone(old(sizes));
    }

    /** `nextName`: the first candidate is never taken, so the search ends at once. */
    method NextName() returns (name: string)
      requires Valid() && InRange()
      modifies `sequence
      ensures sequence == old(sequence) + 1 && name == Name(enqueued + 1, sequence)
      ensures Valid() && name !in sizes && IsEntry(name) && KeyOf(name) == Key(enqueued + 1, sequence)
      ensures forall n :: n in order ==> Precedes(n, name)
    {
      hide IndexOk, IsEntry, ParseName, Name;
      NameRoundTrip(enqueued + 1, sequence + 1);
      AppendOk(View(), Name(enqueued + 1, sequence + 1), 0, enqueued + 1);
      SizesAreOrder(View());
      MoreNumbers(View(), sequence + 1, enqueued);
      sequence := sequence + 1;
      name := Name(enqueued + 1, sequence);
    }

    method Touch(d: Disk)
      modifies `disk, `trail
      ensures disk == d && trail == old(trail) + [d]
    {
      disk := d;
      trail := trail + [d];
    }

    /** The writing half of `Enqueue`: a synced temporary file, then a rename. Answers whether the entry is
        published. Whatever fails, and wherever the process stops, no entry is lost or damaged. */
    method Publish(name: string, payload: Payload, faults: Faults) returns (ok: bool)
      requires Valid() && IsEntry(name) && name !in order
      modifies `disk, `trail
      ensures ok == (faults.torn.None? && faults.renameOk)
      ensures ok ==> name in disk && disk[name] == payload
      ensures old(Synced()) ==>
                name !in old(disk) && SafeTrail(old(trail), trail, order, old(disk), 0, ok, name, payload)
      ensures old(Synced()) ==>
                Holds(disk, if ok then order + [name] else order, if ok then old(disk)[name := payload] else old(disk))
    {
      hide IsEntry, ParseName, IndexOk, Mirrors, Holds, HasSuffix, SafeTrail;
      var temp := name + PARTIAL;
      ghost var names, contents, added := order, disk, faults.torn.None? && faults.renameOk;
      PartialIsNoEntry(name);
      if Synced() {
        SyncedHolds(disk, View());
        NotOnDisk(disk, View(), name);
      }
      NoneYet(trail, names, contents, 0, added, name, payload);
      AnyContent(disk, names, contents, temp, []);
      SafeHere(trail, disk[temp := []], old(trail), names, contents, added, name, payload);
      Touch(disk[temp := []]);
      var content := if faults.torn.Some? then faults.torn.value else payload;
      AnyContent(disk, names, contents, temp, content);
      SafeHere(trail, disk[temp := content], old(trail), names, contents, added, name, payload);
      Touch(disk[temp := content]);
      AnyContent(disk, names, contents, temp, content);
      if faults.torn.Some? || !faults.renameOk {
        if temp !in faults.stuck {
          SafeHere(trail, disk - {temp}, old(trail), names, contents, added, name, payload);
          Touch(disk - {temp});
        }
        return false;
      }
      if Holds(disk - {temp}, names, contents) && name !in contents {
        HoldsNew(disk - {temp}, names, contents, name, payload);
      }
      SafeNew(trail, (disk - {temp})[name := payload], old(trail), names, contents, name, payload);
      Touch((disk - {temp})[name := payload]);
      return true;
    }

    /** The second half of `Enqueue`, once there is room: names, publishes and indexes the payload. */
    method Admit(payload: Payload, faults: Faults) returns (r: Result, ghost name: string)
      requires Valid() && InRange()
      modifies `disk, `order, `sizes, `bytes, `sequence, `enqueued, `trail
      ensures Valid()
      ensures name == Name(old(enqueued) + 1, old(sequence) + 1) && name !in old(order)
      ensures r == Written(faults)
      ensures order == old(order) + if Added(r) then [name] else []
      ensures bytes == old(bytes) + if Added(r) then |payload| else 0
      ensures sizes == if Added(r) then old(sizes)[name := |payload|] else old(sizes)
      ensures enqueued == old(enqueued) + (if Added(r) then 1 else 0) && sequence == old(sequence) + 1
      ensures Added(r) ==> name in disk && disk[name] == payload
      ensures Stowed(old(Synced()), disk, View(), old(order), old(disk), old(trail), trail, 0, Added(r), name, payload)
    {
      hide IsEntry, ParseName, IndexOk, Mirrors, Holds, SafeTrail, Name, Precedes;
      ghost var before, held := View(), disk;
      var chosen := NextName();
      name := chosen;
      SizesAreOrder(before);
      SizesAreOrder(View());
      SameMirrors(disk, before, View());
      var ok := Publish(chosen, payload, faults);
      assert order + [] == order;
      if !ok {
        if old(Synced()) { StillSynced(held, disk, before, View()); }
        return (if faults.torn.Some? then WriteFailed else RenameFailed), chosen;
      }
      Indexed(before, chosen, |payload|);
      if old(Synced()) { PublishedSync(held, disk, before, chosen, payload); }
      order := order + [chosen];
      sizes := sizes[chosen := |payload|];
      bytes := bytes + |payload|;
      enqueued := enqueued + 1;
      return (if faults.syncOk then Stored else SyncFailed), chosen;
    }

    /** `Enqueue`. `k` is the number of entries evicted and `name` the name the payload is given. */
    method Enqueue(payload: Payload, faults: Faults) returns (r: Result, ghost k: nat, ghost name: string)
      requires Valid() && Budgeted() && InRange()
      modifies `disk, `order, `sizes, `bytes, `sequence, `enqueued, `dropped, `dropFailures, `trail
      ensures Valid() && Budgeted()
      ensures r.EmptyPayload? <==> payload == []
      ensures r.TooLarge? <==> payload != [] && |payload| > maxBytes
      ensures name == Name(old(enqueued) + 1, old(sequence) + 1)
      // What is kept: the longest suffix that leaves room, then the new entry.
      ensures k <= |old(order)| && order == old(order)[k..] + if Added(r) then [name] else []
      ensures k > 0 ==> Total(old(order)[k - 1..], old(sizes)) + |payload| > maxBytes
      ensures payload != [] && !r.TooLarge? && dropFailures == old(dropFailures) ==>
                Total(old(order)[k..], old(sizes)) + |payload| <= maxBytes
      ensures Added(r) ==> name in disk && disk[name] == payload && SizeIn(sizes, name) == |payload|
      ensures SameSizes(old(order)[k..], old(sizes), sizes)
      // What it answers.
      ensures 0 < |payload| <= maxBytes ==>
                if |old(order)| - k < MaxEntries(maxBytes) then r == Written(faults) else r.TooMany?
      // Every loss is counted; an entry is refused, never evicted, for the number of entries.
      ensures dropped == old(dropped) + k + if r.TooLarge? || r.TooMany? then 1 else 0
      ensures old(dropFailures) <= dropFailures <= old(dropFailures) + 1
      ensures dropFailures > old(dropFailures) ==> exists n :: n in old(order) && n in faults.stuck
      ensures r.EmptyPayload? || r.TooLarge? || (r.TooMany? && dropFailures == 0) ==> k == 0
      // Payloads stay whole; wherever the process stops, a suffix of the order is on disk, then at most the
      // new payload; and no two entries come to carry the same numbers.
      ensures Stowed(old(Synced()), disk, View(), old(order), old(disk), old(trail), trail, k, Added(r), name, payload)
      ensures old(Synced()) && old(Unambiguous(disk)) ==> Unambiguous(disk)
      // Numbers only grow.
      ensures enqueued == old(enqueued) + if Added(r) then 1 else 0
      ensures sequence == old(sequence) + if r.EmptyPayload? || r.TooLarge? || r.TooMany? then 0 else 1
    {
      hide IsEntry, ParseName, IndexOk, Mirrors, Holds, SafeTrail, SuffixTrail, Total, Name, Precedes, Kept, Stowed;
      hide Unambiguous;
      hide SameSizes, MaxEntries, Written;
      NoChange(order[0..], sizes);
      WrittenIs(faults);
      k, name := 0, Name(enqueued + 1, sequence + 1);
      ghost var before, contents, start := View(), disk, trail;
      NothingStowed(disk, before, trail, name, payload);
      assert order[0..] + [] == order;
      if |payload| == 0 { return EmptyPayload, k, name; }
      if |payload| > maxBytes {
        dropped := dropped + 1;
        return TooLarge, k, name;
      }
      k := EvictFor(|payload|, faults.stuck);
      ghost var held, middle, kept := disk, trail, View();
      KeptIsStowed(old(Synced()), held, kept, before.order, contents, start, middle, k, name, payload);
      assert order + [] == order;
      if |order| >= MaxEntries(maxBytes) {
        dropped := dropped + 1;
        StowedUnambiguous(before, contents, disk, View(), start, trail, k, false, name, payload);
        return TooMany, k, name;
      }
      ghost var left := sizes;
      r, name := Admit(payload, faults);
      AdmittedSizes(old(order)[k..], old(sizes), left, name, |payload|);
      StowedAfter(old(Synced()), before, contents, held, kept, disk, View(), start, middle, trail, k, Added(r), name,
                  payload);
      StowedUnambiguous(before, contents, disk, View(), start, trail, k, Added(r), name, payload);
    }

    /** `Peek`. A missing file is forgotten. */
    method Peek(readOk: bool, stuck: set<string>) returns (found: Option<(Payload, string)>)
      requires Valid() && Budgeted()
      modifies `disk, `order, `sizes, `bytes, `trail
      ensures Valid() && Budgeted()
      ensures old(order) == [] || old(order)[0] in old(disk) ==>
                View() == old(View()) && disk == old(disk) && trail == old(trail)
      ensures old(order) != [] && old(order)[0] !in old(disk) ==>
                found.None? && order == old(order)[1..] && disk == old(disk)
      ensures found.Some? ==>
                order != [] && found.value.1 == order[0] && order[0] in disk && found.value.0 == disk[order[0]]
      ensures found.Some? <==> readOk && old(order) != [] && old(order)[0] in old(disk)
      ensures old(Synced()) ==> Synced()
    {
      hide IndexOk, Mirrors, IsEntry, ParseName;
      if |order| == 0 { return None; }
      var name := order[0];
      HeadPlain(View());
      if name !in disk {
        var ok := Remove(name, stuck);
        if old(Synced()) { ForgetMissing(old(disk), old(View()), View()); }
        return None;
      }
      if !readOk { return None; }
      return Some((disk[name], name));
    }

    /** `Release`: a name no longer in the index is left alone, so a late release removes nothing else. */
    method Release(name: string, stuck: set<string>) returns (ok: bool)
      requires Valid() && Budgeted()
      modifies `disk, `order, `sizes, `bytes, `dequeued, `trail
      ensures Valid() && Budgeted()
      ensures name !in old(order) ==> ok
      ensures name in old(order) ==> ok == !(name in stuck && name in old(disk))
      ensures !ok || name !in old(order) ==>
                View() == old(View()) && disk == old(disk) && dequeued == old(dequeued) && trail == old(trail)
      ensures ok && name in old(order) ==>
                && order == Without(old(order), Position(old(order), name)) && sizes == old(sizes) - {name}
                && disk == old(disk) - {name} && dequeued == old(dequeued) + 1 && trail == old(trail) + [disk]
                && (old(Synced()) ==> Holds(disk, order, old(disk)))
      ensures enqueued == old(enqueued) && sequence == old(sequence)
      ensures old(Synced()) ==> Synced()
      ensures old(Unambiguous(disk)) ==> Unambiguous(disk)
    {
      hide IndexOk, Mirrors, IsEntry, ParseName, Holds, Position, Unambiguous;
      SizesAreOrder(View());
      if name !in sizes { return true; }
      ghost var before := View();
      EntryFacts(before, name);
      ok := Remove(name, stuck);
      if !ok { return false; }
      EntrySmaller(before, View(), name);
      if old(Synced()) { EntryGone(before, View(), old(disk), disk, name); }
      FewerUnambiguous(old(disk), name);
      dequeued := dequeued + 1;
    }

    /** A file goes missing by other hands. */
    method Vanish(name: string)
      requires Valid() && Budgeted()
      modifies `disk, `trail
      ensures Valid() && Budgeted() && View() == old(View()) && disk == old(disk) - {name}
      ensures old(Synced()) ==> Synced()
      ensures old(Unambiguous(disk)) ==> Unambiguous(disk)
    {
      hide IndexOk, IsEntry, ParseName, Unambiguous;
      FewerUnambiguous(disk, name);
      Touch(disk - {name});
    }

    /** `recover`: reads the directory back in the order of the names, and clears partly written files. */
    method Recover(stuck: set<string>)
      requires View() == Index([], map[], 0, 0, 0)
      modifies `disk, `order, `sizes, `bytes, `sequence, `enqueued, `trail
      ensures Valid() && Synced()
      ensures IsListing(order, old(disk)) && Holds(disk, order, old(disk))
      ensures old(disk) == map[] ==> View() == old(View()) && trail == old(trail) && disk == map[]
      // Partly written files go, unless they are stuck; every other file stays. The counters are the highest numbers.
      ensures Swept(disk, old(disk), old(disk).Keys, stuck)
      ensures Highest(order, enqueued, sequence)
    {
      hide IsEntry, ParseName, HasSuffix, Gathered, Holds, IndexOk, Mirrors, Read, Swept, NamesOf, Highest;
      var names := Range(disk.Keys);
      FirstIn(names);
      var found: seq<Found> := [];
      GatherNone(disk);
      for i := 0 to |names|
        invariant Gathered(Index(NamesOf(found), sizes, bytes, sequence, enqueued))
        invariant Read(found, names[..i], sizes, old(disk)) && Highest(NamesOf(found), enqueued, sequence)
        invariant Swept(disk, old(disk), Elements(names[..i]), stuck)
        invariant i == 0 ==> found == [] && View() == old(View()) && trail == old(trail) && disk == old(disk)
      {
        assert names[..i + 1] == names[..i] + [names[i]];
        assert names[i] !in names[..i];
        found := RecoverOne(names[i], stuck, found, names[..i], old(disk));
      }
      assert names[..|names|] == names;
      FoundOrder();
      var sorted := SortBy(FoundLess, found);
      ReadAll(found, names, sizes, old(disk), Index(NamesOf(found), sizes, bytes, sequence, enqueued), sorted);
      if |names| == 0 { NothingSorted(found, sorted); }
      order := NamesOf(sorted);
      SameHighest(NamesOf(found), order, enqueued, sequence);
      assert Elements(names) == old(disk).Keys;
      RecoveredSynced(disk, old(disk), stuck, View());
    }

    /** One directory entry. */
    method RecoverOne(name: string, stuck: set<string>, found: seq<Found>, ghost names: seq<string>, ghost was: Disk)
      returns (more: seq<Found>)
      requires name in was && name !in names
      requires Gathered(Index(NamesOf(found), sizes, bytes, sequence, enqueued))
      requires Read(found, names, sizes, was) && Swept(disk, was, Elements(names), stuck)
      requires Highest(NamesOf(found), enqueued, sequence)
      modifies `disk, `sizes, `bytes, `sequence, `enqueued, `trail
      ensures Gathered(Index(NamesOf(more), sizes, bytes, sequence, enqueued))
      ensures Read(more, names + [name], sizes, was) && Swept(disk, was, Elements(names + [name]), stuck)
      ensures Highest(NamesOf(more), enqueued, sequence)
    {
      hide IsEntry, ParseName, HasSuffix, Gathered, Read, Swept, NamesOf, Highest;
      assert Elements(names + [name]) == Elements(names) + {name};
      SweepOne(disk, was, Elements(names), name, stuck);
      PartialIsNoEntry(name);
      more := found;
      if HasSuffix(name, PARTIAL) {
        ReadOther(found, names, name, sizes, was);
        if name !in stuck { Touch(disk - {name}); }
        return;
      }
      if !HasSuffix(name, EXTENSION) || ParseName(name).None? {
        NotEntry(name);
        ReadOther(found, names, name, sizes, was);
        return;
      }
      var key := ParseName(name).value;
      EntryRead(disk, was, Elements(names), stuck, name);
      AnEntry(name);
      ReadEntry(found, names, name, sizes, was);
      GatherOne(Index(NamesOf(found), sizes, bytes, sequence, enqueued), name, |disk[name]|);
      sizes := sizes[name := |disk[name]|];
      bytes := bytes + |disk[name]|;
      Higher(NamesOf(found), enqueued, sequence, name);
      if key.ordinal > enqueued { enqueued := key.ordinal; }
      if key.sequence > sequence { sequence := key.sequence; }
      more := found + [Found(name, key)];
    }

    /** `trimToBudget`. */
    method TrimToBudget(stuck: set<string>) returns (ghost k: nat)
      requires Valid() && dropFailures == 0
      modifies `disk, `order, `sizes, `bytes, `dropped, `dropFailures, `trail
      ensures Valid() && Budgeted()
      ensures k <= |old(order)| && order == old(order)[k..] && dropped == old(dropped) + k
      ensures old(bytes) <= maxBytes && |old(order)| <= MaxEntries(maxBytes) ==>
                k == 0 && dropFailures == 0 && disk == old(disk) && trail == old(trail) && View() == old(View())
      ensures k > 0 ==>
                Total(old(order)[k - 1..], old(sizes)) > maxBytes || |old(order)| - (k - 1) > MaxEntries(maxBytes)
      ensures dropFailures > 0 ==> order != [] && order[0] in stuck
      ensures Kept(old(Synced()), disk, View(), old(order), old(disk), old(trail), trail)
    {
      hide IsEntry, ParseName, Precedes, IndexOk, Mirrors, Holds, Total, Kept, Position, Without, Plain, MaxEntries;
      k := 0;
      KeptStart(disk, View(), trail);
      BytesAreTotal(View());
      assert order[0..] == order;
      while (bytes > maxBytes || |order| > MaxEntries(maxBytes)) && |order| > 0
        invariant Valid() && dropFailures == 0
        invariant k <= |old(order)| && order == old(order)[k..] && dropped == old(dropped) + k
        invariant k == 0 ==> View() == old(View()) && disk == old(disk) && trail == old(trail)
        invariant old(bytes) <= maxBytes && |old(order)| <= MaxEntries(maxBytes) ==> k == 0
        invariant bytes == Total(old(order)[k..], old(sizes)) && SameSizes(order, old(sizes), sizes)
        invariant k > 0 ==>
                    Total(old(order)[k - 1..], old(sizes)) > maxBytes || |old(order)| - (k - 1) > MaxEntries(maxBytes)
        invariant Kept(old(Synced()), disk, View(), old(order), old(disk), old(trail), trail)
      {
        ghost var was, before, passed := View(), disk, trail;
        HeadPlain(was);
        var ok := Remove(order[0], stuck);
        if !ok {
          dropFailures := dropFailures + 1;
          return;
        }
        dropped := dropped + 1;
        SizesWithoutHead(was, View());
        KeptHead(old(Synced()), before, was, View(), old(order), k, old(disk), old(trail), passed);
        assert old(order)[k..][1..] == old(order)[k + 1..];
        TotalHead(old(order)[k..], old(sizes));
        k := k + 1;
      }
      EmptyIsFree(View());
    }
  }

  datatype Opened = NoDirectory | InvalidBudget | Ready(spool: Spool)

  /** `Open`: the directory read back in order, trimmed from the front to the budget. `listing` is what was
      read; within the budget nothing is trimmed. */
  method Open(dir: string, disk: Disk, maxBytes: int, stuck: set<string>)
    returns (r: Opened, ghost listing: seq<string>, ghost k: nat)
    ensures r.NoDirectory? <==> dir == ""
    ensures r.InvalidBudget? <==> dir != "" && maxBytes <= 0
    ensures r.Ready? ==>
              && fresh(r.spool) && r.spool.maxBytes == maxBytes
              && r.spool.Valid() && r.spool.Synced() && r.spool.Budgeted()
              && IsListing(listing, disk) && k <= |listing| && r.spool.order == listing[k..] && r.spool.dropped == k
              && Holds(r.spool.disk, r.spool.order, disk) && Highest(listing, r.spool.enqueued, r.spool.sequence)
              && (SizeOnDisk(listing, disk) <= maxBytes && |listing| <= MaxEntries(maxBytes) ==>
                    k == 0 && r.spool.dropFailures == 0)
              && (k > 0 ==>
                    SizeOnDisk(listing[k - 1..], disk) > maxBytes || |listing| - (k - 1) > MaxEntries(maxBytes))
              && (r.spool.dropFailures > 0 ==> r.spool.order != [] && r.spool.order[0] in stuck)
              && (Unambiguous(disk) ==> Unambiguous(r.spool.disk))
              && (disk == map[] ==>
                    && r.spool.View() == Index([], map[], 0, 0, 0) && r.spool.trail == [] && r.spool.disk == map[]
                    && r.spool.dropFailures == 0)
  {
    hide IsEntry, ParseName, IndexOk, Mirrors, Holds, IsListing, Unambiguous, Highest, Swept, Total, SizeOnDisk;
    listing, k := [], 0;
    if dir == "" { return NoDirectory, listing, k; }
    if maxBytes <= 0 { return InvalidBudget, listing, k; }
    var s := new Spool(disk, maxBytes);
    s.Recover(stuck);
    listing := s.order;
    BytesOnDisk(s.View(), s.disk, disk);
    if disk == map[] { assert s.bytes == 0; }
    ghost var read, entries := s.disk, s.order;
    k := s.TrimToBudget(stuck);
    HoldsPart(s.disk, entries, k, read, disk);
    if Unambiguous(disk) { SubUnambiguous(s.disk, entries[k..], disk); }
    return Ready(s), listing, k;
  }

  // ---- Facts the methods rest on ----

  lemma SizesAreOrder(x: Index)
    requires IndexOk(x)
    ensures forall n :: n in x.sizes <==> n in x.order
  {
  }

  lemma SyncedHolds(d: Disk, x: Index)
    requires Mirrors(d, x)
    ensures Holds(d, x.order, d)
  {
  }

  lemma EntriesOnly(x: Index, n: string)
    requires IndexOk(x) && n in x.order
    ensures IsEntry(n)
  {
    hide ParseName, HasSuffix;
  }

  lemma AllEntries(x: Index)
    requires IndexOk(x)
    ensures forall n :: n in x.order ==> IsEntry(n)
  {
    hide IsEntry;
    forall n | n in x.order ensures IsEntry(n) { EntriesOnly(x, n); }
  }

  lemma HeadPlain(x: Index)
    requires IndexOk(x) && x.order != []
    ensures Plain(x.order[0]) && Position(x.order, x.order[0]) == 0 && Without(x.order, 0) == x.order[1..]
    ensures x.order[0] in x.sizes
  {
    assert x.order[0] in x.order;
    EntriesOnly(x, x.order[0]);
    hide IsEntry, ParseName, Sorted, Distinct, Total;
    EntryIsPlain(x.order[0]);
  }

  lemma BytesAreTotal(x: Index)
    requires IndexOk(x)
    ensures x.bytes == Total(x.order, x.sizes)
  {
  }

  lemma TotalNone(sizes: map<string, nat>)
    ensures Total([], sizes) == 0
  {
  }

  lemma TotalHead(order: seq<string>, sizes: map<string, nat>)
    requires order != []
    ensures Total(order, sizes) == SizeIn(sizes, order[0]) + Total(order[1..], sizes)
  {
  }

  lemma SizesWithoutHead(x: Index, x': Index)
    requires IndexOk(x) && x.order != [] && x'.order == Without(x.order, 0) && x'.sizes == x.sizes - {x.order[0]}
    ensures forall n :: n in x'.order ==> SizeIn(x'.sizes, n) == SizeIn(x.sizes, n)
  {
    hide Sorted, Total, Numbered;
    WithoutMembers(x.order, 0);
  }

  // ---- Evictions ----

  lemma KeptStart(d: Disk, x: Index, trail: seq<Disk>)
    ensures Kept(Mirrors(d, x), d, x, x.order, d, trail, trail)
  {
    hide IsEntry;
  }

  /** The head of the index is removed from index and directory. */
  lemma KeptHead(
    synced: bool, d: Disk, x: Index, x': Index, order: seq<string>, k: nat, contents: Disk, start: seq<Disk>,
    trail: seq<Disk>)
    requires IndexOk(x) && Kept(synced, d, x, order, contents, start, trail) && k < |order| && x.order == order[k..]
    requires x'.order == Without(x.order, 0) && x'.sizes == x.sizes - {x.order[0]}
    ensures Kept(synced, d - {x.order[0]}, x', order, contents, start, trail + [d - {x.order[0]}])
  {
    if synced {
      hide IsEntry, ParseName, IndexOk, Mirrors, Holds, Distinct;
      var d' := d - {x.order[0]};
      IndexDistinct(x);
      HoldsWithout(d, x.order, contents, 0);
      MirrorsWithout(d, x, x', 0);
      assert Without(x.order, 0) == order[k + 1..];
      assert HoldsSuffix(d', order, contents);
      OneMoreSuffix(start, trail, d', order, contents);
    }
  }

  lemma IndexDistinct(x: Index)
    requires IndexOk(x)
    ensures Distinct(x.order)
  {
  }

  lemma OneMoreSuffix(start: seq<Disk>, trail: seq<Disk>, d: Disk, order: seq<string>, contents: Disk)
    requires SuffixTrail(start, trail, order, contents) && HoldsSuffix(d, order, contents)
    ensures SuffixTrail(start, trail + [d], order, contents)
  {
    hide HoldsSuffix;
  }

  lemma MirrorsWithout(d: Disk, x: Index, x': Index, i: nat)
    requires Mirrors(d, x) && Distinct(x.order) && i < |x.order|
    requires x'.order == Without(x.order, i) && x'.sizes == x.sizes - {x.order[i]}
    ensures Mirrors(d - {x.order[i]}, x')
  {
    hide IsEntry, Holds, Distinct;
    WithoutMembers(x.order, i);
    HoldsWithout(d, x.order, d, i);
    HoldsItself(d - {x.order[i]}, x'.order, d);
    hide Without;
  }

  lemma HoldsItself(d: Disk, names: seq<string>, contents: Disk)
    requires Holds(d, names, contents)
    ensures Holds(d, names, d)
  {
    hide IsEntry;
  }

  // ---- Publishing ----

  lemma NotOnDisk(d: Disk, x: Index, name: string)
    requires Mirrors(d, x) && IsEntry(name) && name !in x.order
    ensures name !in d
  {
    hide IsEntry;
  }

  /** A temporary file does not disturb what the directory holds. */
  lemma AnyContent(d: Disk, names: seq<string>, contents: Disk, temp: string, content: Payload)
    requires !IsEntry(temp)
    ensures Holds(d, names, contents) ==>
              Holds(d - {temp}, names, contents) && Holds(d[temp := content], names, contents)
  {
    hide IsEntry, Holds;
    if Holds(d, names, contents) { HoldsOther(d, names, contents, temp, content); }
  }

  lemma NoneYet(
    trail: seq<Disk>, order: seq<string>, contents: Disk, k: nat, added: bool, name: string, payload: Payload)
    requires k <= |order|
    ensures SafeTrail(trail, trail, order, contents, k, added, name, payload)
  {
  }

  /** One more disk on the trail, holding what the directory held. */
  lemma SafeHere(
    trail: seq<Disk>, d: Disk, start: seq<Disk>, order: seq<string>, contents: Disk, added: bool, name: string,
    payload: Payload)
    requires start <= trail
    ensures SafeTrail(start, trail, order, contents, 0, added, name, payload) && Holds(d, order, contents) ==>
              SafeTrail(start, trail + [d], order, contents, 0, added, name, payload)
  {
    hide Holds;
    assert order[0..] == order;
  }

  /** ... or that and the new payload. */
  lemma SafeNew(
    trail: seq<Disk>, d: Disk, start: seq<Disk>, order: seq<string>, contents: Disk, name: string, payload: Payload)
    requires start <= trail
    ensures (&& SafeTrail(start, trail, order, contents, 0, true, name, payload)
             && Holds(d, order + [name], contents[name := payload])) ==>
              SafeTrail(start, trail + [d], order, contents, 0, true, name, payload)
  {
    hide Holds;
    assert order[0..] == order;
  }

  lemma SameMirrors(d: Disk, x: Index, y: Index)
    requires y.order == x.order && y.sizes == x.sizes
    ensures Mirrors(d, x) == Mirrors(d, y)
  {
    hide Holds;
  }

  lemma StillSynced(d: Disk, d': Disk, x: Index, y: Index)
    requires Mirrors(d, x) && IndexOk(x) && Holds(d', x.order, d) && y.order == x.order && y.sizes == x.sizes
    ensures Mirrors(d', y)
  {
    hide IsEntry, Sorted, Distinct, Total;
    AllEntries(x);
    HoldsItself(d', x.order, d);
  }

  /** The index with the published entry. */
  lemma Indexed(x: Index, name: string, size: nat)
    requires IndexOk(x) && IsEntry(name) && KeyOf(name) == Key(x.enqueued + 1, x.sequence + 1)
    ensures IndexOk(Index(x.order + [name], x.sizes[name := size], x.bytes + size, x.sequence + 1, x.enqueued + 1))
  {
    hide IsEntry, ParseName, IndexOk;
    AppendOk(x, name, size, x.enqueued + 1);
  }

  lemma PublishedSync(held: Disk, d: Disk, x: Index, name: string, payload: Payload)
    requires IndexOk(x) && Mirrors(held, x) && name in d && d[name] == payload && name !in x.order
    requires Holds(d, x.order + [name], held[name := payload])
    ensures Mirrors(d, Index(x.order + [name], x.sizes[name := |payload|], x.bytes + |payload|, x.sequence + 1,
                             x.enqueued + 1))
  {
    hide IsEntry, Sorted, Distinct, Total;
    AllEntries(x);
    HoldsItself(d, x.order + [name], held[name := payload]);
  }

  // ---- Enqueuing ----

  lemma FreshName(x: Index)
    requires IndexOk(x) && x.enqueued + 1 < INT64 && x.sequence + 1 < UINT64
    ensures var name := Name(x.enqueued + 1, x.sequence + 1);
            IsEntry(name) && name !in x.order && KeyOf(name) == Key(x.enqueued + 1, x.sequence + 1)
            && forall n :: n in x.order ==> Precedes(n, name)
  {
    hide IsEntry, ParseName, IndexOk, Name;
    NameRoundTrip(x.enqueued + 1, x.sequence + 1);
    AppendOk(x, Name(x.enqueued + 1, x.sequence + 1), 0, x.enqueued + 1);
  }

  lemma NothingStowed(d: Disk, x: Index, trail: seq<Disk>, name: string, payload: Payload)
    ensures Stowed(Mirrors(d, x), d, x, x.order, d, trail, trail, 0, false, name, payload)
  {
    hide Holds;
  }

  lemma KeptIsStowed(
    synced: bool, d: Disk, x: Index, order: seq<string>, contents: Disk, start: seq<Disk>, trail: seq<Disk>, k: nat,
    name: string,
    payload: Payload)
    requires Kept(synced, d, x, order, contents, start, trail) && k <= |order|
    ensures Stowed(synced, d, x, order, contents, start, trail, k, false, name, payload)
  {
    hide Holds, Mirrors, HoldsSuffix;
  }

  /** What is safe for the suffix left by the evictions is safe for the whole order. */
  lemma LiftSafe(
    d: Disk, order: seq<string>, contents: Disk, k: nat, added: bool, held: Disk, name: string, payload: Payload)
    requires k <= |order| && Holds(held, order[k..], contents)
    requires CrashSafe(d, order[k..], held, 0, added, name, payload)
    requires name !in contents && name !in order
    ensures CrashSafe(d, order, contents, k, added, name, payload)
  {
    hide IsEntry;
    var rest := order[k..];
    if HoldsSuffix(d, rest, held) {
      var j :| 0 <= j <= |rest| && Holds(d, rest[j..], held);
      assert rest[j..] == order[k + j..];
      HoldsThrough(d, order[k + j..], rest, held, contents);
    } else {
      assert rest[0..] == rest;
      HoldsThroughNew(d, rest, held, contents, name, payload);
    }
  }

  lemma HoldsThrough(d: Disk, names: seq<string>, rest: seq<string>, held: Disk, contents: Disk)
    requires Holds(d, names, held) && Holds(held, rest, contents) && forall n :: n in names ==> n in rest
    ensures Holds(d, names, contents)
  {
    hide IsEntry;
  }

  lemma HoldsThroughNew(d: Disk, rest: seq<string>, held: Disk, contents: Disk, name: string, payload: Payload)
    requires Holds(d, rest + [name], held[name := payload]) && Holds(held, rest, contents) && name !in rest
    ensures Holds(d, rest + [name], contents[name := payload])
  {
    hide IsEntry;
  }

  lemma LiftTrail(
    start: seq<Disk>, middle: seq<Disk>, trail: seq<Disk>, order: seq<string>, contents: Disk, k: nat, added: bool,
    held: Disk,
    name: string, payload: Payload)
    requires k <= |order| && Holds(held, order[k..], contents) && name !in contents && name !in order
    requires SuffixTrail(start, middle, order, contents)
    requires SafeTrail(middle, trail, order[k..], held, 0, added, name, payload)
    ensures SafeTrail(start, trail, order, contents, k, added, name, payload)
  {
    hide IsEntry, Holds, HoldsSuffix;
    forall i | |start| <= i < |trail| ensures CrashSafe(trail[i], order, contents, k, added, name, payload) {
      if i < |middle| {
        assert trail[i] == middle[i];
      } else {
        LiftSafe(trail[i], order, contents, k, added, held, name, payload);
      }
    }
  }

  /** Evicting and then admitting, seen from the start. */
  lemma StowedAfter(
    synced: bool, x: Index, contents: Disk, held: Disk, kept: Index, d: Disk, y: Index, start: seq<Disk>,
    middle: seq<Disk>,
    trail: seq<Disk>, k: nat, added: bool, name: string, payload: Payload)
    requires IndexOk(x) && k <= |x.order| && kept.order == x.order[k..] && synced == Mirrors(contents, x)
    requires x.enqueued + 1 < INT64 && x.sequence + 1 < UINT64 && name == Name(x.enqueued + 1, x.sequence + 1)
    requires Kept(synced, held, kept, x.order, contents, start, middle)
    requires Stowed(Mirrors(held, kept), d, y, kept.order, held, middle, trail, 0, added, name, payload)
    requires y.order == kept.order + if added then [name] else []
    ensures Stowed(synced, d, y, x.order, contents, start, trail, k, added, name, payload)
  {
    if synced {
      hide IsEntry, ParseName, IndexOk, Holds, SafeTrail, SuffixTrail, Name, Precedes;
      FreshName(x);
      NotOnDisk(contents, x, name);
      LiftTrail(start, middle, trail, x.order, contents, k, added, held, name, payload);
      assert kept.order + [] == kept.order;
      assert forall n :: n in kept.order ==> n in x.order;
      if added {
        HoldsThroughNew(d, kept.order, held, contents, name, payload);
      } else {
        HoldsThrough(d, kept.order, kept.order, held, contents);
      }
    }
  }

  lemma StowedUnambiguous(
    x: Index, contents: Disk, d: Disk, y: Index, start: seq<Disk>, trail: seq<Disk>, k: nat, added: bool, name: string,
    payload: Payload)
    requires IndexOk(x) && k <= |x.order| && x.enqueued + 1 < INT64 && x.sequence + 1 < UINT64
    requires name == Name(x.enqueued + 1, x.sequence + 1) && y.order == x.order[k..] + if added then [name] else []
    requires Stowed(Mirrors(contents, x), d, y, x.order, contents, start, trail, k, added, name, payload)
    ensures Mirrors(contents, x) && Unambiguous(contents) ==> Unambiguous(d)
  {
    if Mirrors(contents, x) && Unambiguous(contents) {
      hide IsEntry, ParseName, IndexOk, Mirrors, Holds, SafeTrail, Name, Precedes, Unambiguous;
      FreshName(x);
      if added {
        GrownUnambiguous(d, x.order[k..], contents, name, payload);
      } else {
        SubUnambiguous(d, y.order, contents);
      }
    }
  }

  // ---- Releasing ----

  lemma EntryFacts(x: Index, name: string)
    requires IndexOk(x) && name in x.order
    ensures Plain(name)
  {
    EntriesOnly(x, name);
    hide IsEntry, ParseName, Sorted, Distinct, Total;
    EntryIsPlain(name);
  }

  lemma EntrySmaller(x: Index, x': Index, name: string)
    requires name in x.order && name in x.sizes
    requires x' == x.(order := Without(x.order, Position(x.order, name)), sizes := x.sizes - {name},
                      bytes := x.bytes - x.sizes[name])
    ensures x'.bytes <= x.bytes && |x'.order| <= |x.order|
  {
  }

  /** Removing an entry keeps index and directory together, and every other entry as it was. */
  lemma EntryGone(x: Index, x': Index, d: Disk, d': Disk, name: string)
    requires IndexOk(x) && Mirrors(d, x) && name in x.order && name in x.sizes
    requires d' == d - {name}
    requires x' == x.(order := Without(x.order, Position(x.order, name)), sizes := x.sizes - {name},
                      bytes := x.bytes - x.sizes[name])
    ensures Mirrors(d', x') && Holds(d', x'.order, d)
  {
    hide IsEntry, ParseName, IndexOk, Mirrors, Distinct, Holds;
    var i := Position(x.order, name);
    IndexDistinct(x);
    SyncedHolds(d, x);
    HoldsWithout(d, x.order, d, i);
    MirrorsWithout(d, x, x', i);
  }

  lemma FewerUnambiguous(d: Disk, name: string)
    ensures Unambiguous(d) ==> Unambiguous(d - {name})
  {
    hide IsEntry, ParseName;
  }

  lemma ForgetMissing(d: Disk, x: Index, x': Index)
    requires IndexOk(x) && Mirrors(d, x) && x.order != [] && x.order[0] !in d
    requires x'.order == x.order[1..] && x'.sizes == x.sizes - {x.order[0]}
    ensures Mirrors(d, x')
  {
    hide IsEntry, ParseName, Sorted, Distinct, Total, Numbered;
    assert x.order == [x.order[0]] + x.order[1..];
  }

  // ---- Reading the directory ----

  /** What has been read so far: every entry among the given names, with its numbers and size. */
  ghost predicate Read(found: seq<Found>, names: seq<string>, sizes: map<string, nat>, d: Disk) {
    && (forall i :: 0 <= i < |found| ==> IsEntry(found[i].name) && found[i].key == KeyOf(found[i].name))
    && (forall n :: n in NamesOf(found) <==> n in names && IsEntry(n))
    && (forall n :: n in sizes ==> n in d && sizes[n] == |d[n]|)
  }

  ghost function Elements(names: seq<string>): set<string> { set n | n in names }

  /** Of the names seen, the partly written files that are not stuck have been cleared, and nothing else. */
  ghost predicate Swept(d: Disk, was: Disk, seen: set<string>, stuck: set<string>) {
    forall n :: if n in was && !(n in seen && HasSuffix(n, PARTIAL) && n !in stuck) then n in d && d[n] == was[n]
                else n !in d
  }

  /** The counters are the highest ordinal and the highest sequence of the entries, or zero. */
  ghost predicate Highest(names: seq<string>, enqueued: nat, sequence: nat) {
    && (forall n :: n in names ==> IsEntry(n) && KeyOf(n).ordinal <= enqueued && KeyOf(n).sequence <= sequence)
    && (enqueued == 0 || exists n :: n in names && KeyOf(n).ordinal == enqueued)
    && (sequence == 0 || exists n :: n in names && KeyOf(n).sequence == sequence)
  }

  lemma Higher(names: seq<string>, enqueued: nat, sequence: nat, name: string)
    requires Highest(names, enqueued, sequence) && IsEntry(name)
    ensures Highest(names + [name], if KeyOf(name).ordinal > enqueued then KeyOf(name).ordinal else enqueued,
                    if KeyOf(name).sequence > sequence then KeyOf(name).sequence else sequence)
  {
    hide IsEntry, ParseName;
    var more := names + [name];
    assert more[|names|] == name && forall n :: n in names ==> n in more;
  }

  lemma SameHighest(names: seq<string>, order: seq<string>, enqueued: nat, sequence: nat)
    requires Highest(names, enqueued, sequence) && forall n :: n in names <==> n in order
    ensures Highest(order, enqueued, sequence)
  {
    hide IsEntry, ParseName;
  }

  lemma SweepOne(d: Disk, was: Disk, seen: set<string>, name: string, stuck: set<string>)
    requires Swept(d, was, seen, stuck)
    ensures HasSuffix(name, PARTIAL) && name !in stuck ==> Swept(d - {name}, was, seen + {name}, stuck)
    ensures !HasSuffix(name, PARTIAL) || name in stuck ==> Swept(d, was, seen + {name}, stuck)
  {
    hide HasSuffix;
  }

  lemma EmptyIsFree(x: Index)
    requires IndexOk(x)
    ensures x.order == [] ==> x.bytes == 0
  {
  }

  lemma GatherNone(d: Disk)
    ensures Gathered(Index(NamesOf([]), map[], 0, 0, 0)) && Read([], [], map[], d) && Highest(NamesOf([]), 0, 0)
    ensures forall stuck :: Swept(d, d, Elements([]), stuck)
  {
  }

  lemma NothingSorted(found: seq<Found>, sorted: seq<Found>)
    requires multiset(found) == multiset(sorted) && found == []
    ensures NamesOf(sorted) == []
  {
    assert |sorted| == |multiset(sorted)|;
  }

  lemma AnEntry(name: string)
    requires HasSuffix(name, EXTENSION) && ParseName(name).Some?
    ensures IsEntry(name) && KeyOf(name) == ParseName(name).value
  {
  }

  lemma NotEntry(name: string)
    requires !(HasSuffix(name, EXTENSION) && ParseName(name).Some?)
    ensures !IsEntry(name)
  {
  }

  lemma ReadOther(found: seq<Found>, names: seq<string>, name: string, sizes: map<string, nat>, d: Disk)
    requires Read(found, names, sizes, d) && !IsEntry(name)
    ensures Read(found, names + [name], sizes, d)
  {
    hide IsEntry;
  }

  lemma EntryRead(d: Disk, was: Disk, seen: set<string>, stuck: set<string>, name: string)
    requires Swept(d, was, seen, stuck) && name in was && !HasSuffix(name, PARTIAL)
    ensures name in d && d[name] == was[name]
  {
    hide HasSuffix;
  }

  lemma ReadEntry(found: seq<Found>, names: seq<string>, name: string, sizes: map<string, nat>, d: Disk)
    requires Read(found, names, sizes, d) && IsEntry(name) && name in d
    ensures Read(found + [Found(name, KeyOf(name))], names + [name], sizes[name := |d[name]|], d)
    ensures NamesOf(found + [Found(name, KeyOf(name))]) == NamesOf(found) + [name]
    ensures name !in names ==> name !in NamesOf(found)
  {
    hide IsEntry, ParseName;
    var more := found + [Found(name, KeyOf(name))];
    assert NamesOf(more) == NamesOf(found) + [name];
  }

  /** All the names read and sorted: the listing of the directory. */
  lemma ReadAll(found: seq<Found>, names: seq<string>, sizes: map<string, nat>, d: Disk, x: Index, sorted: seq<Found>)
    requires Read(found, names, sizes, d) && (forall n :: n in names <==> n in d)
    requires Gathered(x) && x.order == NamesOf(found) && x.sizes == sizes
    requires multiset(found) == multiset(sorted) && Ascending(FoundLess, sorted)
    ensures IndexOk(x.(order := NamesOf(sorted))) && IsListing(NamesOf(sorted), d)
    ensures forall n :: n in sizes ==> n in d && sizes[n] == |d[n]|
    ensures forall n :: n in NamesOf(found) <==> n in NamesOf(sorted)
  {
    hide IsEntry, ParseName, Gathered, Ascending, FoundLess, Precedes, Total, Numbered;
    assert Labelled(found);
    SortGathered(x, found, sorted);
  }

  lemma RecoveredSynced(d: Disk, was: Disk, stuck: set<string>, x: Index)
    requires Swept(d, was, was.Keys, stuck) && IndexOk(x) && IsListing(x.order, was)
    requires forall n :: n in x.sizes ==> n in was && x.sizes[n] == |was[n]|
    ensures Mirrors(d, x) && Holds(d, x.order, was)
  {
    hide IsEntry, ParseName, HasSuffix, Sorted, Distinct, Total, Numbered;
    forall n | IsEntry(n) ensures !HasSuffix(n, PARTIAL) { PartialIsNoEntry(n); }
  }

  // ---- The size of a directory ----

  function SizeOnDisk(names: seq<string>, d: Disk): nat {
    if names == [] then 0 else (if names[0] in d then |d[names[0]]| else 0) + SizeOnDisk(names[1..], d)
  }

  lemma {:induction false} TotalOnDisk(names: seq<string>, sizes: map<string, nat>, d: Disk)
    requires forall n :: n in names ==> n in d && n in sizes && sizes[n] == |d[n]|
    ensures Total(names, sizes) == SizeOnDisk(names, d)
  {
    if names != [] { TotalOnDisk(names[1..], sizes, d); }
  }

  lemma BytesOnDisk(x: Index, d: Disk, was: Disk)
    requires IndexOk(x) && Mirrors(d, x) && Holds(d, x.order, was) && IsListing(x.order, was)
    ensures x.bytes == SizeOnDisk(x.order, was)
    ensures forall k :: 0 <= k <= |x.order| ==> Total(x.order[k..], x.sizes) == SizeOnDisk(x.order[k..], was)
  {
    hide IsEntry, ParseName, Sorted, Distinct;
    forall n | n in x.order ensures n in was && n in x.sizes && x.sizes[n] == |was[n]| { EntriesOnly(x, n); }
    forall k | 0 <= k <= |x.order|
      ensures Total(x.order[k..], x.sizes) == SizeOnDisk(x.order[k..], was)
    {
      TotalOnDisk(x.order[k..], x.sizes, was);
    }
    assert x.order[0..] == x.order;
  }

  lemma HoldsPart(d: Disk, order: seq<string>, k: nat, read: Disk, was: Disk)
    requires k <= |order| && Holds(d, order[k..], read) && Holds(read, order, was)
    ensures Holds(d, order[k..], was)
  {
    hide IsEntry;
  }
}
