/** Whole runs of the aggregator. Each admitted event has a place: still in its open window, or in one
    emission. The aggregator's counters always agree with the places, so two-phase collection neither
    loses nor repeats an event (internal/aggregate/aggregator.go:114-282). */
module AggregatorHistory {
  import opened Aggregation
  import opened DecimalText
  import opened Domain
  import opened Tallies

  datatype Place = InOpen | InEmission(sequence: int)

  /** The aggregator with what has happened to it: the events admitted and where each is now, every
      emission ever made, by sequence, and which of them have been committed. */
  datatype History = History(
    agg: Agg, admitted: seq<Event>, places: seq<Place>, emitted: map<int, AggregateWindow>, committed: set<int>)

  function Begin(seed: int): History { History(Start(seed), [], [], map[], {}) }

  ghost function OpenIds(c: Config, h: History, key: WindowKey): set<nat>
    requires Shaped(c, h)
  {
    set i: nat | i < |h.places| && h.places[i].InOpen? && KeyOf(c, h.admitted[i]) == key
  }

  ghost function EmittedIds(h: History, s: int): set<nat> {
    set i: nat | i < |h.places| && h.places[i] == InEmission(s)
  }

  ghost predicate Shaped(c: Config, h: History) {
    && ValidConfig(c)
    && |h.places| == |h.admitted|
    && forall i :: 0 <= i < |h.admitted| ==> h.admitted[i].Valid()
  }

  /** What an open window shows is the tally of the events placed in it. */
  ghost predicate OpenAgrees(c: Config, h: History, key: WindowKey)
    requires Shaped(c, h) && key in h.agg.open
  {
    var s := h.agg.open[key];
    && Totals(s.count, s.errorCount, s.bytes) == Tally(h.admitted, OpenIds(c, h, key))
    && s.samples == Latencies(h.admitted, OpenIds(c, h, key))
    && s.count >= 1
  }

  /** What an emission shows is the tally, and the percentiles, of the events placed in it. */
  ghost predicate EmissionAgrees(c: Config, h: History, s: int)
    requires Shaped(c, h) && s in h.emitted
  {
    var w := h.emitted[s];
    && w.sequence == s <= h.agg.sequence
    && TotalsOf(w) == Tally(h.admitted, EmittedIds(h, s))
    && w.count >= 1
    && Some(w.p95Nanos) == QuantileFrom(c.sketch, Latencies(h.admitted, EmittedIds(h, s)), 0.95)
    && Some(w.p99Nanos) == QuantileFrom(c.sketch, Latencies(h.admitted, EmittedIds(h, s)), 0.99)
    && w.maxNanos == PeakFrom(c.sketch, Latencies(h.admitted, EmittedIds(h, s)))
    && w.windowStart == w.windowID * c.windowSize && w.windowEnd == w.windowStart + c.windowSize
  }

  /** Every event is in the open window of its key or in an emission of its key. */
  ghost predicate Placed(c: Config, h: History, i: nat)
    requires Shaped(c, h) && i < |h.places|
  {
    var key := KeyOf(c, h.admitted[i]);
    match h.places[i]
    case InOpen => key in h.agg.open
    case InEmission(s) => s in h.emitted && WindowKey(h.emitted[s].key, h.emitted[s].windowID) == key
  }

  /** Pending holds exactly the uncommitted emissions, each under its identity. */
  ghost predicate PendingAgrees(h: History) {
    && h.committed <= h.emitted.Keys
    && (forall id :: id in h.agg.pending ==>
          && Identity(h.agg.pending[id]) == id
          && h.agg.pending[id].sequence in h.emitted
          && h.emitted[h.agg.pending[id].sequence] == h.agg.pending[id])
    && (forall s :: s in h.emitted ==> (s in h.committed <==> Identity(h.emitted[s]) !in h.agg.pending))
  }

  ghost predicate WithinCeiling(c: Config, a: Agg) { c.maxOpenWindows > 0 ==> HeldWindows(a) <= c.maxOpenWindows }

  /** The invariant of every run. */
  ghost predicate Sound(c: Config, h: History) {
    && Shaped(c, h)
    && (forall key :: key in h.agg.open ==> OpenAgrees(c, h, key))
    && (forall s :: s in h.emitted ==> EmissionAgrees(c, h, s))
    && (forall i: nat :: i < |h.places| ==> Placed(c, h, i))
    && PendingAgrees(h)
    && WithinCeiling(c, h.agg)
  }

  // ---- Steps ----

  function AdmitOne(c: Config, h: History, e: Event, sketchOk: bool): History
    requires ValidConfig(c) && e.Valid()
  {
    var (agg, verdict) := IngestOne(c, h.agg, e, sketchOk);
    if verdict.Admitted? then h.(agg := agg, admitted := h.admitted + [e], places := h.places + [InOpen])
    else h.(agg := agg)
  }

  function AdmitBatch(c: Config, h: History, events: seq<Event>, sketchOk: seq<bool>): History
    requires ValidConfig(c) && |sketchOk| == |events|
  {
    var r := IngestBatch(c, h.agg, events, sketchOk);
    h.(agg := r.agg, admitted := h.admitted + r.admitted, places := h.places + seq(|r.admitted|, _ => InOpen))
  }

  ghost function EmitKey(c: Config, h: History, key: WindowKey, w: AggregateWindow): History
    requires Shaped(c, h)
  {
    h.(agg := Emit(h.agg, key, w),
       emitted := h.emitted[w.sequence := w],
       places := seq(|h.places|, i requires 0 <= i < |h.places| =>
         if h.places[i].InOpen? && KeyOf(c, h.admitted[i]) == key then InEmission(w.sequence) else h.places[i]))
  }

  /** One turn of the collection loop; the flag says that the sketch could not answer. */
  ghost function EmitNext(c: Config, h: History, key: WindowKey): (r: (History, bool))
    requires Shaped(c, h)
    ensures Shaped(c, r.0)
  {
    if key !in h.agg.open then (h, false)
    else
      match EmissionOf(c, key, h.agg.open[key], h.agg.sequence + 1)
      case None => (h, true)
      case Some(w) => (EmitKey(c, h, key, w), false)
  }

  ghost function EmitKeysIn(c: Config, h: History, keys: seq<WindowKey>): (r: (History, bool))
    requires Shaped(c, h)
    ensures Shaped(c, r.0)
  {
    if keys == [] then (h, false)
    else
      var q := EmitKeysIn(c, h, keys[..|keys| - 1]);
      if q.1 then q else EmitNext(c, q.0, keys[|keys| - 1])
  }

  ghost function CollectIn(c: Config, h: History, s: Selection): History
    requires Shaped(c, h)
  {
    EmitKeysIn(c, h, SelectedInOrder(h.agg, s)).0
  }

  function CommitIn(h: History, windows: seq<AggregateWindow>): History {
    var ids := set w | w in windows :: Identity(w);
    h.(agg := Commit(h.agg, windows),
       committed := h.committed + set s | s in h.emitted && Identity(h.emitted[s]) in ids)
  }

  // ---- Admission keeps the invariant ----

  lemma AdmitOpenIds(c: Config, h: History, e: Event, key: WindowKey)
    requires Shaped(c, h) && e.Valid()
    ensures var h' := h.(admitted := h.admitted + [e], places := h.places + [InOpen]);
            && Shaped(c, h')
            && OpenIds(c, h', key) == OpenIds(c, h, key) + if KeyOf(c, e) == key then {|h.admitted|} else {}
  {
    hide WindowID;
  }

  lemma AdmitTallies(c: Config, h: History, e: Event, key: WindowKey)
    requires Shaped(c, h) && e.Valid()
    ensures var h' := h.(admitted := h.admitted + [e], places := h.places + [InOpen]);
            && Shaped(c, h')
            && Tally(h'.admitted, OpenIds(c, h', key)) ==
               (if KeyOf(c, e) == key then Plus(Tally(h.admitted, OpenIds(c, h, key)), AmountOf(e))
                else Tally(h.admitted, OpenIds(c, h, key)))
            && Latencies(h'.admitted, OpenIds(c, h', key)) ==
               Latencies(h.admitted, OpenIds(c, h, key)) + if KeyOf(c, e) == key then [e.latencyNanos] else []
  {
    hide WindowID;
    var h' := h.(admitted := h.admitted + [e], places := h.places + [InOpen]);
    AdmitOpenIds(c, h, e, key);
    TallyAppend(h.admitted, e, OpenIds(c, h', key));
    TallySameIds(h.admitted, OpenIds(c, h', key), OpenIds(c, h, key));
  }

  lemma AdmitKeepsEmissions(c: Config, h: History, h': History, e: Event, s: int)
    requires Shaped(c, h) && e.Valid() && s in h.emitted && EmissionAgrees(c, h, s)
    requires h'.admitted == h.admitted + [e] && h'.places == h.places + [InOpen]
    requires h'.emitted == h.emitted && h'.agg.sequence == h.agg.sequence
    ensures Shaped(c, h') && EmissionAgrees(c, h', s)
  {
    hide WindowID;
    assert EmittedIds(h', s) == EmittedIds(h, s);
    TallyAppend(h.admitted, e, EmittedIds(h, s));
  }

  /** No event is open under a key that has no open window. */
  lemma UnopenedKey(c: Config, h: History, key: WindowKey)
    requires Sound(c, h) && key !in h.agg.open
    ensures OpenIds(c, h, key) == {}
  {
    forall i: nat | i < |h.places| && h.places[i].InOpen?
      ensures KeyOf(c, h.admitted[i]) != key
    {
      assert Placed(c, h, i);
    }
  }

  lemma AdmittedOpenAgrees(c: Config, h: History, e: Event, sketchOk: bool, k: WindowKey)
    requires Sound(c, h) && e.Valid() && IngestOne(c, h.agg, e, sketchOk).1.Admitted?
    requires k in AdmitOne(c, h, e, sketchOk).agg.open
    ensures var h' := AdmitOne(c, h, e, sketchOk); Shaped(c, h') && OpenAgrees(c, h', k)
  {
    hide WindowID, Identity;
    var h' := AdmitOne(c, h, e, sketchOk);
    var grown := h.(admitted := h.admitted + [e], places := h.places + [InOpen]);
    AdmitTallies(c, h, e, k);
    assert OpenIds(c, h', k) == OpenIds(c, grown, k);
    if k in h.agg.open {
      assert OpenAgrees(c, h, k);
    } else {
      UnopenedKey(c, h, k);
      TallyNone(h.admitted, {});
    }
  }

  lemma AdmitOneSound(c: Config, h: History, e: Event, sketchOk: bool)
    requires Sound(c, h) && e.Valid()
    ensures Sound(c, AdmitOne(c, h, e, sketchOk))
  {
    hide WindowID, Identity, Tally, Latencies, OpenAgrees, EmissionAgrees;
    var (agg, verdict) := IngestOne(c, h.agg, e, sketchOk);
    if verdict.Admitted? {
      var h' := AdmitOne(c, h, e, sketchOk);
      forall k | k in h'.agg.open ensures OpenAgrees(c, h', k) { AdmittedOpenAgrees(c, h, e, sketchOk, k); }
      forall s | s in h'.emitted ensures EmissionAgrees(c, h', s) { AdmitKeepsEmissions(c, h, h', e, s); }
      forall i: nat | i < |h'.places|
        ensures Placed(c, h', i)
      {
        if i < |h.places| { assert Placed(c, h, i); }
      }
    } else {
      SameEvents(c, h, h.(agg := agg));
    }
  }

  /** Soundness is about the events, their places, the open windows and what is pending. */
  lemma SameEvents(c: Config, h: History, h': History)
    requires Sound(c, h)
    requires h'.admitted == h.admitted && h'.places == h.places && h'.emitted == h.emitted
    requires h'.agg.open == h.agg.open && h'.agg.sequence == h.agg.sequence
    requires PendingAgrees(h') && WithinCeiling(c, h'.agg)
    ensures Sound(c, h')
  {
    hide WindowID, Identity, Tally, Latencies, QuantileFrom, PendingAgrees, WithinCeiling;
    forall k | k in h'.agg.open ensures OpenAgrees(c, h', k) {
      assert OpenAgrees(c, h, k) && OpenIds(c, h', k) == OpenIds(c, h, k);
    }
    forall s | s in h'.emitted ensures EmissionAgrees(c, h', s) {
      assert EmissionAgrees(c, h, s) && EmittedIds(h', s) == EmittedIds(h, s);
    }
    forall i: nat | i < |h'.places| ensures Placed(c, h', i) { assert Placed(c, h, i); }
  }

  /** Admitting a batch is admitting its events one by one. */
  lemma {:induction false} AdmitAllSound(c: Config, h: History, events: seq<Event>, sketchOk: seq<bool>)
    requires Sound(c, h) && |sketchOk| == |events|
    requires forall e :: e in events ==> e.Valid()
    ensures var r := IngestAll(c, h.agg, events, sketchOk);
            Sound(c, h.(agg := r.agg, admitted := h.admitted + r.admitted,
                        places := h.places + seq(|r.admitted|, _ => InOpen)))
  {
    assert ValidConfig(c);
    hide Sound, IngestOne;
    var r := IngestAll(c, h.agg, events, sketchOk);
    if events == [] {
      assert h.admitted + [] == h.admitted && h.places + seq(0, _ => InOpen) == h.places;
    } else {
      var last := |events| - 1;
      AdmitAllSound(c, h, events[..last], sketchOk[..last]);
      var q := IngestAll(c, h.agg, events[..last], sketchOk[..last]);
      if !q.failed {
        var mid := h.(agg := q.agg, admitted := h.admitted + q.admitted,
                      places := h.places + seq(|q.admitted|, _ => InOpen));
        AdmitOneSound(c, mid, events[last], sketchOk[last]);
        var h' := AdmitOne(c, mid, events[last], sketchOk[last]);
        assert h'.admitted == h.admitted + r.admitted;
        assert h'.places == h.places + seq(|r.admitted|, _ => InOpen);
      }
    }
  }

  lemma AdmitBatchSound(c: Config, h: History, events: seq<Event>, sketchOk: seq<bool>)
    requires Sound(c, h) && |sketchOk| == |events|
    ensures Sound(c, AdmitBatch(c, h, events, sketchOk))
  {
    hide Sound, IngestAll;
    if forall e :: e in events ==> e.Valid() {
      AdmitAllSound(c, h, events, sketchOk);
    } else {
      assert h.admitted + [] == h.admitted && h.places + seq(0, _ => InOpen) == h.places;
    }
  }

  // ---- Emission keeps the invariant ----

  /** The next emission of an open window. */
  ghost predicate Emits(c: Config, h: History, key: WindowKey, w: AggregateWindow) {
    && key in h.agg.open
    && EmissionOf(c, key, h.agg.open[key], h.agg.sequence + 1) == Some(w)
  }

  lemma EmitMovesIds(c: Config, h: History, key: WindowKey, w: AggregateWindow)
    requires Sound(c, h) && Emits(c, h, key, w)
    ensures var h' := EmitKey(c, h, key, w);
            && EmittedIds(h', w.sequence) == OpenIds(c, h, key)
            && (forall s :: s in h.emitted ==> EmittedIds(h', s) == EmittedIds(h, s))
            && (forall k :: k != key ==> OpenIds(c, h', k) == OpenIds(c, h, k))
  {
    hide WindowID, Identity, Tally, Latencies;
    forall i: nat | i < |h.places| && h.places[i].InEmission?
      ensures h.places[i].sequence != w.sequence
    {
      assert Placed(c, h, i) && EmissionAgrees(c, h, h.places[i].sequence);
    }
    assert forall s :: s in h.emitted ==> EmissionAgrees(c, h, s);
  }

  lemma NewIdentity(c: Config, h: History, key: WindowKey, w: AggregateWindow)
    requires Sound(c, h) && Emits(c, h, key, w)
    ensures w.sequence !in h.emitted
    ensures Identity(w) !in h.agg.pending
    ensures forall s :: s in h.emitted ==> Identity(h.emitted[s]) != Identity(w)
  {
    hide WindowID, Identity, Tally, Latencies;
    forall s | s in h.emitted
      ensures s != w.sequence && Identity(h.emitted[s]) != Identity(w)
    {
      assert EmissionAgrees(c, h, s);
      if Identity(h.emitted[s]) == Identity(w) { IdentityDeterminesEmission(h.emitted[s], w); }
    }
  }

  lemma EmitPending(c: Config, h: History, key: WindowKey, w: AggregateWindow)
    requires Sound(c, h) && Emits(c, h, key, w)
    ensures PendingAgrees(EmitKey(c, h, key, w))
    ensures WithinCeiling(c, EmitKey(c, h, key, w).agg)
  {
    hide WindowID, Identity, EmissionOf, OpenAgrees, EmissionAgrees, Placed;
    NewIdentity(c, h, key, w);
    FilePending(h, w);
    MoveKeepsSize(h.agg.open, key, h.agg.pending, Identity(w), w);
  }

  lemma MoveKeepsSize<K, V, L, W>(m: map<K, V>, k: K, n: map<L, W>, l: L, w: W)
    requires k in m && l !in n
    ensures |m - {k}| + |n[l := w]| == |m| + |n|
  {
    assert (m - {k}).Keys == m.Keys - {k};
    assert n[l := w].Keys == n.Keys + {l};
  }

  lemma FilePending(h: History, w: AggregateWindow)
    requires PendingAgrees(h) && w.sequence !in h.emitted && Identity(w) !in h.agg.pending
    requires forall s :: s in h.emitted ==> Identity(h.emitted[s]) != Identity(w)
    ensures PendingAgrees(h.(agg := h.agg.(pending := h.agg.pending[Identity(w) := w]),
                             emitted := h.emitted[w.sequence := w]))
  {
    hide Identity;
  }

  lemma EmitKeySound(c: Config, h: History, key: WindowKey, w: AggregateWindow)
    requires Sound(c, h) && Emits(c, h, key, w)
    ensures Sound(c, EmitKey(c, h, key, w))
  {
    hide WindowID, Identity, Tally, Latencies, PendingAgrees, WithinCeiling, HeldWindows;
    var h' := EmitKey(c, h, key, w);
    EmitMovesIds(c, h, key, w);
    NewIdentity(c, h, key, w);
    EmitPending(c, h, key, w);
    forall k | k in h'.agg.open ensures OpenAgrees(c, h', k) { assert OpenAgrees(c, h, k); }
    forall s | s in h'.emitted
      ensures EmissionAgrees(c, h', s)
    {
      if s == w.sequence { assert OpenAgrees(c, h, key); } else { assert EmissionAgrees(c, h, s); }
    }
    forall i: nat | i < |h'.places| ensures Placed(c, h', i) { assert Placed(c, h, i); }
  }

  lemma EmitNextSound(c: Config, h: History, key: WindowKey)
    requires Sound(c, h)
    ensures Sound(c, EmitNext(c, h, key).0)
    ensures forall id :: id in h.agg.pending ==>
      id in EmitNext(c, h, key).0.agg.pending && EmitNext(c, h, key).0.agg.pending[id] == h.agg.pending[id]
  {
    assert Shaped(c, h);
    hide Sound, EmissionOf, Identity;
    if key in h.agg.open {
      var emission := EmissionOf(c, key, h.agg.open[key], h.agg.sequence + 1);
      if emission.Some? {
        EmitKeySound(c, h, key, emission.value);
        NewIdentity(c, h, key, emission.value);
      }
    }
  }

  /** A collection, complete or cut short, keeps the invariant and every emission that was pending. */
  lemma {:induction false} EmitKeysSound(c: Config, h: History, keys: seq<WindowKey>)
    requires Sound(c, h)
    ensures Sound(c, EmitKeysIn(c, h, keys).0)
    ensures forall id :: id in h.agg.pending ==>
      id in EmitKeysIn(c, h, keys).0.agg.pending && EmitKeysIn(c, h, keys).0.agg.pending[id] == h.agg.pending[id]
  {
    assert Shaped(c, h);
    hide Sound, EmitNext;
    if keys != [] {
      var front := keys[..|keys| - 1];
      EmitKeysSound(c, h, front);
      EmitNextSound(c, EmitKeysIn(c, h, front).0, keys[|keys| - 1]);
    }
  }

  /** The history's collection does to the aggregator what `EmitKeys` says, and to nothing else. */
  lemma {:induction false} EmitKeysAgree(c: Config, h: History, keys: seq<WindowKey>)
    requires Shaped(c, h)
    ensures var q, r := EmitKeysIn(c, h, keys), EmitKeys(c, h.agg, keys);
            && q.0.agg == r.agg && q.1 == r.failed
            && q.0.admitted == h.admitted && q.0.committed == h.committed
  {
    if keys != [] {
      var front := keys[..|keys| - 1];
      EmitKeysAgree(c, h, front);
      hide EmissionOf, Emit, Shaped;
    }
  }

  /** What a collection changes in the history: emissions are added, never altered, and events move only
      from open windows into the added ones. */
  ghost predicate Grows(h: History, h': History) {
    && |h'.places| == |h.places|
    && (forall s :: s in h.emitted ==> s in h'.emitted && h'.emitted[s] == h.emitted[s])
    && (forall i :: 0 <= i < |h.places| ==>
          h'.places[i] == h.places[i]
            || (h.places[i].InOpen? && h'.places[i].InEmission? && h'.places[i].sequence !in h.emitted))
  }

  lemma EmitKeyGrows(c: Config, h: History, key: WindowKey, w: AggregateWindow)
    requires Shaped(c, h) && w.sequence !in h.emitted
    ensures Grows(h, EmitKey(c, h, key, w))
  {
    hide KeyOf, Emit;
  }

  lemma EmitNextGrows(c: Config, h: History, key: WindowKey)
    requires Sound(c, h)
    ensures Grows(h, EmitNext(c, h, key).0)
    ensures forall w :: w in EmitKeys(c, h.agg, [key]).windows ==>
      w.sequence in EmitNext(c, h, key).0.emitted && EmitNext(c, h, key).0.emitted[w.sequence] == w
  {
    assert Shaped(c, h);
    hide Sound, EmissionOf, Identity, Grows, Shaped, KeyOf;
    assert [key][..0] == [];
    if key in h.agg.open {
      var emission := EmissionOf(c, key, h.agg.open[key], h.agg.sequence + 1);
      if emission.Some? {
        NewIdentity(c, h, key, emission.value);
        EmitKeyGrows(c, h, key, emission.value);
      }
    }
    GrowsRefl(h);
  }

  lemma GrowsRefl(h: History)
    ensures Grows(h, h)
  {
  }

  /** Every emission a collection lists as new is recorded in the history. */
  lemma {:induction false} EmitKeysGrow(c: Config, h: History, keys: seq<WindowKey>)
    requires Sound(c, h)
    ensures Grows(h, EmitKeysIn(c, h, keys).0)
    ensures forall w :: w in EmitKeys(c, h.agg, keys).windows ==>
      w.sequence in EmitKeysIn(c, h, keys).0.emitted && EmitKeysIn(c, h, keys).0.emitted[w.sequence] == w
  {
    assert Shaped(c, h);
    if keys != [] {
      hide Sound, EmitNext, EmissionOf, Emit, Grows;
      var front, key := keys[..|keys| - 1], keys[|keys| - 1];
      var q := EmitKeysIn(c, h, front).0;
      EmitKeysGrow(c, h, front);
      EmitKeysSound(c, h, front);
      EmitKeysAgree(c, h, front);
      EmitNextGrows(c, q, key);
      assert [key][..0] == [];
      GrowsTransitive(h, q, EmitNext(c, q, key).0);
    }
  }

  lemma GrowsTransitive(h: History, q: History, h': History)
    requires Grows(h, q) && Grows(q, h')
    ensures Grows(h, h')
    ensures forall s :: s in q.emitted ==> s in h'.emitted && h'.emitted[s] == q.emitted[s]
  {
  }

  lemma CommitSound(c: Config, h: History, windows: seq<AggregateWindow>)
    requires Sound(c, h)
    ensures Sound(c, CommitIn(h, windows))
  {
    hide WindowID, Identity;
    CommitPending(h, windows);
    SubmapSize(h.agg.pending, Commit(h.agg, windows).pending);
    SameEvents(c, h, CommitIn(h, windows));
  }

  lemma CommitPending(h: History, windows: seq<AggregateWindow>)
    requires PendingAgrees(h)
    ensures PendingAgrees(CommitIn(h, windows))
  {
    hide Identity;
  }

  lemma SubmapSize<K, V>(m: map<K, V>, n: map<K, V>)
    requires n.Keys <= m.Keys
    ensures |n| <= |m|
  {
    SubsetSize(n.Keys, m.Keys);
  }

  lemma {:induction false} SubsetSize<T>(a: set<T>, b: set<T>)
    requires a <= b
    ensures |a| <= |b|
  {
    assert b == a + (b - a);
  }

  // ---- Whole runs ----

  datatype Action =
    | Ingest(events: seq<Event>, sketchOk: seq<bool>)
    | CollectWindows(selection: Selection)
    | CommitWindows(windows: seq<AggregateWindow>)

  predicate Possible(a: Action) { a.Ingest? ==> |a.sketchOk| == |a.events| }

  ghost function Step(c: Config, h: History, a: Action): History
    requires Shaped(c, h) && Possible(a)
  {
    match a
    case Ingest(events, sketchOk) => AdmitBatch(c, h, events, sketchOk)
    case CollectWindows(s) => CollectIn(c, h, s)
    case CommitWindows(windows) => CommitIn(h, windows)
  }

  lemma StepSound(c: Config, h: History, a: Action)
    requires Sound(c, h) && Possible(a)
    ensures Sound(c, Step(c, h, a))
  {
    match a
    case Ingest(events, sketchOk) => AdmitBatchSound(c, h, events, sketchOk);
    case CollectWindows(s) => EmitKeysSound(c, h, SelectedInOrder(h.agg, s));
    case CommitWindows(windows) => CommitSound(c, h, windows);
  }

  /** A run: the histories it passes through, each one action after the other. */
  ghost predicate IsRun(c: Config, seed: int, run: seq<History>, actions: seq<Action>) {
    && ValidConfig(c)
    && |run| == |actions| + 1
    && run[0] == Begin(seed)
    && (forall i :: 0 <= i < |actions| ==>
          Possible(actions[i]) && Shaped(c, run[i]) && run[i + 1] == Step(c, run[i], actions[i]))
  }

  /** Every state of every run, with every batch, every sketch failure and every commit list, is sound. */
  lemma {:induction false} RunSound(c: Config, seed: int, run: seq<History>, actions: seq<Action>, n: nat)
    requires IsRun(c, seed, run, actions) && n < |run|
    ensures Sound(c, run[n])
  {
    if n == 0 {
      hide Identity;
    } else {
      hide Sound, Step;
      RunSound(c, seed, run, actions, n - 1);
      StepSound(c, run[n - 1], actions[n - 1]);
    }
  }

  // ---- What soundness says ----

  /** Each admitted event is in exactly one of: the open window of its key, one pending emission of its
      key, one committed emission of its key. */
  lemma EventInOnePlace(c: Config, h: History, i: nat)
    requires Sound(c, h) && i < |h.admitted|
    ensures var key := KeyOf(c, h.admitted[i]);
            var open := i in OpenIds(c, h, key) && key in h.agg.open;
            var pending :=
              exists s :: s in h.emitted && i in EmittedIds(h, s) && Identity(h.emitted[s]) in h.agg.pending;
            var committed := exists s :: s in h.committed && i in EmittedIds(h, s);
            && (open || pending || committed)
            && !(open && pending) && !(open && committed) && !(pending && committed)
    ensures forall k :: i in OpenIds(c, h, k) ==> k == KeyOf(c, h.admitted[i])
    ensures forall s, t :: i in EmittedIds(h, s) && i in EmittedIds(h, t) ==> s == t
  {
    hide Identity, WindowID, Tally, Latencies;
    assert Placed(c, h, i);
    if h.places[i].InEmission? { assert i in EmittedIds(h, h.places[i].sequence); }
  }

  /** An event emitted is in an emission of its own identifiers whose window takes in its time; the time lies
      between the window's start and end exactly when it is not before the epoch, or is the start itself. */
  lemma EventInItsWindow(c: Config, h: History, i: nat)
    requires Sound(c, h) && i < |h.admitted| && h.places[i].InEmission?
    ensures h.places[i].sequence in h.emitted
    ensures var e, w := h.admitted[i], h.emitted[h.places[i].sequence];
            && w.key.userID == e.userID && w.key.deviceID == e.deviceID
            && w.key.processID == e.processID && w.key.podID == e.podID
            && Covers(c, w.windowID, e.observedAt.nanos)
            && (w.windowStart <= e.observedAt.nanos < w.windowEnd
                <==> e.observedAt.nanos >= 0 || e.observedAt.nanos == w.windowStart)
  {
    hide Identity, Tally, Latencies;
    assert Placed(c, h, i);
    var e, w := h.admitted[i], h.emitted[h.places[i].sequence];
    assert EmissionAgrees(c, h, h.places[i].sequence);
    KeyHoldsEvent(c, e);
    CoversMeansWithin(c, w.windowID, e.observedAt.nanos);
  }

  /** An event not yet emitted is in an open window of its own identifiers that takes in its time. */
  lemma OpenEventInItsWindow(c: Config, h: History, i: nat)
    requires Sound(c, h) && i < |h.admitted| && h.places[i].InOpen?
    ensures exists key :: key in h.agg.open && Takes(c, key, h.admitted[i])
  {
    hide Identity, Tally, Latencies;
    assert Placed(c, h, i);
    TakesIsKey(c, KeyOf(c, h.admitted[i]), h.admitted[i]);
  }

  /** So in every state of every run. */
  lemma EveryEventInItsWindow(c: Config, seed: int, run: seq<History>, actions: seq<Action>, n: nat, i: nat)
    requires IsRun(c, seed, run, actions) && n < |run| && i < |run[n].admitted|
    ensures |run[n].places| == |run[n].admitted| && run[n].admitted[i].Valid()
    ensures var h := run[n];
            var e := h.admitted[i];
            match h.places[i]
            case InOpen => exists key :: key in h.agg.open && Takes(c, key, e)
            case InEmission(s) =>
              && s in h.emitted
              && Takes(c, WindowKey(h.emitted[s].key, h.emitted[s].windowID), e)
              && (e.observedAt.nanos >= 0 ==> h.emitted[s].windowStart <= e.observedAt.nanos < h.emitted[s].windowEnd)
  {
    RunSound(c, seed, run, actions, n);
    assert Shaped(c, run[n]);
    hide Sound, IsRun, Covers;
    if run[n].places[i].InOpen? { OpenEventInItsWindow(c, run[n], i); } else { EventInItsWindow(c, run[n], i); }
  }

  /** A collection keeps every emission that was pending, sequence and all, and a complete one lists it
      again. */
  lemma RetryKeepsEmission(c: Config, h: History, s: Selection, id: string)
    requires Sound(c, h) && id in h.agg.pending
    ensures var r := Collect(c, h.agg, s);
            && id in r.agg.pending && r.agg.pending[id] == h.agg.pending[id]
            && (!r.failed ==> h.agg.pending[id] in r.windows)
  {
    assert Shaped(c, h);
    hide Sound, EmitKeys, EmitKeysIn;
    PendingListed(h.agg.pending);
    EmitKeysSound(c, h, SelectedInOrder(h.agg, s));
    EmitKeysAgree(c, h, SelectedInOrder(h.agg, s));
  }
}
