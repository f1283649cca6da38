/** Delivery order and repeats do not matter to the store: what a device shows is a function of the set of
    emissions delivered to it (internal/store/memory.go:57-120). */
module StoreConvergence {
  import opened Domain
  import opened MemoryStore
  import opened Tallies

  function DeliverAll(ws: seq<AggregateWindow>): Store {
    if ws == [] then EMPTY else Apply(DeliverAll(ws[..|ws| - 1]), ws[|ws| - 1])
  }

  function DeliveredTo(ws: seq<AggregateWindow>, key: string): set<AggregateWindow> {
    set w | w in ws && DeviceKey(w) == key
  }

  /** Emissions are told apart by their identities. */
  ghost predicate Distinct(ws: seq<AggregateWindow>) {
    forall v, w :: v in ws && w in ws && Identity(v) == Identity(w) ==> v == w
  }

  /** What the aggregator emits: window ids from the epoch on, at least one event. */
  ghost predicate Emitted(ws: seq<AggregateWindow>) {
    forall w :: w in ws ==> w.windowID >= 0 && w.count >= 1
  }

  // ---- Sums over sets of emissions ----

  ghost function SumOf(ws: set<AggregateWindow>): Totals {
    if ws == {} then ZERO
    else
      var w :| w in ws;
      Plus(SumOf(ws - {w}), TotalsOf(w))
  }

  lemma SumPick(ws: set<AggregateWindow>) returns (x: AggregateWindow)
    requires ws != {}
    ensures x in ws && SumOf(ws) == Plus(SumOf(ws - {x}), TotalsOf(x))
  {
    hide TotalsOf, Plus;
    x :| x in ws && SumOf(ws) == Plus(SumOf(ws - {x}), TotalsOf(x));
  }

  lemma {:induction false} SumInsert(ws: set<AggregateWindow>, w: AggregateWindow)
    requires w !in ws
    ensures SumOf(ws + {w}) == Plus(SumOf(ws), TotalsOf(w))
    decreases |ws|
  {
    hide SumOf;
    var all := ws + {w};
    var x := SumPick(all);
    if x == w {
      assert all - {x} == ws;
    } else {
      var rest := ws - {x};
      assert all - {x} == rest + {w} && ws == rest + {x};
      SumInsert(rest, w);
      SumInsert(rest, x);
    }
  }

  // ---- Counters ----

  lemma DeliveredStep(ws: seq<AggregateWindow>, key: string)
    requires ws != []
    ensures var front, w := ws[..|ws| - 1], ws[|ws| - 1];
            DeliveredTo(ws, key) == DeliveredTo(front, key) + (if DeviceKey(w) == key then {w} else {})
  {
    hide DeviceScope;
    assert ws == ws[..|ws| - 1] + [ws[|ws| - 1]];
  }

  /** The identities remembered for a device are those of the emissions delivered to it. */
  lemma {:induction false} AppliedAreDelivered(ws: seq<AggregateWindow>, key: string, id: string)
    ensures id in Applied(DeliverAll(ws), key) <==> exists w :: w in DeliveredTo(ws, key) && Identity(w) == id
  {
    if ws != [] {
      hide Identity, DeviceScope, Apply;
      var front, w := ws[..|ws| - 1], ws[|ws| - 1];
      AppliedAreDelivered(front, key, id);
      DeliveredStep(ws, key);
      ApplyEffect(DeliverAll(front), w, key);
    }
  }

  /** With distinct identities, an emission is a duplicate exactly when it was delivered before. */
  lemma DuplicateMeansDelivered(ws: seq<AggregateWindow>, key: string)
    requires Distinct(ws) && ws != [] && DeviceKey(ws[|ws| - 1]) == key
    ensures var front, w := ws[..|ws| - 1], ws[|ws| - 1];
            Identity(w) in Applied(DeliverAll(front), key) <==> w in DeliveredTo(front, key)
  {
    hide Identity, DeviceScope, DeliverAll;
    AppliedAreDelivered(ws[..|ws| - 1], key, Identity(ws[|ws| - 1]));
  }

  /** A device's counters are the sums over the set of emissions delivered to it. */
  lemma {:induction false} CountersAreSums(ws: seq<AggregateWindow>, key: string)
    requires Distinct(ws)
    ensures Counters(DeliverAll(ws), key) == SumOf(DeliveredTo(ws, key))
  {
    if ws != [] {
      hide Identity, DeviceScope, Apply, SumOf, Applied;
      var front, w := ws[..|ws| - 1], ws[|ws| - 1];
      CountersAreSums(front, key);
      ApplyEffect(DeliverAll(front), w, key);
      DeliveredStep(ws, key);
      if DeviceKey(w) == key {
        DuplicateMeansDelivered(ws, key);
        if w in DeliveredTo(front, key) {
          assert DeliveredTo(ws, key) == DeliveredTo(front, key);
        } else {
          SumInsert(DeliveredTo(front, key), w);
        }
      } else {
        assert DeliveredTo(ws, key) == DeliveredTo(front, key);
      }
    }
  }

  // ---- Percentiles ----

  /** `v` is before `w` in the order the percentiles follow: by window, then by size of the sample. */
  predicate NoLaterThan(v: AggregateWindow, windowID: int, count: int) {
    v.windowID < windowID || (v.windowID == windowID && v.count <= count)
  }

  /** The record shows the greatest (window id, count) of a set of emissions, with percentiles from an
      emission that attains it. */
  ghost predicate ShowsPeak(r: DeviceRecord, ws: set<AggregateWindow>) {
    && (forall v :: v in ws ==> NoLaterThan(v, r.lastWindowID, r.percentileSample))
    && (exists w :: w in ws && w.windowID == r.lastWindowID && w.count == r.percentileSample
                    && w.p95Nanos == r.p95Nanos && w.p99Nanos == r.p99Nanos)
  }

  lemma AbsorbPeak(r: DeviceRecord, ws: set<AggregateWindow>, w: AggregateWindow)
    requires w.windowID >= 0 && w.count >= 1
    requires if ws == {} then r.lastWindowID == 0 && r.percentileSample == 0 else ShowsPeak(r, ws)
    ensures ShowsPeak(Absorb(r, w), ws + {w})
  {
    hide Identity;
    var r' := Absorb(r, w);
    if w.windowID > r.lastWindowID || (w.windowID == r.lastWindowID && w.count > r.percentileSample) {
      assert w in ws + {w};
    } else {
      var x :| x in ws && x.windowID == r.lastWindowID && x.count == r.percentileSample
               && x.p95Nanos == r.p95Nanos && x.p99Nanos == r.p99Nanos;
      assert x in ws + {w};
    }
  }

  /** After any deliveries a device shows the lexicographic maximum of (window id, count). */
  lemma {:induction false} PeakHolds(ws: seq<AggregateWindow>, key: string)
    requires Distinct(ws) && Emitted(ws)
    ensures var st, mine := DeliverAll(ws), DeliveredTo(ws, key);
            if mine == {} then key !in st.devices else key in st.devices && ShowsPeak(st.devices[key], mine)
  {
    hide Identity, DeviceScope, ShowsPeak, Absorb;
    if ws != [] {
      var front, w := ws[..|ws| - 1], ws[|ws| - 1];
      PeakHolds(front, key);
      DeliveredStep(ws, key);
      var st, mine := DeliverAll(front), DeliveredTo(front, key);
      if DeviceKey(w) != key {
        assert DeliveredTo(ws, key) == mine;
      } else {
        assert DeliveredTo(ws, key) == mine + {w};
        DuplicateMeansDelivered(ws, key);
        if w in mine {
          assert mine + {w} == mine;
        } else {
          AbsorbPeak(RecordFor(st, w), mine, w);
        }
      }
    }
  }

  /** The record was last seen at the latest end among the emissions of its last window. */
  ghost predicate ShowsLatest(r: DeviceRecord, ws: set<AggregateWindow>) {
    && r.lastSeen.At?
    && (exists w :: w in ws && w.windowID == r.lastWindowID && w.windowEnd == r.lastSeen.nanos)
    && (forall w :: w in ws && w.windowID == r.lastWindowID ==> w.windowEnd <= r.lastSeen.nanos)
    && (forall w :: w in ws ==> w.windowID <= r.lastWindowID)
  }

  lemma AbsorbLatest(r: DeviceRecord, ws: set<AggregateWindow>, w: AggregateWindow)
    requires w.windowID >= 0
    requires if ws == {} then r.lastWindowID == 0 && r.lastSeen.ZeroTime? else ShowsLatest(r, ws)
    ensures ShowsLatest(Absorb(r, w), ws + {w})
  {
    hide Identity;
    var r' := Absorb(r, w);
    if r'.lastSeen != r.lastSeen || ws == {} {
      assert w in ws + {w} && w.windowEnd == r'.lastSeen.nanos;
    } else {
      var x :| x in ws && x.windowID == r.lastWindowID && x.windowEnd == r.lastSeen.nanos;
      if w.windowID > r.lastWindowID { assert w in ws + {w}; } else { assert x in ws + {w}; }
    }
  }

  lemma {:induction false} LatestHolds(ws: seq<AggregateWindow>, key: string)
    requires Distinct(ws) && Emitted(ws)
    ensures var st, mine := DeliverAll(ws), DeliveredTo(ws, key);
            if mine == {} then key !in st.devices else key in st.devices && ShowsLatest(st.devices[key], mine)
  {
    hide Identity, DeviceScope, ShowsLatest, Absorb;
    if ws != [] {
      var front, w := ws[..|ws| - 1], ws[|ws| - 1];
      LatestHolds(front, key);
      DeliveredStep(ws, key);
      var st, mine := DeliverAll(front), DeliveredTo(front, key);
      if DeviceKey(w) != key {
        assert DeliveredTo(ws, key) == mine;
      } else {
        assert DeliveredTo(ws, key) == mine + {w};
        DuplicateMeansDelivered(ws, key);
        if w in mine {
          assert mine + {w} == mine;
        } else {
          AbsorbLatest(RecordFor(st, w), mine, w);
        }
      }
    }
  }

  /** Two delivery orders of the same emissions, with any repeats, end with the same counters, the same
      last window, the same time last seen and the same percentile sample. */
  lemma Convergence(ws: seq<AggregateWindow>, ws': seq<AggregateWindow>, key: string)
    requires Distinct(ws) && Emitted(ws)
    requires forall w :: w in ws <==> w in ws'
    ensures Counters(DeliverAll(ws), key) == Counters(DeliverAll(ws'), key)
    ensures key in DeliverAll(ws).devices <==> key in DeliverAll(ws').devices
    ensures key in DeliverAll(ws).devices ==>
              var r, r' := DeliverAll(ws).devices[key], DeliverAll(ws').devices[key];
              && r.lastWindowID == r'.lastWindowID && r.percentileSample == r'.percentileSample
              && r.lastSeen == r'.lastSeen && ShowsLatest(r, DeliveredTo(ws, key))
              && ShowsPeak(r, DeliveredTo(ws, key)) && ShowsPeak(r', DeliveredTo(ws, key))
  {
    hide Identity, DeviceScope, Apply, Absorb;
    assert DeliveredTo(ws, key) == DeliveredTo(ws', key);
    CountersAreSums(ws, key);
    CountersAreSums(ws', key);
    PeakHolds(ws, key);
    PeakHolds(ws', key);
    LatestHolds(ws, key);
    LatestHolds(ws', key);
  }
}
