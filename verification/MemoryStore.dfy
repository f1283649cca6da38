/** The deduplicating state store (internal/store/memory.go): one record per device, each emission counted
    once, percentiles taken from the latest and largest emission. */
module MemoryStore {
  import opened Domain
  import opened Tallies

  datatype DeviceRecord = DeviceRecord(
    userID: string, deviceID: string, count: int, errorCount: int, bytes: int, p95Nanos: int, p99Nanos: int,
    lastWindowID: int, lastSeen: Instant, applied: set<string>, percentileSample: int)

  datatype Metrics = Metrics(
    windowsApplied: int, windowsDuplicate: int, eventsCounted: int, errorsCounted: int, deviceResets: int)

  datatype Store = Store(devices: map<string, DeviceRecord>, metrics: Metrics)

  const EMPTY := Store(map[], Metrics(0, 0, 0, 0, 0))

  function NewRecord(userID: string, deviceID: string): DeviceRecord {
    DeviceRecord(userID, deviceID, 0, 0, 0, 0, 0, 0, ZeroTime, {}, 0)
  }

  function DeviceKey(w: AggregateWindow): string { DeviceScope(w.key.userID, w.key.deviceID) }

  function CountersOf(r: DeviceRecord): Totals { Totals(r.count, r.errorCount, r.bytes) }

  predicate After(nanos: int, t: Instant) { t.ZeroTime? || nanos > t.nanos }

  /** Counts an emission seen for the first time. */
  function Absorb(r: DeviceRecord, w: AggregateWindow): DeviceRecord {
    var counted := r.(applied := r.applied + {Identity(w)}, count := r.count + w.count,
                      errorCount := r.errorCount + w.errorCount, bytes := r.bytes + w.bytes);
    if w.windowID > r.lastWindowID then
      counted.(lastWindowID := w.windowID, p95Nanos := w.p95Nanos, p99Nanos := w.p99Nanos,
               lastSeen := At(w.windowEnd), percentileSample := w.count)
    else if w.windowID == r.lastWindowID then
      var sampled := if w.count > r.percentileSample
        then counted.(p95Nanos := w.p95Nanos, p99Nanos := w.p99Nanos, percentileSample := w.count) else counted;
      if After(w.windowEnd, r.lastSeen) then sampled.(lastSeen := At(w.windowEnd)) else sampled
    else counted
  }

  function RecordFor(st: Store, w: AggregateWindow): DeviceRecord {
    if DeviceKey(w) in st.devices then st.devices[DeviceKey(w)] else NewRecord(w.key.userID, w.key.deviceID)
  }

  /** `ApplyWindow`. */
  function Apply(st: Store, w: AggregateWindow): Store {
    var r, m := RecordFor(st, w), st.metrics;
    if Identity(w) in r.applied then
      Store(st.devices[DeviceKey(w) := r], m.(windowsDuplicate := m.windowsDuplicate + 1))
    else
      Store(st.devices[DeviceKey(w) := Absorb(r, w)],
            m.(windowsApplied := m.windowsApplied + 1, eventsCounted := m.eventsCounted + w.count,
               errorsCounted := m.errorsCounted + w.errorCount))
  }

  /** `ResetDevice`: zeroes what is shown, remembers what was applied. */
  function Reset(st: Store, key: string): Store {
    if key !in st.devices then st
    else Store(st.devices[key := st.devices[key].(count := 0, errorCount := 0, bytes := 0, p95Nanos := 0, p99Nanos := 0,
                                                  percentileSample := 0)],
               st.metrics.(deviceResets := st.metrics.deviceResets + 1))
  }

  /** What a reader sees for a key, a device never heard of reading as nothing. */
  function Counters(st: Store, key: string): Totals {
    if key in st.devices then CountersOf(st.devices[key]) else ZERO
  }

  function Applied(st: Store, key: string): set<string> {
    if key in st.devices then st.devices[key].applied else {}
  }

  predicate SameRecord(st: Store, st': Store, key: string) {
    if key in st.devices then key in st'.devices && st'.devices[key] == st.devices[key] else key !in st'.devices
  }

  /** One application adds its emission to its own device, or nothing if it was applied before, and
      leaves every other device alone. */
  lemma ApplyEffect(st: Store, w: AggregateWindow, key: string)
    ensures var st' := Apply(st, w);
            var counts := key == DeviceKey(w) && Identity(w) !in Applied(st, key);
            && Counters(st', key) == (if counts then Plus(Counters(st, key), TotalsOf(w)) else Counters(st, key))
            && Applied(st', key) == Applied(st, key) + (if key == DeviceKey(w) then {Identity(w)} else {})
            && (key != DeviceKey(w) ==> SameRecord(st, st', key))
  {
    hide Identity, DeviceScope;
  }

  // ---- Deliveries and resets, in any order and number ----

  datatype Op = Deliver(window: AggregateWindow) | ResetOf(key: string)

  function Do(st: Store, op: Op): Store {
    match op case Deliver(w) => Apply(st, w) case ResetOf(key) => Reset(st, key)
  }

  function DoAll(ops: seq<Op>): Store {
    if ops == [] then EMPTY else Do(DoAll(ops[..|ops| - 1]), ops[|ops| - 1])
  }

  predicate DeliversTo(op: Op, key: string) { op.Deliver? && DeviceKey(op.window) == key }

  /** Operation `i` is the first delivery of its emission to this device. */
  ghost predicate First(ops: seq<Op>, i: nat, key: string)
    requires i < |ops|
  {
    && DeliversTo(ops[i], key)
    && forall j: nat :: j < i && DeliversTo(ops[j], key) ==> Identity(ops[j].window) != Identity(ops[i].window)
  }

  /** ... and no reset of the device came after it. */
  ghost predicate StandsAfterReset(ops: seq<Op>, i: nat, key: string)
    requires i < |ops|
  {
    First(ops, i, key) && forall j: nat :: i < j < |ops| ==> ops[j] != ResetOf(key)
  }

  ghost function Standing(ops: seq<Op>, key: string): set<nat> {
    set i: nat | i < |ops| && StandsAfterReset(ops, i, key)
  }

  /** The totals of the deliveries at the given positions. */
  function TallyOps(ops: seq<Op>, ids: set<nat>): Totals {
    if ops == [] then ZERO
    else
      var last := |ops| - 1;
      var before := TallyOps(ops[..last], ids);
      if last in ids && ops[last].Deliver? then Plus(before, TotalsOf(ops[last].window)) else before
  }

  lemma {:induction false} TallyOpsSame(ops: seq<Op>, ids: set<nat>, ids': set<nat>)
    requires forall i: nat :: i < |ops| ==> (i in ids <==> i in ids')
    ensures TallyOps(ops, ids) == TallyOps(ops, ids')
  {
    if ops != [] { TallyOpsSame(ops[..|ops| - 1], ids, ids'); }
  }

  lemma {:induction false} TallyOpsNone(ops: seq<Op>, ids: set<nat>)
    requires forall i: nat :: i < |ops| ==> i !in ids
    ensures TallyOps(ops, ids) == ZERO
  {
    if ops != [] { TallyOpsNone(ops[..|ops| - 1], ids); }
  }

  /** The identities remembered for a device are those delivered to it. */
  lemma {:induction false} AppliedIsDelivered(ops: seq<Op>, key: string, id: string)
    ensures id in Applied(DoAll(ops), key) <==>
            exists j: nat :: j < |ops| && DeliversTo(ops[j], key) && Identity(ops[j].window) == id
  {
    hide Identity, DeviceScope;
    if ops != [] {
      var front, last := ops[..|ops| - 1], |ops| - 1;
      AppliedIsDelivered(front, key, id);
      assert forall j: nat :: j < last ==> front[j] == ops[j];
      if ops[last].Deliver? { ApplyEffect(DoAll(front), ops[last].window, key); }
    }
  }

  /** The standing deliveries after one more operation. */
  lemma StandingStep(ops: seq<Op>, key: string, i: nat)
    requires ops != [] && i < |ops|
    ensures var front, last := ops[..|ops| - 1], |ops| - 1;
            StandsAfterReset(ops, i, key) <==>
              if i == last then DeliversTo(ops[last], key) && Identity(ops[last].window) !in Applied(DoAll(front), key)
              else ops[last] != ResetOf(key) && StandsAfterReset(front, i, key)
  {
    hide Identity, DeviceScope, Do;
    var front, last := ops[..|ops| - 1], |ops| - 1;
    assert forall j: nat :: j < last ==> front[j] == ops[j];
    if i == last && ops[last].Deliver? {
      AppliedIsDelivered(front, key, Identity(ops[last].window));
    }
  }

  /** The law of the store. After any deliveries and resets, a device's counters are the sums over the
      emissions first applied to it since its last reset, each once. */
  lemma {:induction false} CountersAreStanding(ops: seq<Op>, key: string)
    ensures Counters(DoAll(ops), key) == TallyOps(ops, Standing(ops, key))
  {
    hide Identity, DeviceScope, StandsAfterReset, Apply;
    if ops != [] {
      var front, last := ops[..|ops| - 1], |ops| - 1;
      CountersAreStanding(front, key);
      forall i: nat | i < |ops|
        ensures i in Standing(ops, key) <==>
                if i == last then DeliversTo(ops[last], key)
                  && Identity(ops[last].window) !in Applied(DoAll(front), key)
                else ops[last] != ResetOf(key) && i in Standing(front, key)
      {
        StandingStep(ops, key, i);
      }
      if ops[last] == ResetOf(key) {
        TallyOpsNone(front, Standing(ops, key));
      } else {
        TallyOpsSame(front, Standing(ops, key), Standing(front, key));
        if ops[last].Deliver? { ApplyEffect(DoAll(front), ops[last].window, key); }
      }
    }
  }

  // ---- The object ----

  class Memory {
    var devices: map<string, DeviceRecord>
    var metrics: Metrics

    ghost function View(): Store
      reads this
    {
      Store(devices, metrics)
    }

    constructor ()
      ensures View() == EMPTY
    {
      devices, metrics := EMPTY.devices, EMPTY.metrics;
    }

    method ApplyWindow(w: AggregateWindow)
      modifies this
      ensures View() == Apply(old(View()), w)
    {
      hide Identity, DeviceScope;
      var key, identity := DeviceKey(w), Identity(w);
      if key !in devices {
        devices := devices[key := NewRecord(w.key.userID, w.key.deviceID)];
      }
      var record := devices[key];
      if identity in record.applied {
        metrics := metrics.(windowsDuplicate := metrics.windowsDuplicate + 1);
        return;
      }
      var lastWindowID, lastSeen := record.lastWindowID, record.lastSeen;
      record := record.(applied := record.applied + {identity}, count := record.count + w.count,
                        errorCount := record.errorCount + w.errorCount, bytes := record.bytes + w.bytes);
      if w.windowID > lastWindowID {
        record := record.(lastWindowID := w.windowID, p95Nanos := w.p95Nanos, p99Nanos := w.p99Nanos,
                          lastSeen := At(w.windowEnd), percentileSample := w.count);
      } else if w.windowID == lastWindowID {
        if w.count > record.percentileSample {
          record := record.(p95Nanos := w.p95Nanos, p99Nanos := w.p99Nanos, percentileSample := w.count);
        }
        if After(w.windowEnd, lastSeen) { record := record.(lastSeen := At(w.windowEnd)); }
      }
      devices := devices[key := record];
      metrics := metrics.(windowsApplied := metrics.windowsApplied + 1,
                          eventsCounted := metrics.eventsCounted + w.count,
                          errorsCounted := metrics.errorsCounted + w.errorCount);
    }

    /** Answers whether the device was known. */
    method ResetDevice(userID: string, deviceID: string) returns (found: bool)
      modifies this
      ensures found == (DeviceScope(userID, deviceID) in old(devices))
      ensures View() == Reset(old(View()), DeviceScope(userID, deviceID))
    {
      hide DeviceScope;
      var key := DeviceScope(userID, deviceID);
      if key !in devices { return false; }
      devices := devices[key := devices[key].(count := 0, errorCount := 0, bytes := 0, p95Nanos := 0, p99Nanos := 0,
                                              percentileSample := 0)];
      metrics := metrics.(deviceResets := metrics.deviceResets + 1);
      return true;
    }
  }
}
