/** The windowed aggregator (internal/aggregate/aggregator.go): what one call of each kind does to the open
    windows, the pending emissions, the sequence and the shed counter. */
module Aggregation {
  import opened DecimalText
  import opened Domain
  import opened Ordering

  /** The sketch a window feeds, known only through its interface: quantiles, which may fail, and the
      largest value, each a function of the values added. */
  datatype SketchApi = SketchApi(quantile: (seq<int>, real) -> Option<int>, peak: seq<int> -> int)

  function QuantileFrom(api: SketchApi, samples: seq<int>, q: real): Option<int> { api.quantile(samples, q) }

  function PeakFrom(api: SketchApi, samples: seq<int>): int { api.peak(samples) }

  datatype Config = Config(windowSize: int, maxOpenWindows: int, sketch: SketchApi)

  predicate ValidConfig(c: Config) { c.windowSize > 0 && c.maxOpenWindows >= 0 }

  datatype WindowKey = WindowKey(correlation: CorrelationKey, windowID: int)

  datatype WindowState = WindowState(count: int, errorCount: int, bytes: int, samples: seq<int>)

  datatype Agg = Agg(
    open: map<WindowKey, WindowState>, pending: map<string, AggregateWindow>, sequence: int, shed: int)

  function Start(seed: int): Agg { Agg(map[], map[], seed, 0) }

  // ---- Window ids ----

  /** Go's integer division, which truncates toward zero. */
  function TruncDiv(a: int, b: int): int
    requires b > 0
  {
    if a >= 0 then a / b else -((-a) / b)
  }

  function WindowID(c: Config, nanos: int): int
    requires ValidConfig(c)
  {
    TruncDiv(nanos, c.windowSize)
  }

  function WindowStart(c: Config, windowID: int): int { windowID * c.windowSize }

  function WindowEnd(c: Config, windowID: int): int { WindowStart(c, windowID) + c.windowSize }

  lemma DivBound(a: int, b: int, k: int)
    requires b > 0
    ensures k * b <= a <==> k <= a / b
  {
    if k <= a / b {
      MulMonotone(k, a / b, b);
    } else {
      MulMonotone(a / b + 1, k, b);
    }
  }

  lemma MulMonotone(x: int, y: int, b: int)
    requires x <= y && b > 0
    ensures x * b <= y * b
  {
  }

  /** The test `windowID < WindowID(watermark)` says that the window has ended by the watermark, except
      for one window: the one a watermark before the epoch falls inside, which is closed early. */
  lemma ClosedMeansEnded(c: Config, windowID: int, watermark: int)
    requires ValidConfig(c)
    ensures (windowID < WindowID(c, watermark) <==> WindowEnd(c, windowID) <= watermark)
       <==> !(watermark < 0 && WindowStart(c, windowID) < watermark < WindowEnd(c, windowID))
  {
    var size := c.windowSize;
    assert WindowEnd(c, windowID) == (windowID + 1) * size;
    if watermark >= 0 {
      DivBound(watermark, size, windowID + 1);
    } else {
      DivBound(-watermark, size, -windowID);
      DivBound(-watermark, size, -windowID - 1);
      assert (-windowID) * size == -(windowID * size);
      assert (-windowID - 1) * size == -((windowID + 1) * size);
    }
  }

  /** For non-negative times the test is exactly that. */
  lemma ClosedMeansEndedAfterEpoch(c: Config, windowID: int, watermark: int)
    requires ValidConfig(c) && watermark >= 0
    ensures windowID < WindowID(c, watermark) <==> WindowEnd(c, windowID) <= watermark
  {
    ClosedMeansEnded(c, windowID, watermark);
  }

  // ---- Ingestion ----

  function KeyOf(c: Config, e: Event): WindowKey
    requires ValidConfig(c) && e.Valid()
  {
    WindowKey(e.Correlation(), WindowID(c, e.observedAt.nanos))
  }

  /** The times a window takes in: from its start to before its end; before the epoch, where the division rounds
      up, from after the previous window's start to its own. */
  predicate Covers(c: Config, windowID: int, nanos: int) {
    if nanos >= 0 then windowID * c.windowSize <= nanos < (windowID + 1) * c.windowSize
    else (windowID - 1) * c.windowSize < nanos <= windowID * c.windowSize
  }

  /** An event's window carries the event's identifiers and takes in its time. */
  lemma KeyHoldsEvent(c: Config, e: Event)
    requires ValidConfig(c) && e.Valid()
    ensures KeyOf(c, e).correlation == CorrelationKey(e.userID, e.deviceID, e.processID, e.podID)
    ensures Covers(c, KeyOf(c, e).windowID, e.observedAt.nanos)
  {
    var t, size := e.observedAt.nanos, c.windowSize;
    var id := KeyOf(c, e).windowID;
    if t >= 0 {
      DivBound(t, size, id);
      DivBound(t, size, id + 1);
    } else {
      DivBound(-t, size, -id);
      DivBound(-t, size, -id + 1);
      assert (-id) * size == -(id * size) && (-id + 1) * size == -((id - 1) * size);
    }
  }

  /** No time is taken in by two windows. */
  lemma CoversOnce(c: Config, m: int, n: int, nanos: int)
    requires ValidConfig(c) && Covers(c, m, nanos) && Covers(c, n, nanos)
    ensures m == n
  {
    if m < n {
      MulMonotone(m + 1, n, c.windowSize);
      MulMonotone(m, n - 1, c.windowSize);
    } else if n < m {
      MulMonotone(n + 1, m, c.windowSize);
      MulMonotone(n, m - 1, c.windowSize);
    }
  }

  /** A time a window takes in lies between its start and its end exactly when it is not before the epoch, or
      is the start itself. */
  lemma CoversMeansWithin(c: Config, windowID: int, nanos: int)
    requires ValidConfig(c) && Covers(c, windowID, nanos)
    ensures WindowStart(c, windowID) <= nanos < WindowEnd(c, windowID)
       <==> nanos >= 0 || nanos == windowID * c.windowSize
  {
    assert (windowID + 1) * c.windowSize == windowID * c.windowSize + c.windowSize;
  }

  function HeldWindows(a: Agg): int { |a.open| + |a.pending| }

  datatype Verdict = Admitted | Shed | SketchFailed

  function Count(s: WindowState, e: Event): WindowState {
    WindowState(s.count + 1, s.errorCount + if e.failed then 1 else 0, s.bytes + e.bytes, s.samples + [e.latencyNanos])
  }

  const FRESH := WindowState(0, 0, 0, [])

  /** `ingestLocked`; `sketchOk` is what the sketch factory answered. */
  function IngestOne(c: Config, a: Agg, e: Event, sketchOk: bool): (Agg, Verdict)
    requires ValidConfig(c) && e.Valid()
  {
    var key := KeyOf(c, e);
    if key in a.open then (a.(open := a.open[key := Count(a.open[key], e)]), Admitted)
    else if c.maxOpenWindows > 0 && HeldWindows(a) >= c.maxOpenWindows then (a.(shed := a.shed + 1), Shed)
    else if !sketchOk then (a, SketchFailed)
    else (a.(open := a.open[key := Count(FRESH, e)]), Admitted)
  }

  /** The window an event belongs to, said by its identifiers and its time. */
  predicate Takes(c: Config, key: WindowKey, e: Event) {
    e.observedAt.At? && Covers(c, key.windowID, e.observedAt.nanos)
    && key.correlation.userID == e.userID && key.correlation.deviceID == e.deviceID
    && key.correlation.processID == e.processID && key.correlation.podID == e.podID
  }

  lemma TakesIsKey(c: Config, key: WindowKey, e: Event)
    requires ValidConfig(c) && e.Valid()
    ensures Takes(c, key, e) <==> key == KeyOf(c, e)
  {
    KeyHoldsEvent(c, e);
    hide KeyOf, Covers;
    if Takes(c, key, e) { CoversOnce(c, key.windowID, KeyOf(c, e).windowID, e.observedAt.nanos); }
  }

  /** What one event does. It is shed exactly when no open window takes it, the ceiling is positive and open and
      pending windows have reached it; it fails exactly when a window would have to be opened and its sketch
      cannot be made; else the one window that takes it grows by it, or opens with it. */
  ghost predicate Ingests(c: Config, a: Agg, e: Event, sketchOk: bool, a': Agg, verdict: Verdict) {
    var known := exists key :: key in a.open && Takes(c, key, e);
    var full := c.maxOpenWindows > 0 && |a.open| + |a.pending| >= c.maxOpenWindows;
    && (verdict.Shed? <==> !known && full)
    && (verdict.SketchFailed? <==> !known && !full && !sketchOk)
    && a'.pending == a.pending && a'.sequence == a.sequence
    && a'.shed == a.shed + (if verdict.Shed? then 1 else 0)
    && (!verdict.Admitted? ==> a'.open == a.open)
    && (verdict.Admitted? ==> exists key :: Takes(c, key, e) && CountsOne(a.open, a'.open, key, e))
  }

  lemma IngestMeaning(c: Config, a: Agg, e: Event, sketchOk: bool)
    requires ValidConfig(c) && e.Valid()
    ensures var (a', verdict) := IngestOne(c, a, e, sketchOk); Ingests(c, a, e, sketchOk, a', verdict)
  {
    IngestByKey(c, a, e, sketchOk);
    hide KeyOf, Covers, Takes, IngestOne, CountsOne;
    forall key ensures Takes(c, key, e) <==> key == KeyOf(c, e) { TakesIsKey(c, key, e); }
    assert KeyOf(c, e) in a.open ==> Takes(c, KeyOf(c, e), e);
  }

  lemma IngestByKey(c: Config, a: Agg, e: Event, sketchOk: bool)
    requires ValidConfig(c) && e.Valid()
    ensures var (a', verdict) := IngestOne(c, a, e, sketchOk);
            var known := KeyOf(c, e) in a.open;
            var full := c.maxOpenWindows > 0 && |a.open| + |a.pending| >= c.maxOpenWindows;
            && (verdict.Shed? <==> !known && full)
            && (verdict.SketchFailed? <==> !known && !full && !sketchOk)
            && a'.pending == a.pending && a'.sequence == a.sequence
            && a'.shed == a.shed + (if verdict.Shed? then 1 else 0)
            && (!verdict.Admitted? ==> a'.open == a.open)
            && (verdict.Admitted? ==> CountsOne(a.open, a'.open, KeyOf(c, e), e))
  {
    hide KeyOf, CountsOne;
    OneMoreCounted(a.open, KeyOf(c, e), e);
  }

  lemma OneMoreCounted(open: map<WindowKey, WindowState>, key: WindowKey, e: Event)
    ensures CountsOne(open, open[key := Count(if key in open then open[key] else FRESH, e)], key, e)
  {
  }

  /** One window counts one more event, as its first or after the others; the rest stay as they are. */
  predicate CountsOne(open: map<WindowKey, WindowState>, open': map<WindowKey, WindowState>, key: WindowKey, e: Event) {
    && open'.Keys == open.Keys + {key}
    && (forall k :: k in open && k != key ==> open'[k] == open[k])
    && var s := if key in open then open[key] else WindowState(0, 0, 0, []);
       && open'[key].count == s.count + 1 && open'[key].bytes == s.bytes + e.bytes
       && open'[key].errorCount == (if e.failed then s.errorCount + 1 else s.errorCount)
       && open'[key].samples == s.samples + [e.latencyNanos]
  }

  datatype Ingested = Ingested(agg: Agg, admitted: seq<Event>, failed: bool)

  /** The batch loop: a shed event is skipped, a failed sketch factory ends the batch. */
  function IngestAll(c: Config, a: Agg, events: seq<Event>, sketchOk: seq<bool>): Ingested
    requires ValidConfig(c) && |sketchOk| == |events|
    requires forall e :: e in events ==> e.Valid()
  {
    if events == [] then Ingested(a, [], false)
    else
      var last := |events| - 1;
      var r := IngestAll(c, a, events[..last], sketchOk[..last]);
      if r.failed then r
      else
        var (agg, verdict) := IngestOne(c, r.agg, events[last], sketchOk[last]);
        Ingested(agg, r.admitted + if verdict.Admitted? then [events[last]] else [], verdict.SketchFailed?)
  }

  /** `IngestBatch`: one invalid event refuses the whole batch before anything is counted. */
  function IngestBatch(c: Config, a: Agg, events: seq<Event>, sketchOk: seq<bool>): Ingested
    requires ValidConfig(c) && |sketchOk| == |events|
  {
    if forall e :: e in events ==> e.Valid() then IngestAll(c, a, events, sketchOk) else Ingested(a, [], true)
  }

  /** Every event of a batch that ran through is either admitted or counted as shed. */
  lemma {:induction false} BatchAccounting(c: Config, a: Agg, events: seq<Event>, sketchOk: seq<bool>)
    requires ValidConfig(c) && |sketchOk| == |events|
    requires forall e :: e in events ==> e.Valid()
    requires forall i :: 0 <= i < |sketchOk| ==> sketchOk[i]
    ensures var r := IngestAll(c, a, events, sketchOk); !r.failed && |r.admitted| + r.agg.shed == |events| + a.shed
  {
    if events != [] {
      BatchAccounting(c, a, events[..|events| - 1], sketchOk[..|events| - 1]);
      hide WindowID;
    }
  }

  // ---- Collection ----

  /** The emission a window turns into, or nothing when its sketch cannot answer. */
  function EmissionOf(c: Config, key: WindowKey, s: WindowState, sequence: int): Option<AggregateWindow> {
    match (QuantileFrom(c.sketch, s.samples, 0.95), QuantileFrom(c.sketch, s.samples, 0.99))
    case (Some(p95), Some(p99)) =>
      Some(AggregateWindow(key.correlation, key.windowID, sequence, WindowStart(c, key.windowID),
                           WindowEnd(c, key.windowID),
                           s.count, s.errorCount, s.bytes, p95, p99, PeakFrom(c.sketch, s.samples)))
    case _ => None
  }

  /** Moves one window from open to pending under the next sequence. */
  function Emit(a: Agg, key: WindowKey, w: AggregateWindow): Agg {
    a.(open := a.open - {key}, pending := a.pending[Identity(w) := w], sequence := a.sequence + 1)
  }

  datatype Collected = Collected(agg: Agg, windows: seq<AggregateWindow>, failed: bool)

  /** The collection loop over the selected keys; a sketch failure ends it part-way. */
  function EmitKeys(c: Config, a: Agg, keys: seq<WindowKey>): Collected {
    if keys == [] then Collected(a, [], false)
    else
      var last := |keys| - 1;
      var r := EmitKeys(c, a, keys[..last]);
      if r.failed || keys[last] !in r.agg.open then r
      else
        match EmissionOf(c, keys[last], r.agg.open[keys[last]], r.agg.sequence + 1)
        case None => r.(failed := true)
        case Some(w) => Collected(Emit(r.agg, keys[last], w), r.windows + [w], false)
  }

  /** Which windows a collection takes: all, or those before a window id. */
  datatype Selection = Everything | Before(boundary: int)

  predicate Selects(s: Selection, key: WindowKey) { s.Everything? || key.windowID < s.boundary }

  function Selected(a: Agg, s: Selection): set<WindowKey> {
    set key | key in a.open && Selects(s, key)
  }

  // ---- The two sort orders ----

  predicate PodBefore(a: CorrelationKey, b: CorrelationKey) { StringLess(a.podID, b.podID) }

  predicate ProcessBefore(a: CorrelationKey, b: CorrelationKey) {
    if a.processID != b.processID then a.processID < b.processID else PodBefore(a, b)
  }

  predicate DeviceBefore(a: CorrelationKey, b: CorrelationKey) {
    if a.deviceID != b.deviceID then StringLess(a.deviceID, b.deviceID) else ProcessBefore(a, b)
  }

  predicate UserBefore(a: CorrelationKey, b: CorrelationKey) {
    if a.userID != b.userID then StringLess(a.userID, b.userID) else DeviceBefore(a, b)
  }

  /** `windowKey.before`. */
  predicate KeyBefore(a: WindowKey, b: WindowKey) {
    if a.windowID != b.windowID then a.windowID < b.windowID else UserBefore(a.correlation, b.correlation)
  }

  lemma ProcessBeforeWeak()
    ensures WeakOrder(ProcessBefore)
    ensures forall a, b :: !ProcessBefore(a, b) && !ProcessBefore(b, a) ==>
              a.processID == b.processID && a.podID == b.podID
  {
    StringLessTotal();
  }

  lemma DeviceBeforeWeak()
    ensures WeakOrder(DeviceBefore)
    ensures forall a, b :: !DeviceBefore(a, b) && !DeviceBefore(b, a) ==>
      a.deviceID == b.deviceID && a.processID == b.processID && a.podID == b.podID
  {
    StringLessTotal();
    ProcessBeforeWeak();
  }

  lemma UserBeforeTotal()
    ensures TotalOrder(UserBefore)
  {
    StringLessTotal();
    DeviceBeforeWeak();
  }

  /** The emission order is a strict total order of window keys. */
  lemma KeyBeforeTotal()
    ensures TotalOrder(KeyBefore)
  {
    UserBeforeTotal();
  }

  ghost function SelectedInOrder(a: Agg, s: Selection): (keys: seq<WindowKey>)
    ensures forall key :: key in keys <==> key in a.open && Selects(s, key)
    ensures forall i, j :: 0 <= i < j < |keys| ==> keys[i] != keys[j]
  {
    KeyBeforeTotal();
    SortedSet(KeyBefore, Selected(a, s))
  }

  function WindowsAt(pending: map<string, AggregateWindow>, ids: seq<string>): (ws: seq<AggregateWindow>)
    requires forall id :: id in ids ==> id in pending
  {
    seq(|ids|, i requires 0 <= i < |ids| => pending[ids[i]])
  }

  /** The pending emissions in order of identity. */
  ghost function PendingInOrder(pending: map<string, AggregateWindow>): seq<AggregateWindow> {
    StringLessTotal();
    WindowsAt(pending, SortedSet(StringLess, pending.Keys))
  }

  /** Every pending emission is listed, once, and nothing else is. */
  lemma PendingListed(pending: map<string, AggregateWindow>)
    ensures |PendingInOrder(pending)| == |pending|
    ensures forall id :: id in pending ==> pending[id] in PendingInOrder(pending)
    ensures forall w :: w in PendingInOrder(pending) ==> exists id :: id in pending && pending[id] == w
  {
    StringLessTotal();
    var ids := SortedSet(StringLess, pending.Keys);
    var ws := PendingInOrder(pending);
    forall id | id in pending
      ensures pending[id] in ws
    {
      var i :| 0 <= i < |ids| && ids[i] == id;
      assert ws[i] == pending[id];
    }
    forall w | w in ws
      ensures exists id :: id in pending && pending[id] == w
    {
      var i :| 0 <= i < |ws| && ws[i] == w;
      assert ids[i] in pending && pending[ids[i]] == w;
    }
  }

  /** `collect`: the emissions still pending, then the selected windows, as new emissions, in key order.
      Nothing here depends on the order in which the maps are iterated. */
  ghost function Collect(c: Config, a: Agg, s: Selection): Collected {
    var r := EmitKeys(c, a, SelectedInOrder(a, s));
    r.(windows := if r.failed then [] else PendingInOrder(a.pending) + r.windows)
  }

  /** `Commit`: forgets the given emissions. */
  function Commit(a: Agg, windows: seq<AggregateWindow>): Agg {
    a.(pending := a.pending - (set w | w in windows :: Identity(w)))
  }

  /** A sketch that always answers never cuts a collection short; it empties the selected windows. */
  ghost predicate AlwaysAnswers(api: SketchApi) {
    forall samples :: QuantileFrom(api, samples, 0.95).Some? && QuantileFrom(api, samples, 0.99).Some?
  }

  lemma {:induction false} EmitKeysEmpties(c: Config, a: Agg, keys: seq<WindowKey>)
    requires AlwaysAnswers(c.sketch)
    ensures var r := EmitKeys(c, a, keys);
            && !r.failed
            && (forall key :: key in r.agg.open <==> key in a.open && key !in keys)
            && r.agg.shed == a.shed
            && (forall id :: id in r.agg.pending ==> id in a.pending || exists w :: w in r.windows && Identity(w) == id)
  {
    hide Identity;
    if keys != [] {
      var front, key := keys[..|keys| - 1], keys[|keys| - 1];
      assert keys == front + [key];
      EmitKeysEmpties(c, a, front);
    }
  }

  // ---- What a collection returns ----

  /** The window is over at the watermark; before the epoch, also when the watermark falls inside it. */
  predicate Closed(c: Config, windowID: int, watermark: int) {
    var start, end := windowID * c.windowSize, (windowID + 1) * c.windowSize;
    end <= watermark || (watermark < 0 && start < watermark < end)
  }

  lemma BeforeIsClosed(c: Config, key: WindowKey, watermark: int)
    requires ValidConfig(c)
    ensures Selects(Before(WindowID(c, watermark)), key) <==> Closed(c, key.windowID, watermark)
  {
    assert (key.windowID + 1) * c.windowSize == key.windowID * c.windowSize + c.windowSize;
    ClosedMeansEnded(c, key.windowID, watermark);
  }

  /** An emission shows a window: its identifiers and times, what it counted, and its sketch's answers. */
  predicate ShowsWindow(c: Config, w: AggregateWindow, key: WindowKey, s: WindowState) {
    && w.key == key.correlation && w.windowID == key.windowID
    && w.windowStart == key.windowID * c.windowSize && w.windowEnd == (key.windowID + 1) * c.windowSize
    && w.count == s.count && w.errorCount == s.errorCount && w.bytes == s.bytes
    && Some(w.p95Nanos) == QuantileFrom(c.sketch, s.samples, 0.95)
    && Some(w.p99Nanos) == QuantileFrom(c.sketch, s.samples, 0.99)
    && w.maxNanos == PeakFrom(c.sketch, s.samples)
  }

  lemma EmissionShows(c: Config, key: WindowKey, s: WindowState, sequence: int)
    ensures var w := EmissionOf(c, key, s, sequence);
            w.Some? ==> ShowsWindow(c, w.value, key, s) && w.value.sequence == sequence
  {
    assert (key.windowID + 1) * c.windowSize == key.windowID * c.windowSize + c.windowSize;
  }

  /** One emission for each key, in order, under the next sequences; the other windows stay as they are. */
  lemma {:induction false} EmitKeysList(c: Config, a: Agg, keys: seq<WindowKey>)
    requires forall i, j :: 0 <= i < j < |keys| ==> keys[i] != keys[j]
    requires forall i :: 0 <= i < |keys| ==> keys[i] in a.open
    ensures var r := EmitKeys(c, a, keys);
            && (!r.failed ==>
                  && |r.windows| == |keys|
                  && (forall i :: 0 <= i < |keys| ==> ShowsWindow(c, r.windows[i], keys[i], a.open[keys[i]]))
                  && (forall i :: 0 <= i < |keys| ==> r.windows[i].sequence == a.sequence + 1 + i)
                  && r.agg.sequence == a.sequence + |keys|
                  && forall key :: key in r.agg.open <==> key in a.open && key !in keys)
            && (forall key :: key in a.open && key !in keys ==> key in r.agg.open)
            && (forall key :: key in r.agg.open ==> key in a.open && r.agg.open[key] == a.open[key])
  {
    hide Identity, EmissionOf, ShowsWindow;
    if keys != [] {
      var last := |keys| - 1;
      var front := keys[..last];
      assert keys == front + [keys[last]];
      EmitKeysList(c, a, front);
      var r := EmitKeys(c, a, front);
      if !r.failed { EmissionShows(c, keys[last], a.open[keys[last]], r.agg.sequence + 1); }
    }
  }

  ghost predicate Filed(pending: map<string, AggregateWindow>) {
    forall id :: id in pending ==> Identity(pending[id]) == id
  }

  ghost predicate ByIdentity(ws: seq<AggregateWindow>) {
    forall i, j :: 0 <= i < j < |ws| ==> StringLess(Identity(ws[i]), Identity(ws[j]))
  }

  /** The emissions still pending, each once, in order of identity. */
  ghost predicate Relists(pending: map<string, AggregateWindow>, ws: seq<AggregateWindow>) {
    && |ws| == |pending|
    && (forall id :: id in pending ==> pending[id] in ws)
    && (forall w :: w in ws ==> exists id :: id in pending && pending[id] == w)
    && (Filed(pending) ==> ByIdentity(ws))
  }

  /** An emission of one of the windows due. */
  ghost predicate Emitted(c: Config, open: map<WindowKey, WindowState>, due: set<WindowKey>, w: AggregateWindow) {
    exists key :: key in due && key in open && ShowsWindow(c, w, key, open[key])
  }

  ghost predicate Listed(c: Config, ws: seq<AggregateWindow>, key: WindowKey, s: WindowState) {
    exists i :: 0 <= i < |ws| && ShowsWindow(c, ws[i], key, s)
  }

  /** Earlier windows first, and within a window by user, device, process and pod. */
  predicate Follows(v: AggregateWindow, w: AggregateWindow) {
    && v.windowID <= w.windowID
    && (v.windowID == w.windowID ==>
          && !StringLess(w.key.userID, v.key.userID)
          && (v.key.userID == w.key.userID ==>
                && !StringLess(w.key.deviceID, v.key.deviceID)
                && (v.key.deviceID == w.key.deviceID ==>
                      && v.key.processID <= w.key.processID
                      && (v.key.processID == w.key.processID ==> !StringLess(w.key.podID, v.key.podID)))))
  }

  /** The windows due, each once, in order, under the next sequences. */
  ghost predicate Emits(c: Config, a: Agg, ws: seq<AggregateWindow>, due: set<WindowKey>) {
    && |ws| == |due|
    && (forall i :: 0 <= i < |ws| ==> Emitted(c, a.open, due, ws[i]))
    && (forall key :: key in due ==> key in a.open && Listed(c, ws, key, a.open[key]))
    && (forall i, j :: 0 <= i < j < |ws| ==> Follows(ws[i], ws[j]))
    && (forall i :: 0 <= i < |ws| ==> ws[i].sequence == a.sequence + 1 + i)
  }

  /** A complete collection of the windows due: they leave and nothing else does, and what is returned is what was
      pending, then those windows. */
  ghost predicate Collects(
    c: Config, a: Agg, open': map<WindowKey, WindowState>, windows: seq<AggregateWindow>, due: set<WindowKey>)
  {
    && open' == a.open - due
    && |a.pending| <= |windows|
    && Relists(a.pending, windows[..|a.pending|])
    && Emits(c, a, windows[|a.pending|..], due)
  }

  lemma PendingRelists(pending: map<string, AggregateWindow>)
    ensures Relists(pending, PendingInOrder(pending))
  {
    PendingListed(pending);
    if Filed(pending) { PendingByIdentity(pending); }
    hide PendingInOrder, Filed, ByIdentity;
  }

  lemma PendingByIdentity(pending: map<string, AggregateWindow>)
    requires Filed(pending)
    ensures ByIdentity(PendingInOrder(pending))
  {
    hide Identity, StringLess;
    StringLessTotal();
  }

  lemma KeyFollows(m: WindowKey, n: WindowKey, v: AggregateWindow, w: AggregateWindow)
    requires !KeyBefore(n, m)
    requires v.key == m.correlation && v.windowID == m.windowID && w.key == n.correlation && w.windowID == n.windowID
    ensures Follows(v, w)
  {
    StringLessTotal();
    hide StringLess;
  }

  /** The keys of the windows due, in key order. */
  ghost predicate DueInOrder(keys: seq<WindowKey>, due: set<WindowKey>) {
    && (forall i, j :: 0 <= i < j < |keys| ==> keys[i] != keys[j] && !KeyBefore(keys[j], keys[i]))
    && (forall key :: key in keys <==> key in due)
  }

  lemma SelectedDue(a: Agg, s: Selection, due: set<WindowKey>)
    requires due == set key | key in a.open && Selects(s, key)
    ensures DueInOrder(SelectedInOrder(a, s), due)
  {
    hide KeyBefore, Selects;
    KeyBeforeTotal();
  }

  lemma KeysEmitted(c: Config, a: Agg, due: set<WindowKey>, keys: seq<WindowKey>, ws: seq<AggregateWindow>)
    requires DueInOrder(keys, due) && due <= a.open.Keys && |ws| == |keys|
    requires forall i :: 0 <= i < |keys| ==> keys[i] in a.open && ShowsWindow(c, ws[i], keys[i], a.open[keys[i]])
    requires forall i :: 0 <= i < |keys| ==> ws[i].sequence == a.sequence + 1 + i
    ensures Emits(c, a, ws, due)
  {
    hide KeyBefore, StringLess;
    KeysAreDue(keys, due);
    forall i, j | 0 <= i < j < |ws|
      ensures Follows(ws[i], ws[j])
    {
      KeyFollows(keys[i], keys[j], ws[i], ws[j]);
    }
    hide Follows;
    forall i | 0 <= i < |ws|
      ensures Emitted(c, a.open, due, ws[i])
    {
      assert keys[i] in keys;
    }
    hide ShowsWindow;
    forall key | key in due
      ensures key in a.open && Listed(c, ws, key, a.open[key])
    {
      var i :| 0 <= i < |keys| && keys[i] == key;
    }
  }

  lemma DueDistinct(keys: seq<WindowKey>, due: set<WindowKey>)
    requires DueInOrder(keys, due)
    ensures forall i, j :: 0 <= i < j < |keys| ==> keys[i] != keys[j]
    ensures forall i :: 0 <= i < |keys| ==> keys[i] in due
    ensures forall key :: key in keys <==> key in due
  {
    hide KeyBefore;
    assert forall i :: 0 <= i < |keys| ==> keys[i] in keys;
  }

  lemma KeysCollect(c: Config, a: Agg, keys: seq<WindowKey>, due: set<WindowKey>)
    requires DueInOrder(keys, due) && due <= a.open.Keys
    ensures var r := EmitKeys(c, a, keys);
            && (!r.failed ==> r.agg.open == a.open - due && Emits(c, a, r.windows, due))
            && (AlwaysAnswers(c.sketch) ==> !r.failed)
            && (forall key :: key in a.open && key !in due ==> key in r.agg.open && r.agg.open[key] == a.open[key])
  {
    DueDistinct(keys, due);
    EmitKeysList(c, a, keys);
    if AlwaysAnswers(c.sketch) { EmitKeysEmpties(c, a, keys); }
    var r := EmitKeys(c, a, keys);
    hide EmitKeys, AlwaysAnswers, ShowsWindow, DueInOrder, Emits;
    if !r.failed { KeysEmitted(c, a, due, keys, r.windows); }
  }

  /** What a collection of the windows due returns and leaves; cut short, it still leaves all the others. */
  lemma CollectMeaning(c: Config, a: Agg, s: Selection, due: set<WindowKey>)
    requires due == set key | key in a.open && Selects(s, key)
    ensures var r := Collect(c, a, s);
            && (!r.failed ==> Collects(c, a, r.agg.open, r.windows, due))
            && (AlwaysAnswers(c.sketch) ==> !r.failed)
            && (forall key :: key in a.open && key !in due ==> key in r.agg.open && r.agg.open[key] == a.open[key])
  {
    var keys, again := SelectedInOrder(a, s), PendingInOrder(a.pending);
    SelectedDue(a, s, due);
    PendingRelists(a.pending);
    hide Emits, Relists, PendingInOrder, EmitKeys, Selects, AlwaysAnswers, DueInOrder, SelectedInOrder;
    KeysCollect(c, a, keys, due);
    PendingSize(a.pending, again);
    var windows := EmitKeys(c, a, keys).windows;
    assert (again + windows)[..|a.pending|] == again && (again + windows)[|a.pending|..] == windows;
  }

  lemma PendingSize(pending: map<string, AggregateWindow>, ws: seq<AggregateWindow>)
    requires Relists(pending, ws)
    ensures |ws| == |pending|
  {
  }

  lemma {:induction false} KeysAreDue(keys: seq<WindowKey>, due: set<WindowKey>)
    requires forall i, j :: 0 <= i < j < |keys| ==> keys[i] != keys[j]
    requires forall key :: key in keys <==> key in due
    ensures |keys| == |due|
  {
    if keys == [] {
      assert due == {};
    } else {
      var last := |keys| - 1;
      assert keys == keys[..last] + [keys[last]];
      KeysAreDue(keys[..last], due - {keys[last]});
    }
  }
}
