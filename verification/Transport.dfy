/** The agent's HTTPS transport (internal/transport/https.go) over its spool: concurrent sends and the drain
    loop as atomic steps, one per post, spool call, release, reading of the drop counter or update of the drop
    metric. A run starts from whatever spool was opened. No file fails or vanishes. */
module Transport {
  import opened DecimalText
  import opened SpoolIndex
  import opened SpoolNames

  // ---- What an answer from the edge means ----

  datatype Verdict = Accepted | Refused | Retry

  /** `permanentlyRefused`. */
  predicate PermanentlyRefused(status: int) {
    if status < 400 || status >= 500 then false
    else match status case 408 => false case 429 => false case _ => true
  }

  /** `post`: no answer at all is a failure to be retried. */
  function Judge(status: Option<int>): Verdict {
    match status
    case None => Retry
    case Some(s) => if 200 <= s < 300 then Accepted else if PermanentlyRefused(s) then Refused else Retry
  }

  /** Which answers mean what. */
  lemma JudgeIff(status: Option<int>)
    ensures Judge(status).Accepted? <==> status.Some? && status.value / 100 == 2
    ensures Judge(status).Refused? <==> status.Some? && status.value / 100 == 4 && status.value !in {408, 429}
    ensures Judge(status).Retry? <==> status.None? || status.value / 100 !in {2, 4} || status.value in {408, 429}
  {
  }

  // ---- The machine ----

  datatype Entry = Entry(name: string, batch: nat, size: nat)

  datatype Config = Config(maxBytes: nat, maxEntries: nat)

  /** The spool: its entries, its counters, and every entry it held at the start or took since. */
  datatype Queue = Queue(entries: seq<Entry>, enqueued: nat, sequence: nat, dropped: nat, taken: seq<Entry>)

  /** The drain loop: the entry it has read, and the edge's answer once it has one. */
  datatype Drainer = Idle | Reading(entry: Entry) | Answered(entry: Entry, verdict: Verdict)

  /** A send that has been to the spool and has yet to report its drops: whether it will return nil, and the
      drop counter once it has read it. */
  datatype Recorder = Recorder(ok: bool, reading: Option<nat>)

  /** The drop metric, `lastDropped`, and the readings recorded so far, in the order of recording. */
  datatype Meter = Meter(metric: nat, last: nat, readings: seq<nat>)

  /** The batches the edge accepted, those it refused for good, those evicted from the spool; how many sends
      the spool turned away with a count; and how many entries were trimmed when it was opened. */
  datatype Record = Record(accepted: set<nat>, refused: set<nat>, evicted: set<nat>, turnedAway: nat, trimmed: nat)

  /** `spooling` holds the sends that failed to post and have not yet reached the spool, with the size of
      their payload; `recording` those on their way back; `returned` the batches whose send has returned nil. */
  datatype State = State(
    queue: Queue, drainer: Drainer, spooling: map<nat, nat>, recording: map<nat, Recorder>,
    started: set<nat>, returned: set<nat>, record: Record, meter: Meter)

  function Start(q: Queue): State {
    State(q, Idle, map[], map[], Batches(q.entries), {}, Record({}, {}, {}, 0, q.dropped), Meter(0, 0, []))
  }

  datatype Step =
    | Send(batch: nat, size: nat, status: Option<int>)
    | Put(batch: nat, evictions: nat)
    | TurnAway(batch: nat)
    | ReadDrops(batch: nat)
    | RecordDrops(batch: nat)
    | Peek
    | DrainPost(status: Option<int>)
    | Release

  function Bytes(entries: seq<Entry>): nat {
    if entries == [] then 0 else Bytes(entries[..|entries| - 1]) + entries[|entries| - 1].size
  }

  /** The spool evicts as many of the oldest entries as it takes for the payload to fit, and no more. */
  predicate Evicts(c: Config, entries: seq<Entry>, size: nat, k: nat) {
    k <= |entries| && Bytes(entries[k..]) + size <= c.maxBytes
      && (k > 0 ==> Bytes(entries[k - 1..]) + size > c.maxBytes)
  }

  /** The spool's numbers can still be printed and read back. */
  predicate InRange(q: Queue) { q.enqueued + 1 < INT64 && q.sequence + 1 < UINT64 }

  predicate Enabled(c: Config, s: State, a: Step) {
    match a
    case Send(batch, _, _) => batch !in s.started
    case Put(batch, k) =>
      && batch in s.spooling && 0 < s.spooling[batch] <= c.maxBytes && Evicts(c, s.queue.entries, s.spooling[batch], k)
      && |s.queue.entries| - k < c.maxEntries && InRange(s.queue)
    case TurnAway(batch) =>
      && batch in s.spooling
      && (|| s.spooling[batch] == 0 || s.spooling[batch] > c.maxBytes
          || (Evicts(c, s.queue.entries, s.spooling[batch], 0) && |s.queue.entries| >= c.maxEntries))
    case ReadDrops(batch) => batch in s.recording && s.recording[batch].reading.None?
    case RecordDrops(batch) => batch in s.recording && s.recording[batch].reading.Some?
    case Peek => s.drainer.Idle? && s.queue.entries != []
    case DrainPost(_) => s.drainer.Reading?
    case Release => s.drainer.Answered?
  }

  function Batches(entries: seq<Entry>): set<nat> { set i | 0 <= i < |entries| :: entries[i].batch }

  /** The edge's answer goes on record. */
  function Noted(r: Record, batch: nat, verdict: Verdict): Record {
    match verdict
    case Accepted => r.(accepted := r.accepted + {batch})
    case Refused => r.(refused := r.refused + {batch})
    case Retry => r
  }

  /** A send posts: accepted it returns nil, refused it returns the error, else it turns to the spool. */
  function Posted(s: State, batch: nat, size: nat, verdict: Verdict): State {
    s.(started := s.started + {batch}, record := Noted(s.record, batch, verdict),
       returned := if verdict.Accepted? then s.returned + {batch} else s.returned,
       spooling := if verdict.Retry? then s.spooling[batch := size] else s.spooling)
  }

  function NewEntry(q: Queue, batch: nat, size: nat): Entry { Entry(Name(q.enqueued + 1, q.sequence + 1), batch, size) }

  function PutIn(q: Queue, e: Entry, k: nat): Queue
    requires k <= |q.entries|
  {
    Queue(q.entries[k..] + [e], q.enqueued + 1, q.sequence + 1, q.dropped + k, q.taken + [e])
  }

  function Spooled(s: State, batch: nat, k: nat): State
    requires batch in s.spooling && k <= |s.queue.entries|
  {
    s.(queue := PutIn(s.queue, NewEntry(s.queue, batch, s.spooling[batch]), k),
       spooling := s.spooling - {batch}, recording := s.recording[batch := Recorder(true, None)],
       record := s.record.(evicted := s.record.evicted + Batches(s.queue.entries[..k])))
  }

  /** An empty or oversized payload, or too many entries: the send will return the error. All but the empty
      one are counted as dropped. */
  function TurnedAway(s: State, batch: nat): State
    requires batch in s.spooling
  {
    var counted := if s.spooling[batch] == 0 then 0 else 1;
    s.(queue := s.queue.(dropped := s.queue.dropped + counted),
       spooling := s.spooling - {batch}, recording := s.recording[batch := Recorder(false, None)],
       record := s.record.(turnedAway := s.record.turnedAway + counted))
  }

  function Rise(last: nat, reading: nat): nat { if reading > last then reading - last else 0 }

  /** The locked part of `recordSpoolDrops`, and the return of the send. */
  function Metered(m: Meter, reading: nat): Meter {
    Meter(m.metric + Rise(m.last, reading), reading, m.readings + [reading])
  }

  function Recorded(s: State, batch: nat): State
    requires batch in s.recording && s.recording[batch].reading.Some?
  {
    s.(meter := Metered(s.meter, s.recording[batch].reading.value), recording := s.recording - {batch},
       returned := if s.recording[batch].ok then s.returned + {batch} else s.returned)
  }

  /** The first entry of the given name at or after `i`, or the end. */
  function Find(entries: seq<Entry>, name: string, i: nat): (r: nat)
    requires i <= |entries|
    ensures i <= r <= |entries| && (r < |entries| ==> entries[r].name == name)
    ensures forall j :: i <= j < r ==> entries[j].name != name
    decreases |entries| - i
  {
    if i == |entries| || entries[i].name == name then i else Find(entries, name, i + 1)
  }

  /** `Release` by name: an entry no longer in the spool is left alone. */
  function Released(q: Queue, name: string): Queue {
    var i := Find(q.entries, name, 0);
    if i == |q.entries| then q else q.(entries := q.entries[..i] + q.entries[i + 1..])
  }

  function Next(c: Config, s: State, a: Step): State
    requires Enabled(c, s, a)
  {
    match a
    case Send(batch, size, status) => Posted(s, batch, size, Judge(status))
    case Put(batch, k) => Spooled(s, batch, k)
    case TurnAway(batch) => TurnedAway(s, batch)
    case ReadDrops(batch) =>
      s.(recording := s.recording[batch := s.recording[batch].(reading := Some(s.queue.dropped))])
    case RecordDrops(batch) => Recorded(s, batch)
    case Peek => s.(drainer := Reading(s.queue.entries[0]))
    case DrainPost(status) =>
      s.(drainer := if Judge(status).Retry? then Idle else Answered(s.drainer.entry, Judge(status)),
         record := Noted(s.record, s.drainer.entry.batch, Judge(status)))
    case Release => s.(drainer := Idle, queue := Released(s.queue, s.drainer.entry.name))
  }

  // ---- The invariant ----

  ghost predicate DistinctNames(es: seq<Entry>) { forall i, j :: 0 <= i < j < |es| ==> es[i].name != es[j].name }

  ghost predicate InOrder(es: seq<Entry>) { forall i, j :: 0 <= i < j < |es| ==> !Precedes(es[j].name, es[i].name) }

  /** Names are never reused: those ever held are distinct, and numbered up to the counters. Batches are
      taken once. */
  ghost predicate QueueOk(q: Queue) {
    && DistinctNames(q.taken) && DistinctNames(q.entries) && InOrder(q.entries)
    && (forall e :: e in q.taken ==> Numbered(e.name, q.enqueued, q.sequence))
    && (forall i, j :: 0 <= i < j < |q.taken| ==> q.taken[i].batch != q.taken[j].batch)
    && (forall e :: e in q.entries ==> e in q.taken)
  }

  /** What `Open` hands over: the entries it recovered, under counters that cover their numbers. */
  ghost predicate Opened(q: Queue) { QueueOk(q) && q.taken == q.entries }

  ghost predicate DrainerOk(d: Drainer, taken: seq<Entry>, r: Record) {
    && (!d.Idle? ==> d.entry in taken)
    && (d.Answered? ==>
          !d.verdict.Retry?
          && (if d.verdict.Accepted? then d.entry.batch in r.accepted else d.entry.batch in r.refused))
  }

  /** A batch that was in the spool is there still, or the edge accepted it, or refused it for good, or it
      was evicted. Trimming, evictions and counted refusals make up the drop counter. */
  ghost predicate FatesOk(q: Queue, r: Record) {
    && (forall e :: e in q.taken ==>
          e in q.entries || e.batch in r.accepted || e.batch in r.refused || e.batch in r.evicted)
    && (forall e :: e in q.entries ==> e.batch !in r.evicted)
    && (forall b :: b in r.evicted ==> b in Batches(q.taken))
    && q.dropped == r.trimmed + |r.evicted| + r.turnedAway
  }

  /** A send that returned nil was accepted or entered the spool. */
  ghost predicate SendsOk(s: State) {
    && (forall e :: e in s.queue.taken ==> e.batch in s.started && e.batch !in s.spooling)
    && (forall b :: b in s.spooling ==> b in s.started)
    && (forall b :: b in s.recording ==> b in s.started && b !in s.spooling)
    && (forall b :: b in s.recording && s.recording[b].ok ==> b in Batches(s.queue.taken))
    && (forall b :: b in s.returned ==> b in s.record.accepted || b in Batches(s.queue.taken))
  }

  ghost predicate Inv(s: State) {
    && QueueOk(s.queue) && DrainerOk(s.drainer, s.queue.taken, s.record) && FatesOk(s.queue, s.record) && SendsOk(s)
    && MeterOk(s.meter, s.recording, s.queue.dropped)
  }

  // ---- Entries and names ----

  lemma CutMembers(entries: seq<Entry>, i: nat)
    requires i < |entries| && DistinctNames(entries)
    ensures forall e :: e in entries[..i] + entries[i + 1..] <==> e in entries && e.name != entries[i].name
  {
    var rest := entries[..i] + entries[i + 1..];
    assert forall j :: 0 <= j < |rest| ==> rest[j] == entries[if j < i then j else j + 1];
    forall e | e in entries && e.name != entries[i].name ensures e in rest {
      var j :| 0 <= j < |entries| && entries[j] == e;
      assert rest[if j < i then j else j - 1] == e;
    }
  }

  lemma CutOrder(entries: seq<Entry>, i: nat)
    requires i < |entries|
    ensures DistinctNames(entries) ==> DistinctNames(entries[..i] + entries[i + 1..])
    ensures InOrder(entries) ==> InOrder(entries[..i] + entries[i + 1..])
  {
    hide Precedes;
    var rest := entries[..i] + entries[i + 1..];
    assert forall j :: 0 <= j < |rest| ==> rest[j] == entries[if j < i then j else j + 1];
  }

  lemma ReleasedMembers(q: Queue, name: string)
    requires DistinctNames(q.entries)
    ensures DistinctNames(Released(q, name).entries)
    ensures InOrder(q.entries) ==> InOrder(Released(q, name).entries)
    ensures forall e :: e in Released(q, name).entries <==> e in q.entries && e.name != name
  {
    hide DistinctNames, InOrder;
    var i := Find(q.entries, name, 0);
    if i < |q.entries| {
      CutMembers(q.entries, i);
      CutOrder(q.entries, i);
    }
  }

  /** A name stands for one entry: releasing it removes that entry or nothing. */
  lemma OneEntryPerName(q: Queue, a: Entry, b: Entry)
    requires QueueOk(q) && a in q.taken && b in q.taken && a.name == b.name
    ensures a == b
  {
    hide Precedes, Numbered;
    var i :| 0 <= i < |q.taken| && q.taken[i] == a;
    var j :| 0 <= j < |q.taken| && q.taken[j] == b;
    assert !(i < j) && !(j < i);
  }

  lemma BatchesOf(entries: seq<Entry>)
    ensures forall b :: b in Batches(entries) <==> exists e :: e in entries && e.batch == b
  {
    forall b | b in Batches(entries) ensures exists e :: e in entries && e.batch == b {
      var i :| 0 <= i < |entries| && entries[i].batch == b;
      assert entries[i] in entries;
    }
    forall e | e in entries ensures e.batch in Batches(entries) {
      var i :| 0 <= i < |entries| && entries[i] == e;
    }
  }

  lemma {:induction false} BatchCount(entries: seq<Entry>)
    requires forall i, j :: 0 <= i < j < |entries| ==> entries[i].batch != entries[j].batch
    ensures |Batches(entries)| == |entries|
  {
    if entries != [] {
      var front, last := entries[..|entries| - 1], entries[|entries| - 1];
      BatchCount(front);
      assert Batches(entries) == Batches(front) + {last.batch};
      assert last.batch !in Batches(front);
    }
  }

  lemma EntriesDistinct(q: Queue, i: nat, j: nat)
    requires QueueOk(q) && i < j < |q.entries|
    ensures q.entries[i].batch != q.entries[j].batch
  {
    hide Precedes, Numbered, InOrder;
    assert q.entries[i] in q.taken && q.entries[j] in q.taken;
    var a :| 0 <= a < |q.taken| && q.taken[a] == q.entries[i];
    var b :| 0 <= b < |q.taken| && q.taken[b] == q.entries[j];
    assert a != b;
  }

  lemma EntriesAllDistinct(q: Queue)
    requires QueueOk(q)
    ensures forall i, j :: 0 <= i < j < |q.entries| ==> q.entries[i].batch != q.entries[j].batch
  {
    forall i, j | 0 <= i < j < |q.entries|
      ensures q.entries[i].batch != q.entries[j].batch
    {
      EntriesDistinct(q, i, j);
    }
  }

  lemma EvictedApart(q: Queue, r: Record, k: nat)
    requires FatesOk(q, r) && k <= |q.entries|
    ensures r.evicted !! Batches(q.entries[..k])
  {
    forall b | b in Batches(q.entries[..k]) ensures b !in r.evicted {
      var i :| 0 <= i < k && q.entries[i].batch == b;
      assert q.entries[i] in q.entries;
    }
  }

  /** What an eviction of the `k` oldest adds to the record. */
  lemma EvictionCounts(q: Queue, r: Record, k: nat)
    requires QueueOk(q) && FatesOk(q, r) && k <= |q.entries|
    ensures |r.evicted + Batches(q.entries[..k])| == |r.evicted| + k
    ensures forall e :: e in q.entries[k..] ==> e.batch !in Batches(q.entries[..k])
  {
    hide QueueOk, FatesOk;
    EntriesAllDistinct(q);
    BatchCount(q.entries[..k]);
    EvictedApart(q, r, k);
  }

  // ---- Steps ----

  lemma ReleaseKeeps(s: State)
    requires Inv(s) && s.drainer.Answered?
    ensures Inv(s.(drainer := Idle, queue := Released(s.queue, s.drainer.entry.name)))
  {
    hide Precedes, Numbered, MeterOk, InOrder, DistinctNames;
    var q, name := s.queue, s.drainer.entry.name;
    ReleasedMembers(q, name);
    forall e | e in q.entries && e.name == name ensures e == s.drainer.entry { OneEntryPerName(q, e, s.drainer.entry); }
    hide Find;
  }

  /** The next name is none the spool ever held, and comes after them all. */
  lemma NewName(q: Queue, batch: nat, size: nat)
    requires QueueOk(q) && InRange(q)
    ensures var e := NewEntry(q, batch, size);
            && Numbered(e.name, q.enqueued + 1, q.sequence + 1)
            && forall x :: x in q.taken ==> x.name != e.name && Precedes(x.name, e.name)
  {
    hide IsEntry, ParseName, Name, InOrder, DistinctNames;
    NameRoundTrip(q.enqueued + 1, q.sequence + 1);
  }

  lemma PutQueue(q: Queue, batch: nat, size: nat, k: nat)
    requires QueueOk(q) && InRange(q) && k <= |q.entries| && batch !in Batches(q.taken)
    ensures QueueOk(PutIn(q, NewEntry(q, batch, size), k))
  {
    hide Batches, Numbered, Precedes, Name, DistinctNames, InOrder, NewEntry;
    var e := NewEntry(q, batch, size);
    assert e.batch == batch by { SameBatch(q, batch, size); }
    TakenGrows(q.taken, e);
    NewName(q, batch, size);
    PutNumbers(q, batch, size);
    forall x | x in q.entries[k..] + [e] ensures x in q.taken + [e] { assert x == e || x in q.entries; }
    PutEntries(q.entries, e, k);
    PutTaken(q.taken, e);
  }

  lemma SameBatch(q: Queue, batch: nat, size: nat)
    ensures NewEntry(q, batch, size).batch == batch
  {
  }

  lemma PutEntries(entries: seq<Entry>, e: Entry, k: nat)
    requires DistinctNames(entries) && InOrder(entries) && k <= |entries|
    requires forall x :: x in entries ==> x.name != e.name && Precedes(x.name, e.name)
    ensures DistinctNames(entries[k..] + [e]) && InOrder(entries[k..] + [e])
  {
    hide IsEntry, ParseName;
    var more := entries[k..] + [e];
    forall i, j | 0 <= i < j < |more| ensures more[i].name != more[j].name && !Precedes(more[j].name, more[i].name) {
      assert more[i] == entries[k + i] && more[i] in entries;
      if j < |more| - 1 { assert more[j] == entries[k + j]; }
    }
  }

  lemma PutTaken(taken: seq<Entry>, e: Entry)
    requires DistinctNames(taken) && forall i, j :: 0 <= i < j < |taken| ==> taken[i].batch != taken[j].batch
    requires forall x :: x in taken ==> x.name != e.name && x.batch != e.batch
    ensures DistinctNames(taken + [e])
    ensures forall i, j :: 0 <= i < j < |taken + [e]| ==> (taken + [e])[i].batch != (taken + [e])[j].batch
  {
  }

  lemma PutNumbers(q: Queue, batch: nat, size: nat)
    requires QueueOk(q) && InRange(q)
    ensures forall x :: x in q.taken + [NewEntry(q, batch, size)] ==> Numbered(x.name, q.enqueued + 1, q.sequence + 1)
  {
    NewName(q, batch, size);
    hide IsEntry, ParseName, Name, InOrder, DistinctNames;
  }

  lemma PutFates(q: Queue, r: Record, e: Entry, k: nat, q': Queue, r': Record)
    requires QueueOk(q) && FatesOk(q, r) && k <= |q.entries| && e.batch !in Batches(q.taken)
    requires q'.entries == q.entries[k..] + [e] && q'.taken == q.taken + [e] && q'.dropped == q.dropped + k
    requires r' == r.(evicted := r.evicted + Batches(q.entries[..k]))
    ensures FatesOk(q', r')
  {
    hide QueueOk, Batches;
    EvictionCounts(q, r, k);
    TakenGrows(q.taken, e);
    EvictedTaken(q, k);
    forall x | x in q'.taken
      ensures x in q'.entries || x.batch in r'.accepted || x.batch in r'.refused || x.batch in r'.evicted
    {
      PutFate(q, r, e, k, x);
    }
    forall x | x in q'.entries ensures x.batch !in r'.evicted { PutKept(q, r, e, k, x); }
    assert q'.dropped == r'.trimmed + |r'.evicted| + r'.turnedAway;
  }

  lemma PutFate(q: Queue, r: Record, e: Entry, k: nat, x: Entry)
    requires FatesOk(q, r) && k <= |q.entries| && x in q.taken + [e]
    ensures x in q.entries[k..] + [e] || x.batch in r.accepted || x.batch in r.refused
         || x.batch in r.evicted + Batches(q.entries[..k])
  {
    if x in q.entries {
      Split(q.entries, k, x);
      BatchesOf(q.entries[..k]);
    }
  }

  lemma PutKept(q: Queue, r: Record, e: Entry, k: nat, x: Entry)
    requires QueueOk(q) && FatesOk(q, r) && k <= |q.entries| && x in q.entries[k..] + [e]
    requires e.batch !in Batches(q.taken)
    ensures x.batch !in r.evicted + Batches(q.entries[..k])
  {
    hide QueueOk, Batches;
    EvictionCounts(q, r, k);
    EvictedTaken(q, k);
    if x in q.entries[k..] { assert x in q.entries; }
  }

  lemma EvictedTaken(q: Queue, k: nat)
    requires QueueOk(q) && k <= |q.entries|
    ensures Batches(q.entries[..k]) <= Batches(q.taken)
  {
    hide Precedes, Numbered, InOrder, DistinctNames;
    BatchesOf(q.taken);
    forall b | b in Batches(q.entries[..k]) ensures b in Batches(q.taken) {
      var i :| 0 <= i < k && q.entries[i].batch == b;
      assert q.entries[i] in q.taken;
    }
  }

  lemma Split(entries: seq<Entry>, k: nat, x: Entry)
    requires k <= |entries| && x in entries
    ensures x in entries[..k] || x in entries[k..]
  {
    assert entries == entries[..k] + entries[k..];
  }

  lemma TakenGrows(taken: seq<Entry>, e: Entry)
    ensures Batches(taken + [e]) == Batches(taken) + {e.batch}
    ensures forall x :: x in taken ==> x.batch in Batches(taken)
  {
    BatchesOf(taken);
    BatchesOf(taken + [e]);
  }

  lemma PutSends(s: State, batch: nat, k: nat)
    requires SendsOk(s) && batch in s.spooling && k <= |s.queue.entries|
    ensures SendsOk(Spooled(s, batch, k)) && batch !in Batches(s.queue.taken)
  {
    var e := NewEntry(s.queue, batch, s.spooling[batch]);
    TakenGrows(s.queue.taken, e);
    BatchesOf(s.queue.taken);
    hide Batches, Name;
  }

  lemma PutKeeps(s: State, batch: nat, k: nat)
    requires Inv(s) && batch in s.spooling && k <= |s.queue.entries| && InRange(s.queue)
    ensures Inv(Spooled(s, batch, k))
  {
    hide QueueOk, FatesOk, SendsOk, Batches, MeterOk, Name;
    var t, e := Spooled(s, batch, k), NewEntry(s.queue, batch, s.spooling[batch]);
    PutSends(s, batch, k);
    PutQueue(s.queue, batch, s.spooling[batch], k);
    PutFates(s.queue, s.record, e, k, t.queue, t.record);
    MeterWaits(s.meter, s.recording, s.queue.dropped, batch, true, t.queue.dropped);
  }

  lemma TurnAwayKeeps(s: State, batch: nat)
    requires Inv(s) && batch in s.spooling
    ensures Inv(TurnedAway(s, batch))
  {
    hide MeterOk, Precedes, Numbered, InOrder, DistinctNames;
    MeterWaits(s.meter, s.recording, s.queue.dropped, batch, false, TurnedAway(s, batch).queue.dropped);
  }

  lemma SendKeeps(s: State, batch: nat, size: nat, verdict: Verdict)
    requires Inv(s) && batch !in s.started
    ensures Inv(Posted(s, batch, size, verdict))
  {
    hide QueueOk, MeterOk;
    BatchesOf(s.queue.taken);
  }

  lemma RecordKeeps(c: Config, s: State, a: Step)
    requires Inv(s) && Enabled(c, s, a) && (a.ReadDrops? || a.RecordDrops?)
    ensures Inv(Next(c, s, a))
  {
    hide QueueOk, FatesOk, MeterOk, Batches;
    if a.ReadDrops? {
      MeterReads(s.meter, s.recording, s.queue.dropped, a.batch);
    } else {
      MeterRecords(s.meter, s.recording, s.queue.dropped, a.batch);
    }
  }

  lemma DrainKeeps(c: Config, s: State, a: Step)
    requires Inv(s) && Enabled(c, s, a) && (a.Peek? || a.DrainPost?)
    ensures Inv(Next(c, s, a))
  {
    hide MeterOk, Precedes, Numbered, InOrder, DistinctNames, Batches;
    if a.Peek? { assert s.queue.entries[0] in s.queue.entries; }
  }

  lemma NextKeeps(c: Config, s: State, a: Step)
    requires Inv(s) && Enabled(c, s, a)
    ensures Inv(Next(c, s, a))
  {
    hide MeterOk, Batches, QueueOk, SendsOk, FatesOk, Name, Bytes;
    match a
    case Send(batch, size, status) => SendKeeps(s, batch, size, Judge(status));
    case Put(batch, k) => PutKeeps(s, batch, k);
    case TurnAway(batch) => TurnAwayKeeps(s, batch);
    case ReadDrops(_) => RecordKeeps(c, s, a);
    case RecordDrops(_) => RecordKeeps(c, s, a);
    case Peek => DrainKeeps(c, s, a);
    case DrainPost(_) => DrainKeeps(c, s, a);
    case Release => ReleaseKeeps(s);
  }

  // ---- Whole runs ----

  /** A run from any opened spool. */
  ghost predicate IsRun(c: Config, run: seq<State>, steps: seq<Step>) {
    && |run| == |steps| + 1 && Opened(run[0].queue) && run[0] == Start(run[0].queue)
    && forall i :: 0 <= i < |steps| ==> Enabled(c, run[i], steps[i]) && run[i + 1] == Next(c, run[i], steps[i])
  }

  lemma StartHolds(q: Queue)
    requires Opened(q)
    ensures Inv(Start(q))
  {
    hide Precedes, Numbered, InOrder, DistinctNames;
    BatchesOf(q.entries);
  }

  lemma {:induction false} RunKeeps(c: Config, run: seq<State>, steps: seq<Step>, n: nat)
    requires IsRun(c, run, steps) && n < |run|
    ensures Inv(run[n])
  {
    hide Inv, Next, Enabled, Opened, Start;
    if n == 0 {
      StartHolds(run[0].queue);
    } else {
      RunKeeps(c, run, steps, n - 1);
      NextKeeps(c, run[n - 1], steps[n - 1]);
    }
  }

  /** Nothing is forgotten of what the spool held. */
  lemma {:induction false} TakenOnlyGrows(c: Config, run: seq<State>, steps: seq<Step>, n: nat, e: Entry)
    requires IsRun(c, run, steps) && n < |run| && e in run[0].queue.taken
    ensures e in run[n].queue.taken
  {
    hide Opened, Start;
    if n > 0 { TakenOnlyGrows(c, run, steps, n - 1, e); }
  }

  /** In every run, a batch whose send returned nil, or that was in the spool when it was opened, was
      accepted by the edge, is in the spool, was refused by the edge for good, or was evicted; and beyond what
      was trimmed at opening, evictions and counted refusals are all in the drop counter. */
  lemma NothingLostSilently(c: Config, run: seq<State>, steps: seq<Step>, n: nat, batch: nat)
    requires IsRun(c, run, steps) && n < |run| && (batch in run[n].returned || batch in Batches(run[0].queue.entries))
    ensures var s := run[n];
            batch in s.record.accepted || batch in Batches(s.queue.entries) || batch in s.record.refused
              || batch in s.record.evicted
    ensures run[n].queue.dropped == run[0].queue.dropped + |run[n].record.evicted| + run[n].record.turnedAway
  {
    RunKeeps(c, run, steps, n);
    TrimmedSame(c, run, steps, n);
    assert run[0].queue.taken == run[0].queue.entries;
    if batch !in run[n].returned {
      BatchesOf(run[0].queue.entries);
      var e :| e in run[0].queue.entries && e.batch == batch;
      TakenOnlyGrows(c, run, steps, n, e);
    }
    hide IsRun, QueueOk;
    BatchesOf(run[n].queue.taken);
    BatchesOf(run[n].queue.entries);
  }

  lemma {:induction false} TrimmedSame(c: Config, run: seq<State>, steps: seq<Step>, n: nat)
    requires IsRun(c, run, steps) && n < |run|
    ensures run[n].record.trimmed == run[0].queue.dropped
  {
    hide Opened, Enabled;
    if n > 0 { TrimmedSame(c, run, steps, n - 1); }
  }

  /** In every run, no two entries the spool held at any time share a name, so a release, however late,
      removes the entry that was read or nothing. */
  lemma ReleaseIsOwn(c: Config, run: seq<State>, steps: seq<Step>, n: nat)
    requires IsRun(c, run, steps) && n < |run| && run[n].drainer.Answered?
    ensures var s := run[n]; var left := Released(s.queue, s.drainer.entry.name).entries;
            forall e :: e in s.queue.entries ==> e in left || e == s.drainer.entry
    ensures forall i, j :: 0 <= i < j < |run[n].queue.taken| ==>
              run[n].queue.taken[i].name != run[n].queue.taken[j].name
  {
    RunKeeps(c, run, steps, n);
    hide IsRun, Precedes, Numbered;
    var s := run[n];
    ReleasedMembers(s.queue, s.drainer.entry.name);
    forall e | e in s.queue.entries && e.name == s.drainer.entry.name ensures e == s.drainer.entry {
      OneEntryPerName(s.queue, e, s.drainer.entry);
    }
  }

  /** In every run, nothing that stays is older than what is evicted, and the drain reads none but the
      oldest. */
  lemma OldestFirst(c: Config, run: seq<State>, steps: seq<Step>, n: nat, e: Entry, f: Entry)
    requires IsRun(c, run, steps) && n < |steps| && e in run[n].queue.entries
    ensures steps[n].Put? && e !in run[n + 1].queue.entries && f in run[n + 1].queue.entries ==>
              !Precedes(f.name, e.name)
    ensures steps[n].Peek? ==> run[n + 1].drainer.entry == e || !Precedes(e.name, run[n + 1].drainer.entry.name)
  {
    RunKeeps(c, run, steps, n);
    hide IsEntry, ParseName, Name, Numbered, MeterOk, FatesOk, SendsOk, Opened, Evicts;
    var s, a := run[n], steps[n];
    var i :| 0 <= i < |s.queue.entries| && s.queue.entries[i] == e;
    if a.Put? { EvictsOldest(s.queue, a.batch, s.spooling[a.batch], a.evictions, e, f); }
  }

  lemma EvictsOldest(q: Queue, batch: nat, size: nat, k: nat, e: Entry, f: Entry)
    requires QueueOk(q) && InRange(q) && k <= |q.entries| && e in q.entries
    ensures var kept := PutIn(q, NewEntry(q, batch, size), k).entries;
            e !in kept && f in kept ==> !Precedes(f.name, e.name)
  {
    NewName(q, batch, size);
    hide IsEntry, ParseName, Name, Numbered, DistinctNames;
    var i :| 0 <= i < |q.entries| && q.entries[i] == e;
    var kept := q.entries[k..];
    assert i >= k ==> kept[i - k] == e;
    if i < k && f in kept {
      var j :| 0 <= j < |kept| && kept[j] == f;
      assert f == q.entries[k + j];
    }
  }

  // ---- The drop metric ----

  /** What `recordSpoolDrops` adds to the metric over a series of readings of the spool's drop counter. */
  function RecordedTotal(readings: seq<nat>): nat {
    if readings == [] then 0
    else RecordedTotal(readings[..|readings| - 1]) + Rise(LastOf(readings[..|readings| - 1]), readings[|readings| - 1])
  }

  function LastOf(readings: seq<nat>): nat { if readings == [] then 0 else readings[|readings| - 1] }

  function Highest(readings: seq<nat>): nat {
    if readings == [] then 0
    else
      var before, last := Highest(readings[..|readings| - 1]), readings[|readings| - 1];
      if last > before then last else before
  }

  predicate Falls(readings: seq<nat>, i: nat)
    requires 0 < i < |readings|
  {
    readings[i] < readings[i - 1]
  }

  predicate Rises(readings: seq<nat>, i: nat)
    requires 0 < i < |readings|
  {
    readings[i] > readings[i - 1]
  }

  ghost predicate NonDecreasing(readings: seq<nat>) { forall i :: 0 < i < |readings| ==> !Falls(readings, i) }

  /** Once a reading is below the one before it, none rises again. */
  ghost predicate NoRiseAfterFall(readings: seq<nat>) {
    forall i, j :: 0 < i < j < |readings| && Falls(readings, i) ==> !Rises(readings, j)
  }

  lemma FrontSame(readings: seq<nat>, i: nat)
    requires 0 < i < |readings| - 1
    ensures Falls(readings[..|readings| - 1], i) == Falls(readings, i)
    ensures Rises(readings[..|readings| - 1], i) == Rises(readings, i)
  {
  }

  lemma FrontInTurn(readings: seq<nat>)
    requires readings != []
    ensures var front, last := readings[..|readings| - 1], readings[|readings| - 1];
            NonDecreasing(readings) <==> NonDecreasing(front) && (front == [] || LastOf(front) <= last)
  {
    var front, n := readings[..|readings| - 1], |readings| - 1;
    assert n > 0 ==> (Falls(readings, n) <==> LastOf(front) > readings[n]);
    hide Falls;
    if NonDecreasing(readings) {
      forall i | 0 < i < n ensures !Falls(front, i) { FrontSame(readings, i); }
    } else if NonDecreasing(front) {
      var i :| 0 < i < |readings| && Falls(readings, i);
      if i < n { FrontSame(readings, i); }
    }
  }

  lemma FrontNoRise(readings: seq<nat>)
    requires readings != []
    ensures var front, last := readings[..|readings| - 1], readings[|readings| - 1];
            NoRiseAfterFall(readings) <==> NoRiseAfterFall(front) && (NonDecreasing(front) || last <= LastOf(front))
  {
    var front, n := readings[..|readings| - 1], |readings| - 1;
    assert n > 0 ==> (Rises(readings, n) <==> LastOf(front) < readings[n]);
    hide Falls, Rises;
    forall i | 0 < i < n ensures Falls(front, i) == Falls(readings, i) && Rises(front, i) == Rises(readings, i) {
      FrontSame(readings, i);
    }
    if NoRiseAfterFall(readings) {
      forall i, j | 0 < i < j < n && Falls(front, i) ensures !Rises(front, j) { assert !Rises(readings, j); }
      if !NonDecreasing(front) {
        var i :| 0 < i < n && Falls(front, i);
        assert !Rises(readings, n);
      }
    }
    if NoRiseAfterFall(front) && (NonDecreasing(front) || readings[n] <= LastOf(front)) {
      forall i, j | 0 < i < j < |readings| && Falls(readings, i) ensures !Rises(readings, j) {
        assert Falls(front, i);
        if j < n { assert !Rises(front, j); }
      }
    }
  }

  /** The metric is at least the highest reading, and exceeds it exactly when a reading rises after one has
      fallen. */
  lemma {:induction false} RecordedIffNoRise(readings: seq<nat>)
    ensures LastOf(readings) <= Highest(readings) <= RecordedTotal(readings)
    ensures RecordedTotal(readings) == Highest(readings) <==> NoRiseAfterFall(readings)
    ensures NonDecreasing(readings) ==> LastOf(readings) == Highest(readings)
    ensures !NonDecreasing(readings) && NoRiseAfterFall(readings) ==> LastOf(readings) < Highest(readings)
  {
    if readings != [] {
      hide NoRiseAfterFall, NonDecreasing;
      RecordedIffNoRise(readings[..|readings| - 1]);
      FrontInTurn(readings);
      FrontNoRise(readings);
      NothingFalls();
    }
  }

  lemma NothingFalls()
    ensures NonDecreasing([])
  {
  }

  lemma {:induction false} HighestBounds(readings: seq<nat>, bound: nat)
    requires forall i :: 0 <= i < |readings| ==> readings[i] <= bound
    ensures Highest(readings) <= bound
    ensures (exists i :: 0 <= i < |readings| && readings[i] == bound) ==> Highest(readings) == bound
  {
    if readings != [] {
      var front := readings[..|readings| - 1];
      HighestBounds(front, bound);
      assert forall i :: 0 <= i < |front| ==> front[i] == readings[i];
    }
  }

  /** A send whose reading will bring the metric up to the counter. */
  ghost predicate Catches(recording: map<nat, Recorder>, dropped: nat) {
    exists b :: b in recording && (recording[b].reading.None? || recording[b].reading.value == dropped)
  }

  /** The metric is what the readings recorded so far come to; no reading exceeds the counter; and either the
      counter is among them or a send is on its way that will record it. */
  ghost predicate MeterOk(m: Meter, recording: map<nat, Recorder>, dropped: nat) {
    && m.metric == RecordedTotal(m.readings) && m.last == LastOf(m.readings)
    && (forall i :: 0 <= i < |m.readings| ==> m.readings[i] <= dropped)
    && (forall b :: b in recording && recording[b].reading.Some? ==> recording[b].reading.value <= dropped)
    && (dropped in m.readings || (m.readings == [] && recording == map[]) || Catches(recording, dropped))
  }

  lemma MeterWaits(m: Meter, recording: map<nat, Recorder>, dropped: nat, batch: nat, ok: bool, dropped': nat)
    requires MeterOk(m, recording, dropped) && dropped <= dropped'
    ensures MeterOk(m, recording[batch := Recorder(ok, None)], dropped')
  {
    assert recording[batch := Recorder(ok, None)][batch].reading.None?;
  }

  lemma MeterReads(m: Meter, recording: map<nat, Recorder>, dropped: nat, batch: nat)
    requires MeterOk(m, recording, dropped) && batch in recording
    ensures MeterOk(m, recording[batch := recording[batch].(reading := Some(dropped))], dropped)
  {
    assert recording[batch := recording[batch].(reading := Some(dropped))][batch].reading == Some(dropped);
  }

  lemma MeterRecords(m: Meter, recording: map<nat, Recorder>, dropped: nat, batch: nat)
    requires MeterOk(m, recording, dropped) && batch in recording && recording[batch].reading.Some?
    ensures MeterOk(Metered(m, recording[batch].reading.value), recording - {batch}, dropped)
  {
    var reading, m' := recording[batch].reading.value, Metered(m, recording[batch].reading.value);
    assert m'.readings[..|m.readings|] == m.readings;
    if dropped !in m'.readings {
      assert Catches(recording, dropped);
      var b :| b in recording && (recording[b].reading.None? || recording[b].reading.value == dropped);
      assert b != batch && b in recording - {batch};
      assert (recording - {batch})[b] == recording[b];
    }
  }

  /** In every run, whenever no send is on its way back from the spool and one has been: the metric is at
      least the spool's drop counter, and equals it exactly when no recorded reading rises after one has
      fallen. */
  lemma MetricMeetsCounter(c: Config, run: seq<State>, steps: seq<Step>, n: nat)
    requires IsRun(c, run, steps) && n < |run| && run[n].recording == map[] && run[n].meter.readings != []
    ensures run[n].meter.metric >= run[n].queue.dropped
    ensures run[n].meter.metric == run[n].queue.dropped <==> NoRiseAfterFall(run[n].meter.readings)
  {
    RunKeeps(c, run, steps, n);
    hide IsRun, QueueOk, FatesOk, SendsOk, DrainerOk, RecordedTotal, Highest, NoRiseAfterFall;
    var m, dropped := run[n].meter, run[n].queue.dropped;
    assert dropped in m.readings;
    HighestBounds(m.readings, dropped);
    RecordedIffNoRise(m.readings);
  }

  /** Readings still to be recorded are not behind the last one recorded. */
  ghost predicate InTurn(s: State) {
    && NonDecreasing(s.meter.readings)
    && forall b :: b in s.recording && s.recording[b].reading.Some? ==> s.meter.last <= s.recording[b].reading.value
  }

  ghost predicate AtMostOne(recording: map<nat, Recorder>) {
    forall a, b :: a in recording && b in recording ==> a == b
  }

  /** With at most one send at a time between spool and metric, as with the agent's one sender, readings are
      recorded in order and the metric is exact. */
  lemma {:induction false} OneSenderInTurn(c: Config, run: seq<State>, steps: seq<Step>, n: nat)
    requires IsRun(c, run, steps) && n < |run|
    requires forall i :: 0 <= i < |run| ==> AtMostOne(run[i].recording)
    ensures InTurn(run[n])
    ensures run[n].recording == map[] && run[n].meter.readings != [] ==> run[n].meter.metric == run[n].queue.dropped
  {
    if n > 0 {
      OneSenderInTurn(c, run, steps, n - 1);
      RunKeeps(c, run, steps, n - 1);
      assert run[n] == Next(c, run[n - 1], steps[n - 1]);
      assert AtMostOne(run[n].recording) && AtMostOne(run[n - 1].recording);
      hide Inv, InTurn, Next, Enabled, AtMostOne;
      OneSenderStep(c, run[n - 1], steps[n - 1]);
    }
    OneSenderExact(c, run, steps, n);
  }

  lemma OneSenderExact(c: Config, run: seq<State>, steps: seq<Step>, n: nat)
    requires IsRun(c, run, steps) && n < |run| && InTurn(run[n])
    ensures run[n].recording == map[] && run[n].meter.readings != [] ==> run[n].meter.metric == run[n].queue.dropped
  {
    hide IsRun, Falls, Rises;
    if run[n].recording == map[] && run[n].meter.readings != [] {
      MetricMeetsCounter(c, run, steps, n);
    }
  }

  lemma OneSenderStep(c: Config, s: State, a: Step)
    requires Inv(s) && Enabled(c, s, a) && InTurn(s)
    requires AtMostOne(s.recording) && AtMostOne(Next(c, s, a).recording)
    ensures InTurn(Next(c, s, a))
  {
    hide QueueOk, FatesOk, SendsOk, DrainerOk, RecordedTotal, Evicts, Name;
    assert s.meter.last <= s.queue.dropped;
    var readings := Next(c, s, a).meter.readings;
    if a.RecordDrops? {
      assert readings[..|readings| - 1] == s.meter.readings;
      FrontInTurn(readings);
      assert forall b :: b in s.recording ==> b == a.batch;
    }
  }

  // ---- Which sends the spool turns away ----

  lemma {:induction false} EvictsSome(c: Config, entries: seq<Entry>, size: nat, from: nat) returns (k: nat)
    requires size <= c.maxBytes && from <= |entries| && (from > 0 ==> Bytes(entries[from - 1..]) + size > c.maxBytes)
    ensures Evicts(c, entries, size, k)
    decreases |entries| - from
  {
    assert entries[|entries|..] == [];
    if Bytes(entries[from..]) + size <= c.maxBytes {
      k := from;
    } else {
      k := EvictsSome(c, entries, size, from + 1);
    }
  }

  lemma {:induction false} BytesShrink(entries: seq<Entry>, i: nat, j: nat)
    requires i <= j <= |entries|
    ensures Bytes(entries[j..]) <= Bytes(entries[i..])
    decreases |entries|
  {
    if j < |entries| {
      var front, last := entries[..|entries| - 1], entries[|entries| - 1];
      BytesShrink(front, i, j);
      assert entries[i..][..|entries[i..]| - 1] == front[i..] && entries[j..][..|entries[j..]| - 1] == front[j..];
    } else {
      assert entries[j..] == [];
    }
  }

  lemma EvictsOne(c: Config, entries: seq<Entry>, size: nat, j: nat, k: nat)
    requires Evicts(c, entries, size, j) && Evicts(c, entries, size, k)
    ensures j == k
  {
    if j < k { BytesShrink(entries, j, k - 1); } else if k < j { BytesShrink(entries, k, j - 1); }
  }

  /** A send that reaches a spool within its number of entries is either put, after one number of evictions, or
      turned away; and it is turned away exactly if its payload is empty or larger than the budget, or if the spool
      is full in number and the payload would fit without an eviction. */
  lemma SpoolDecides(c: Config, s: State, batch: nat)
    requires batch in s.spooling && InRange(s.queue) && |s.queue.entries| <= c.maxEntries && c.maxEntries > 0
    ensures Enabled(c, s, TurnAway(batch)) <==> !exists k: nat :: Enabled(c, s, Put(batch, k))
    ensures Enabled(c, s, TurnAway(batch))
       <==> (|| s.spooling[batch] == 0 || s.spooling[batch] > c.maxBytes
             || (|s.queue.entries| == c.maxEntries && Bytes(s.queue.entries) + s.spooling[batch] <= c.maxBytes))
    ensures forall j: nat, k: nat :: Enabled(c, s, Put(batch, j)) && Enabled(c, s, Put(batch, k)) ==> j == k
  {
    var entries, size := s.queue.entries, s.spooling[batch];
    assert entries[0..] == entries;
    hide Bytes;
    forall j: nat, k: nat | Enabled(c, s, Put(batch, j)) && Enabled(c, s, Put(batch, k))
      ensures j == k
    {
      EvictsOne(c, entries, size, j, k);
    }
    if 0 < size <= c.maxBytes {
      var k := EvictsSome(c, entries, size, 0);
      if Enabled(c, s, TurnAway(batch)) {
        forall j: nat | Evicts(c, entries, size, j) ensures j == 0 { EvictsOne(c, entries, size, j, 0); }
      } else {
        assert Enabled(c, s, Put(batch, k));
      }
    }
  }

  // ---- A run that overcounts ----

  /** A send of a payload larger than the spool, as far as its reading of the counter. */
  function Rejected(s: State, batch: nat): State {
    s.(started := s.started + {batch}, queue := s.queue.(dropped := s.queue.dropped + 1),
       recording := s.recording[batch := Recorder(false, Some(s.queue.dropped + 1))],
       record := s.record.(turnedAway := s.record.turnedAway + 1))
  }

  lemma OneStep(c: Config, run: seq<State>, steps: seq<Step>, a: Step) returns (run': seq<State>)
    requires IsRun(c, run, steps) && Enabled(c, run[|steps|], a)
    ensures run' == run + [Next(c, run[|steps|], a)] && IsRun(c, run', steps + [a])
  {
    hide Next, Enabled, Opened, Start;
    run' := run + [Next(c, run[|steps|], a)];
    var steps' := steps + [a];
    forall i | 0 <= i < |steps'| ensures Enabled(c, run'[i], steps'[i]) && run'[i + 1] == Next(c, run'[i], steps'[i]) {
      if i < |steps| { assert run'[i] == run[i] && run'[i + 1] == run[i + 1] && steps'[i] == steps[i]; }
    }
  }

  lemma RejectOne(c: Config, run: seq<State>, steps: seq<Step>, batch: nat)
    returns (run': seq<State>, steps': seq<Step>)
    requires IsRun(c, run, steps) && batch !in run[|steps|].started && batch !in run[|steps|].spooling
    ensures steps' == steps + [Send(batch, c.maxBytes + 1, None), TurnAway(batch), ReadDrops(batch)]
    ensures IsRun(c, run', steps') && run'[|steps'|] == Rejected(run[|steps|], batch) && run <= run'
  {
    var s := run[|steps|];
    RejectEffect(c, s, batch);
    hide IsRun, Enabled, Next;
    var sent, turned, read := Send(batch, c.maxBytes + 1, None), TurnAway(batch), ReadDrops(batch);
    RunSize(c, run, steps);
    var run1 := OneStep(c, run, steps, sent);
    var run2 := OneStep(c, run1, steps + [sent], turned);
    run' := OneStep(c, run2, steps + [sent] + [turned], read);
    steps' := steps + [sent] + [turned] + [read];
  }

  lemma RunSize(c: Config, run: seq<State>, steps: seq<Step>)
    requires IsRun(c, run, steps)
    ensures |run| == |steps| + 1
  {
  }

  lemma RejectEffect(c: Config, s: State, batch: nat)
    requires batch !in s.started && batch !in s.spooling
    ensures Enabled(c, s, Send(batch, c.maxBytes + 1, None))
    ensures var s1 := Next(c, s, Send(batch, c.maxBytes + 1, None));
            && Enabled(c, s1, TurnAway(batch))
            && var s2 := Next(c, s1, TurnAway(batch));
               Enabled(c, s2, ReadDrops(batch)) && Next(c, s2, ReadDrops(batch)) == Rejected(s, batch)
  {
    hide Evicts;
    assert s.spooling[batch := c.maxBytes + 1] - {batch} == s.spooling;
    assert s.recording[batch := Recorder(false, None)][batch := Recorder(false, Some(s.queue.dropped + 1))]
        == s.recording[batch := Recorder(false, Some(s.queue.dropped + 1))];
  }

  /** From every opened spool there is a run of twelve steps after which the metric is too high: two sends read
      the counter one after the other and record their readings the other way round, and a third follows. */
  lemma SwappedReadingsOvercount(c: Config, q: Queue, x: nat, y: nat, z: nat)
    returns (run: seq<State>, steps: seq<Step>)
    requires Opened(q) && x != y && x != z && y != z && {x, y, z} !! Batches(q.entries)
    ensures IsRun(c, run, steps) && run[0] == Start(q) && |steps| == 12 && run[12].recording == map[]
    ensures run[12].meter.readings == [q.dropped + 2, q.dropped + 1, q.dropped + 3]
    ensures run[12].queue.dropped == q.dropped + 3 && run[12].meter.metric == q.dropped + 4
  {
    run, steps := [Start(q)], [];
    assert IsRun(c, run, steps);
    run, steps := RejectOne(c, run, steps, x);
    run, steps := RejectOne(c, run, steps, y);
    var s := run[|steps|];
    var d := q.dropped;
    assert s.recording == map[x := Recorder(false, Some(d + 1)), y := Recorder(false, Some(d + 2))];
    run := OneStep(c, run, steps, RecordDrops(y));
    steps := steps + [RecordDrops(y)];
    run := OneStep(c, run, steps, RecordDrops(x));
    steps := steps + [RecordDrops(x)];
    var t := run[|steps|];
    assert t.recording == map[] && t.meter == Meter(d + 2, d + 1, [] + [d + 2] + [d + 1]);
    run, steps := RejectOne(c, run, steps, z);
    run := OneStep(c, run, steps, RecordDrops(z));
    steps := steps + [RecordDrops(z)];
    assert run[12].recording == map[];
  }
}
