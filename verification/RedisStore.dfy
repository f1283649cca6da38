/** The Redis state store (internal/redisstore/store.go): the apply and reset scripts, whose record of
    applied emissions is trimmed and expires, against the in-memory store, which never forgets one. One clock,
    in seconds, serves as the script's argument and as the server's; an expiring key is visible strictly before
    its deadline. */
module RedisStore {
  import opened DecimalText
  import opened Domain
  import opened Tallies
  import M = MemoryStore

  /** A device's hash; fields that read as zero when missing are plain numbers. */
  datatype Hash = Hash(
    userID: string, deviceID: string, count: int, errorCount: int, bytes: int, p95Nanos: int, p99Nanos: int,
    lastWindowID: Option<int>, percentileSample: int)

  /** A sorted set of identities by time of application, and when the whole key expires. */
  datatype Applied = Applied(scores: map<string, int>, expireAt: int)

  datatype Redis = Redis(states: map<string, Hash>, applied: map<string, Applied>)

  const NO_KEYS := Redis(map[], map[])

  function StateKey(ns: string, userID: string, deviceID: string): string {
    ns + ":" + DeviceScope(userID, "device:" + deviceID) + ":state"
  }

  function DedupeKey(ns: string, userID: string, deviceID: string): string {
    ns + ":" + DeviceScope(userID, "device:" + deviceID) + ":applied:v2"
  }

  function Visible(z: Option<Applied>, now: int): map<string, int> {
    if z.Some? && now < z.value.expireAt then z.value.scores else map[]
  }

  /** `ZADD`, `ZREMRANGEBYSCORE` up to `now - ttl`, `EXPIRE`. */
  function Remember(z: Option<Applied>, identity: string, ttl: int, now: int): Applied {
    var added := Visible(z, now)[identity := now];
    Applied(map id | id in added && added[id] > now - ttl :: added[id], now + ttl)
  }

  function Fresh(userID: string, deviceID: string): Hash { Hash(userID, deviceID, 0, 0, 0, 0, 0, None, 0) }

  function CountIn(h: Hash, w: AggregateWindow): Hash {
    var counted := h.(count := h.count + w.count, errorCount := h.errorCount + w.errorCount,
                      bytes := h.bytes + w.bytes);
    var current := if h.lastWindowID.Some? then h.lastWindowID.value else -1;
    if w.windowID > current then
      counted.(lastWindowID := Some(w.windowID), p95Nanos := w.p95Nanos, p99Nanos := w.p99Nanos,
               percentileSample := w.count)
    else if w.windowID == current && w.count > h.percentileSample then
      counted.(p95Nanos := w.p95Nanos, p99Nanos := w.p99Nanos, percentileSample := w.count)
    else counted
  }

  function Zeroed(h: Hash): Hash {
    h.(count := 0, errorCount := 0, bytes := 0, p95Nanos := 0, p99Nanos := 0, percentileSample := 0)
  }

  // ---- One device ----

  datatype Device = Device(hash: Option<Hash>, applied: Option<Applied>)

  function DeviceOf(s: Redis, ns: string, userID: string, deviceID: string): Device {
    var state, dedupe := StateKey(ns, userID, deviceID), DedupeKey(ns, userID, deviceID);
    Device(if state in s.states then Some(s.states[state]) else None,
           if dedupe in s.applied then Some(s.applied[dedupe]) else None)
  }

  predicate SeenBefore(v: Device, w: AggregateWindow, now: int) { Identity(w) in Visible(v.applied, now) }

  function HashOr(v: Device, w: AggregateWindow): Hash {
    if v.hash.Some? then v.hash.value else Fresh(w.key.userID, w.key.deviceID)
  }

  // ---- The scripts ----

  function ApplyScript(s: Redis, ns: string, ttl: int, w: AggregateWindow, now: int): Redis {
    var v := DeviceOf(s, ns, w.key.userID, w.key.deviceID);
    if SeenBefore(v, w, now) then s
    else
      Redis(s.states[StateKey(ns, w.key.userID, w.key.deviceID) := CountIn(HashOr(v, w), w)],
            s.applied[DedupeKey(ns, w.key.userID, w.key.deviceID) := Remember(v.applied, Identity(w), ttl, now)])
  }

  function ResetScript(s: Redis, ns: string, userID: string, deviceID: string): Redis {
    var state := StateKey(ns, userID, deviceID);
    if state !in s.states then s else s.(states := s.states[state := Zeroed(s.states[state])])
  }

  // ---- Keys ----

  lemma SameEnds(a: string, b: string, c: string, d: string)
    requires a + b + d == a + c + d
    ensures b == c
  {
    assert |b| == |c|;
    forall i | 0 <= i < |b| ensures b[i] == c[i] {
      assert (a + b + d)[|a| + i] == b[i] && (a + c + d)[|a| + i] == c[i];
    }
  }

  /** Neither user id goes on, after the other, with `}:device:`. */
  predicate KeyedApart(u: string, v: string) { !(u + "}:device:" <= v) && !(v + "}:device:" <= u) }

  lemma ApartIsKeyedApart(u: string, v: string)
    requires UsersApart(u, v)
    ensures KeyedApart(u, v)
  {
    if u + "}:device:" <= v { GoesOn(u, v); }
    if v + "}:device:" <= u { GoesOn(v, u); }
  }

  lemma GoesOn(u: string, v: string)
    requires u + "}:device:" <= v
    ensures u + "}:" <= v
  {
    assert (u + "}:device:")[..|u| + 2] == u + "}:";
  }

  lemma KeyOverhang(u: string, d: string, u': string, d': string)
    requires DeviceScope(u, "device:" + d) == DeviceScope(u', "device:" + d') && |u| < |u'|
    ensures u + "}:device:" <= u'
  {
    var z := UserOverhang(u, "device:" + d, u', "device:" + d');
    var rest := "device:" + d;
    assert rest[|z|] == '}' && '}' !in "device:";
    assert |z| >= 7 && z[..7] == rest[..7] == "device:";
    assert u' == u + "}:device:" + z[7..];
  }

  lemma ScopeApart(ns: string, u: string, d: string, u': string, d': string, suffix: string)
    requires KeyedApart(u, u')
    requires ns + ":" + DeviceScope(u, "device:" + d) + suffix == ns + ":" + DeviceScope(u', "device:" + d') + suffix
    ensures u == u' && d == d'
  {
    SameEnds(ns + ":", DeviceScope(u, "device:" + d), DeviceScope(u', "device:" + d'), suffix);
    if |u| < |u'| {
      KeyOverhang(u, d, u', d');
    } else if |u'| < |u| {
      KeyOverhang(u', d', u, d);
    } else {
      SameUser(u, "device:" + d, u', "device:" + d');
      assert ("device:" + d)[7..] == d && ("device:" + d')[7..] == d';
    }
  }

  /** For users that are apart, each device of each user has its own keys. */
  lemma KeysApart(ns: string, u: string, d: string, u': string, d': string)
    requires KeyedApart(u, u')
    ensures StateKey(ns, u, d) == StateKey(ns, u', d') ==> u == u' && d == d'
    ensures DedupeKey(ns, u, d) == DedupeKey(ns, u', d') ==> u == u' && d == d'
  {
    hide DeviceScope;
    if StateKey(ns, u, d) == StateKey(ns, u', d') { ScopeApart(ns, u, d, u', d', ":state"); }
    if DedupeKey(ns, u, d) == DedupeKey(ns, u', d') { ScopeApart(ns, u, d, u', d', ":applied:v2"); }
  }

  predicate SameKeys(ns: string, u: string, d: string, u': string, d': string) {
    d != "" && d' != "" && StateKey(ns, u, d) == StateKey(ns, u', d') && DedupeKey(ns, u, d) == DedupeKey(ns, u', d')
  }

  /** Two users have devices with the same keys if and only if they are not apart in this sense. */
  lemma KeysMeetIff(ns: string, u: string, u': string)
    requires u != u'
    ensures (exists d, d' :: SameKeys(ns, u, d, u', d')) <==> !KeyedApart(u, u')
  {
    if d, d' :| SameKeys(ns, u, d, u', d') {
      if KeyedApart(u, u') { KeysApart(ns, u, d, u', d'); }
    }
    if u + "}:device:" <= u' {
      MeetingKeys(ns, u, u');
    } else if u' + "}:device:" <= u {
      MeetingKeys(ns, u', u);
    }
  }

  /** The keys, written out. */
  lemma KeyForms()
    ensures StateKey("ns", "u", "d") == "ns:{u}:device:d:state"
    ensures DedupeKey("ns", "u", "d") == "ns:{u}:device:d:applied:v2"
  {
    assert DeviceScope("u", "device:d") == "{u}:device:d";
    assert "device:" + "d" == "device:d";
  }

  lemma MeetingKeys(ns: string, u: string, u': string)
    requires u + "}:device:" <= u'
    ensures var d := u'[|u| + 9..] + "}:device:x"; SameKeys(ns, u, d, u', "x") && SameKeys(ns, u', "x", u, d)
  {
    var d := u'[|u| + 9..] + "}:device:x";
    assert u' == u + "}:device:" + u'[|u| + 9..];
    assert DeviceScope(u, "device:" + d) == DeviceScope(u', "device:x");
  }

  lemma ApplyElsewhere(s: Redis, ns: string, ttl: int, w: AggregateWindow, now: int, u: string, d: string)
    requires KeyedApart(u, w.key.userID) && (u != w.key.userID || d != w.key.deviceID)
    ensures DeviceOf(ApplyScript(s, ns, ttl, w, now), ns, u, d) == DeviceOf(s, ns, u, d)
  {
    hide StateKey, DedupeKey, Identity, CountIn, Remember, KeyedApart;
    KeysApart(ns, u, d, w.key.userID, w.key.deviceID);
  }

  lemma ResetElsewhere(s: Redis, ns: string, userID: string, deviceID: string, u: string, d: string)
    requires KeyedApart(u, userID) && (u != userID || d != deviceID)
    ensures DeviceOf(ResetScript(s, ns, userID, deviceID), ns, u, d) == DeviceOf(s, ns, u, d)
  {
    hide StateKey, DedupeKey, KeyedApart;
    KeysApart(ns, u, d, userID, deviceID);
  }

  // ---- Runs ----

  datatype Call = Deliver(window: AggregateWindow, now: int) | ResetOf(userID: string, deviceID: string, now: int)

  function OnMemory(st: M.Store, c: Call): M.Store {
    match c
    case Deliver(w, _) => M.Apply(st, w)
    case ResetOf(userID, deviceID, _) => M.Reset(st, DeviceScope(userID, deviceID))
  }

  function OnRedis(s: Redis, ns: string, ttl: int, c: Call): Redis {
    match c
    case Deliver(w, now) => ApplyScript(s, ns, ttl, w, now)
    case ResetOf(userID, deviceID, _) => ResetScript(s, ns, userID, deviceID)
  }

  function MemoryRun(calls: seq<Call>): M.Store {
    if calls == [] then M.EMPTY else OnMemory(MemoryRun(calls[..|calls| - 1]), calls[|calls| - 1])
  }

  function RedisRun(ns: string, ttl: int, calls: seq<Call>): Redis {
    if calls == [] then NO_KEYS else OnRedis(RedisRun(ns, ttl, calls[..|calls| - 1]), ns, ttl, calls[|calls| - 1])
  }

  predicate Delivers(c: Call, key: string, id: string) {
    c.Deliver? && M.DeviceKey(c.window) == key && Identity(c.window) == id
  }

  function UserOf(c: Call): string { if c.Deliver? then c.window.key.userID else c.userID }

  function DeviceIdOf(c: Call): string { if c.Deliver? then c.window.key.deviceID else c.deviceID }

  /** A user apart from all those called for. */
  ghost predicate ApartFrom(u: string, calls: seq<Call>) {
    forall i :: 0 <= i < |calls| ==> UsersApart(u, UserOf(calls[i]))
  }

  /** A clock that does not go back, and users that are apart. */
  ghost predicate Clocked(calls: seq<Call>) {
    && (forall i, j :: 0 <= i < j < |calls| ==> calls[i].now <= calls[j].now)
    && (forall i :: 0 <= i < |calls| ==> ApartFrom(UserOf(calls[i]), calls))
  }

  /** ... and what the aggregator emits: window ids from zero and counts from one. */
  ghost predicate Orderly(calls: seq<Call>) {
    && Clocked(calls)
    && (forall i :: 0 <= i < |calls| && calls[i].Deliver? ==>
          calls[i].window.windowID >= 0 && calls[i].window.count >= 1)
  }

  // ---- What Redis remembers, in closed form ----

  /** When an identity was last newly applied to a device, and when anything was. */
  datatype Memo = Memo(last: Option<int>, since: map<string, int>)

  /** An identity is recognised as long as nothing new came a time to live or more after it, and the last
      new application is less than a time to live ago. */
  predicate Known(m: Memo, id: string, ttl: int, now: int) {
    m.last.Some? && id in m.since && m.last.value < m.since[id] + ttl && now < m.last.value + ttl
  }

  function Learn(m: Memo, id: string, ttl: int, now: int): Memo {
    if Known(m, id, ttl, now) then m else Memo(Some(now), m.since[id := now])
  }

  function MemoRun(ttl: int, calls: seq<Call>, key: string): Memo {
    if calls == [] then Memo(None, map[])
    else
      var m, c := MemoRun(ttl, calls[..|calls| - 1], key), calls[|calls| - 1];
      if c.Deliver? && M.DeviceKey(c.window) == key then Learn(m, Identity(c.window), ttl, c.now) else m
  }

  /** The sorted set holds the identities nothing new came too late after, and expires a time to live after
      the last new application. */
  ghost predicate Holds(z: Option<Applied>, m: Memo, ttl: int, now: int) {
    if m.last.None? then z.None? && m.since == map[]
    else
      && z.Some? && z.value.expireAt == m.last.value + ttl && m.last.value <= now
      && (forall id :: id in m.since ==> m.since[id] <= m.last.value)
      && (forall id :: id in z.value.scores <==> id in m.since && m.last.value < m.since[id] + ttl)
      && (forall id :: id in z.value.scores ==> z.value.scores[id] == m.since[id])
  }

  lemma HoldsKnown(z: Option<Applied>, m: Memo, ttl: int, was: int, id: string, now: int)
    requires Holds(z, m, ttl, was) && was <= now
    ensures id in Visible(z, now) <==> Known(m, id, ttl, now)
  {
  }

  lemma HoldsRemember(z: Option<Applied>, m: Memo, ttl: int, was: int, id: string, now: int)
    requires Holds(z, m, ttl, was) && was <= now && !Known(m, id, ttl, now)
    ensures Holds(Some(Remember(z, id, ttl, now)), Learn(m, id, ttl, now), ttl, now)
  {
    var r, m' := Remember(z, id, ttl, now), Learn(m, id, ttl, now);
    forall x
      ensures x in r.scores <==> x in m'.since && m'.last.value < m'.since[x] + ttl
    {
      HoldsKnown(z, m, ttl, was, x, now);
    }
  }

  /** What is remembered for a device, in Redis and in memory. */
  ghost predicate Remembers(calls: seq<Call>, st: M.Store, v: Device, key: string, ttl: int, now: int) {
    var m := MemoRun(ttl, calls, key);
    Holds(v.applied, m, ttl, now) && m.since.Keys == M.Applied(st, key)
  }

  lemma RemembersLater(calls: seq<Call>, st: M.Store, v: Device, key: string, ttl: int, was: int, now: int)
    requires Remembers(calls, st, v, key, ttl, was) && was <= now
    ensures Remembers(calls, st, v, key, ttl, now)
  {
    hide MemoRun, M.Applied;
  }

  lemma StepElsewhere(st: M.Store, s: Redis, ns: string, ttl: int, c: Call, u: string, d: string)
    requires UsersApart(u, UserOf(c)) && (u != UserOf(c) || d != DeviceIdOf(c))
    ensures DeviceOf(OnRedis(s, ns, ttl, c), ns, u, d) == DeviceOf(s, ns, u, d)
    ensures M.SameRecord(st, OnMemory(st, c), DeviceScope(u, d))
    ensures c.Deliver? ==> M.DeviceKey(c.window) != DeviceScope(u, d)
  {
    hide DeviceScope, Identity, DeviceOf, ApplyScript, ResetScript, UsersApart;
    ApartIsKeyedApart(u, UserOf(c));
    if DeviceScope(u, d) == DeviceScope(UserOf(c), DeviceIdOf(c)) {
      DeviceScopeInjective(u, d, UserOf(c), DeviceIdOf(c));
      assert false;
    }
    match c
    case Deliver(w, now) =>
      ApplyElsewhere(s, ns, ttl, w, now, u, d);
      M.ApplyEffect(st, w, DeviceScope(u, d));
    case ResetOf(userID, deviceID, _) => ResetElsewhere(s, ns, userID, deviceID, u, d);
  }

  /** A delivery, as the memo sees it. */
  lemma DeliverRemembers(calls: seq<Call>, c: Call, st: M.Store, s: Redis, ns: string, ttl: int)
    requires c.Deliver?
    requires var v := DeviceOf(s, ns, c.window.key.userID, c.window.key.deviceID);
             Remembers(calls, st, v, M.DeviceKey(c.window), ttl, c.now)
    ensures var v' := DeviceOf(ApplyScript(s, ns, ttl, c.window, c.now), ns, c.window.key.userID,
                               c.window.key.deviceID);
            Remembers(calls + [c], M.Apply(st, c.window), v', M.DeviceKey(c.window), ttl, c.now)
  {
    var w, key := c.window, M.DeviceKey(c.window);
    assert (calls + [c])[..|calls|] == calls;
    assert MemoRun(ttl, calls + [c], key) == Learn(MemoRun(ttl, calls, key), Identity(w), ttl, c.now);
    M.ApplyEffect(st, w, key);
    hide Identity, DeviceScope, StateKey, DedupeKey, CountIn, Remember, Holds, MemoRun, M.Apply, M.Applied;
    var v, m := DeviceOf(s, ns, w.key.userID, w.key.deviceID), MemoRun(ttl, calls, key);
    HoldsKnown(v.applied, m, ttl, c.now, Identity(w), c.now);
    if !Known(m, Identity(w), ttl, c.now) { HoldsRemember(v.applied, m, ttl, c.now, Identity(w), c.now); }
  }

  lemma SameMemo(calls: seq<Call>, c: Call, key: string, ttl: int)
    requires c.Deliver? ==> M.DeviceKey(c.window) != key
    ensures MemoRun(ttl, calls + [c], key) == MemoRun(ttl, calls, key)
  {
    hide Identity, DeviceScope;
    assert (calls + [c])[..|calls|] == calls;
  }

  lemma ResetRemembers(calls: seq<Call>, c: Call, st: M.Store, s: Redis, ns: string, ttl: int)
    requires c.ResetOf?
    requires Remembers(calls, st, DeviceOf(s, ns, c.userID, c.deviceID), DeviceScope(c.userID, c.deviceID), ttl, c.now)
    ensures Remembers(calls + [c], M.Reset(st, DeviceScope(c.userID, c.deviceID)),
                      DeviceOf(ResetScript(s, ns, c.userID, c.deviceID), ns, c.userID, c.deviceID),
                      DeviceScope(c.userID, c.deviceID), ttl, c.now)
  {
    hide Identity, DeviceScope, StateKey, DedupeKey, Holds, MemoRun;
    SameMemo(calls, c, DeviceScope(c.userID, c.deviceID), ttl);
  }

  lemma NothingYet(ns: string, u: string, d: string, ttl: int, now: int)
    ensures Agrees(M.EMPTY, DeviceOf(NO_KEYS, ns, u, d), DeviceScope(u, d))
    ensures Remembers([], M.EMPTY, DeviceOf(NO_KEYS, ns, u, d), DeviceScope(u, d), ttl, now)
  {
    hide DeviceScope, StateKey, DedupeKey;
  }

  /** In every run the sorted set of every device is the closed form, and the identities ever applied in
      memory are those the memo has a time for. */
  lemma {:induction false} RunRemembers(ns: string, ttl: int, calls: seq<Call>, u: string, d: string, now: int)
    requires Clocked(calls) && ApartFrom(u, calls) && forall i :: 0 <= i < |calls| ==> calls[i].now <= now
    ensures Remembers(calls, MemoryRun(calls), DeviceOf(RedisRun(ns, ttl, calls), ns, u, d), DeviceScope(u, d), ttl,
                      now)
  {
    hide Identity, DeviceScope, Remembers, DeviceOf, M.Apply, M.Reset, ApplyScript, ResetScript;
    if calls == [] {
      NothingYet(ns, u, d, ttl, now);
    } else {
      var front, c := calls[..|calls| - 1], calls[|calls| - 1];
      assert calls == front + [c];
      RunRemembers(ns, ttl, front, u, d, c.now);
      var st, s := MemoryRun(front), RedisRun(ns, ttl, front);
      if u != UserOf(c) || d != DeviceIdOf(c) {
        StepElsewhere(st, s, ns, ttl, c, u, d);
        ElsewhereRemembers(front, c, st, OnMemory(st, c), DeviceOf(s, ns, u, d), DeviceScope(u, d), ttl);
      } else if c.Deliver? {
        DeliverRemembers(front, c, st, s, ns, ttl);
      } else {
        ResetRemembers(front, c, st, s, ns, ttl);
      }
      RemembersLater(calls, MemoryRun(calls), DeviceOf(RedisRun(ns, ttl, calls), ns, u, d), DeviceScope(u, d), ttl,
                     c.now, now);
    }
  }

  lemma ElsewhereRemembers(calls: seq<Call>, c: Call, st: M.Store, st': M.Store, v: Device, key: string, ttl: int)
    requires Remembers(calls, st, v, key, ttl, c.now) && M.SameRecord(st, st', key)
    requires c.Deliver? ==> M.DeviceKey(c.window) != key
    ensures Remembers(calls + [c], st', v, key, ttl, c.now)
  {
    hide Holds, MemoRun, Identity, DeviceScope;
    SameMemo(calls, c, key, ttl);
  }

  /** The exact test. After every run, Redis recognises an emission at `now` if and only if the last new
      application to its device came less than the time to live after the emission's own last, and less than
      the time to live ago. */
  lemma RecognisedIff(ns: string, ttl: int, calls: seq<Call>, w: AggregateWindow, now: int)
    requires Clocked(calls) && ApartFrom(w.key.userID, calls) && forall i :: 0 <= i < |calls| ==> calls[i].now <= now
    ensures SeenBefore(DeviceOf(RedisRun(ns, ttl, calls), ns, w.key.userID, w.key.deviceID), w, now)
       <==> Known(MemoRun(ttl, calls, M.DeviceKey(w)), Identity(w), ttl, now)
    ensures MemoRun(ttl, calls, M.DeviceKey(w)).since.Keys == M.Applied(MemoryRun(calls), M.DeviceKey(w))
  {
    hide Identity, DeviceScope, DeviceOf, Holds, MemoRun, MemoryRun, RedisRun, M.Applied;
    RunRemembers(ns, ttl, calls, w.key.userID, w.key.deviceID, now);
    HoldsKnown(DeviceOf(RedisRun(ns, ttl, calls), ns, w.key.userID, w.key.deviceID).applied,
               MemoRun(ttl, calls, M.DeviceKey(w)), ttl, now, Identity(w), now);
  }

  // ---- Agreement ----

  predicate FieldsAgree(r: M.DeviceRecord, h: Hash) {
    && h.count == r.count && h.errorCount == r.errorCount && h.bytes == r.bytes
    && h.lastWindowID == Some(r.lastWindowID)
    && h.p95Nanos == r.p95Nanos && h.p99Nanos == r.p99Nanos && h.percentileSample == r.percentileSample
  }

  /** The same devices, with the same counters, last window id, percentiles and percentile sample. */
  ghost predicate Agrees(st: M.Store, v: Device, key: string) {
    if key in st.devices then v.hash.Some? && FieldsAgree(st.devices[key], v.hash.value) else v.hash.None?
  }

  lemma CountAgrees(r: M.DeviceRecord, h: Hash, w: AggregateWindow)
    requires w.windowID >= 0 && w.count >= 1
    requires FieldsAgree(r, h) || (r == M.NewRecord(r.userID, r.deviceID) && h == Fresh(h.userID, h.deviceID))
    ensures FieldsAgree(M.Absorb(r, w), CountIn(h, w))
  {
    hide Identity;
  }

  /** The call at `j` is recognised if its emission was ever delivered before. */
  ghost predicate RecognisedAt(calls: seq<Call>, ttl: int, j: nat)
    requires j < |calls|
  {
    calls[j].Deliver? && DeliveredBefore(calls[..j], calls[j].window) ==>
      Known(MemoRun(ttl, calls[..j], M.DeviceKey(calls[j].window)), Identity(calls[j].window), ttl, calls[j].now)
  }

  ghost predicate DeliveredBefore(calls: seq<Call>, w: AggregateWindow) {
    exists i :: 0 <= i < |calls| && Delivers(calls[i], M.DeviceKey(w), Identity(w))
  }

  /** Every redelivery meets the exact test when it comes. */
  ghost predicate AllRecognised(calls: seq<Call>, ttl: int) {
    forall j: nat :: j < |calls| ==> RecognisedAt(calls, ttl, j)
  }

  /** What was applied in memory was delivered before, and conversely. */
  lemma {:induction false} AppliedIffDelivered(calls: seq<Call>, w: AggregateWindow)
    ensures Identity(w) in M.Applied(MemoryRun(calls), M.DeviceKey(w)) <==> DeliveredBefore(calls, w)
  {
    hide Identity, DeviceScope, M.Apply;
    if calls != [] {
      var front, c := calls[..|calls| - 1], calls[|calls| - 1];
      AppliedIffDelivered(front, w);
      assert forall i :: 0 <= i < |front| ==> front[i] == calls[i];
      if c.Deliver? { M.ApplyEffect(MemoryRun(front), c.window, M.DeviceKey(w)); }
      assert DeliveredBefore(calls, w) <==> DeliveredBefore(front, w) || Delivers(c, M.DeviceKey(w), Identity(w));
    }
  }

  /** Both stores take a delivery for a duplicate, or neither does, when it is recognised if it should be. */
  lemma SameVerdict(ns: string, ttl: int, calls: seq<Call>, j: nat)
    requires Clocked(calls) && j < |calls| && calls[j].Deliver? && RecognisedAt(calls, ttl, j)
    ensures var w := calls[j].window;
            SeenBefore(DeviceOf(RedisRun(ns, ttl, calls[..j]), ns, w.key.userID, w.key.deviceID), w, calls[j].now)
            <==> Identity(w) in M.Applied(MemoryRun(calls[..j]), M.DeviceKey(w))
  {
    hide Identity, DeviceScope, DeviceOf, MemoRun, MemoryRun, RedisRun, M.Applied, DeliveredBefore;
    RecognisedIff(ns, ttl, calls[..j], calls[j].window, calls[j].now);
    AppliedIffDelivered(calls[..j], calls[j].window);
  }

  /** One delivery on which the two stores agree. */
  lemma DeliverAgrees(st: M.Store, s: Redis, ns: string, ttl: int, w: AggregateWindow, now: int)
    requires w.windowID >= 0 && w.count >= 1
    requires var v := DeviceOf(s, ns, w.key.userID, w.key.deviceID);
             Agrees(st, v, M.DeviceKey(w)) && (SeenBefore(v, w, now) <==> Identity(w) in M.Applied(st, M.DeviceKey(w)))
    ensures Agrees(M.Apply(st, w), DeviceOf(ApplyScript(s, ns, ttl, w, now), ns, w.key.userID, w.key.deviceID),
                   M.DeviceKey(w))
  {
    hide Identity, DeviceScope, StateKey, DedupeKey, CountIn, Remember, M.Absorb;
    var v := DeviceOf(s, ns, w.key.userID, w.key.deviceID);
    if !SeenBefore(v, w, now) { CountAgrees(M.RecordFor(st, w), HashOr(v, w), w); }
  }

  lemma ResetAgrees(st: M.Store, s: Redis, ns: string, userID: string, deviceID: string)
    requires Agrees(st, DeviceOf(s, ns, userID, deviceID), DeviceScope(userID, deviceID))
    ensures Agrees(M.Reset(st, DeviceScope(userID, deviceID)),
                   DeviceOf(ResetScript(s, ns, userID, deviceID), ns, userID, deviceID), DeviceScope(userID, deviceID))
  {
    hide DeviceScope, StateKey, DedupeKey;
  }

  /** After every call of every run in which redeliveries meet the test, the stores agree on every device. */
  lemma {:induction false} RunsAgree(ns: string, ttl: int, calls: seq<Call>, u: string, d: string)
    requires Orderly(calls) && AllRecognised(calls, ttl) && ApartFrom(u, calls)
    ensures Agrees(MemoryRun(calls), DeviceOf(RedisRun(ns, ttl, calls), ns, u, d), DeviceScope(u, d))
  {
    hide Identity, DeviceScope, DeviceOf, Agrees, RecognisedAt, ApplyScript, ResetScript, M.Apply, M.Reset, M.Applied;
    if calls == [] {
      NothingYet(ns, u, d, ttl, 0);
    } else {
      var front, c, last := calls[..|calls| - 1], calls[|calls| - 1], |calls| - 1;
      forall j: nat | j < last ensures RecognisedAt(front, ttl, j) { RecognisedPrefix(calls, last, ttl, j); }
      RunsAgree(ns, ttl, front, u, d);
      var st, s := MemoryRun(front), RedisRun(ns, ttl, front);
      if u != UserOf(c) || d != DeviceIdOf(c) {
        StepElsewhere(st, s, ns, ttl, c, u, d);
        SameAgrees(st, MemoryRun(calls), DeviceOf(s, ns, u, d), DeviceScope(u, d));
      } else if c.Deliver? {
        SameVerdict(ns, ttl, calls, last);
        DeliverAgrees(st, s, ns, ttl, c.window, c.now);
      } else {
        ResetAgrees(st, s, ns, u, d);
      }
    }
  }

  lemma RecognisedPrefix(calls: seq<Call>, n: nat, ttl: int, j: nat)
    requires j < n <= |calls| && RecognisedAt(calls, ttl, j)
    ensures RecognisedAt(calls[..n], ttl, j)
  {
    hide Identity, DeviceScope, MemoRun, DeliveredBefore;
    assert calls[..n][..j] == calls[..j];
  }

  lemma SameAgrees(st: M.Store, st': M.Store, v: Device, key: string)
    requires Agrees(st, v, key) && M.SameRecord(st, st', key)
    ensures Agrees(st', v, key)
  {
  }

  /** After every call so far, on every device. */
  ghost predicate AgreeThroughout(ns: string, ttl: int, calls: seq<Call>) {
    forall n: nat, u, d :: n <= |calls| && ApartFrom(u, calls) ==> AgreeAt(ns, ttl, calls, n, u, d)
  }

  ghost predicate AgreeAt(ns: string, ttl: int, calls: seq<Call>, n: nat, u: string, d: string)
    requires n <= |calls|
  {
    Agrees(MemoryRun(calls[..n]), DeviceOf(RedisRun(ns, ttl, calls[..n]), ns, u, d), DeviceScope(u, d))
  }

  /** A redelivery that fails the test is counted again: Redis moves and memory does not. */
  lemma UnrecognisedCountsAgain(ns: string, ttl: int, calls: seq<Call>, j: nat)
    requires Orderly(calls) && j < |calls| && !RecognisedAt(calls, ttl, j)
    ensures calls[j].Deliver? && M.DeviceKey(calls[j].window) in MemoryRun(calls[..j]).devices
    ensures var w := calls[j].window;
            var u, d := w.key.userID, w.key.deviceID;
            && M.Counters(MemoryRun(calls[..j + 1]), M.DeviceKey(w))
              == M.Counters(MemoryRun(calls[..j]), M.DeviceKey(w))
            && (AgreeAt(ns, ttl, calls, j, u, d) ==>
                  var v := DeviceOf(RedisRun(ns, ttl, calls[..j + 1]), ns, u, d);
                  v.hash.Some? && v.hash.value.count
                    == M.Counters(MemoryRun(calls[..j + 1]), M.DeviceKey(w)).count + w.count)
  {
    hide Identity, DeviceScope, StateKey, DedupeKey, MemoRun, DeliveredBefore, Remember, M.Absorb;
    var w := calls[j].window;
    assert calls[..j + 1][..j] == calls[..j];
    RecognisedIff(ns, ttl, calls[..j], w, calls[j].now);
    AppliedIffDelivered(calls[..j], w);
  }

  /** Agreement is exact: the stores agree after every call on every device if and only if every redelivery
      meets the test. */
  lemma AgreeIffRecognised(ns: string, ttl: int, calls: seq<Call>)
    requires Orderly(calls)
    ensures AgreeThroughout(ns, ttl, calls) <==> AllRecognised(calls, ttl)
  {
    hide Identity, DeviceScope, DeviceOf, RecognisedAt, AgreeAt;
    if AllRecognised(calls, ttl) {
      forall n: nat, u, d | n <= |calls| && ApartFrom(u, calls) ensures AgreeAt(ns, ttl, calls, n, u, d) {
        PrefixAgrees(ns, ttl, calls, n, u, d);
      }
    } else {
      var j: nat :| j < |calls| && !RecognisedAt(calls, ttl, j);
      var w := UnrecognisedDiffers(ns, ttl, calls, j);
      assert !AgreeAt(ns, ttl, calls, j, w.key.userID, w.key.deviceID)
          || !AgreeAt(ns, ttl, calls, j + 1, w.key.userID, w.key.deviceID);
    }
  }

  lemma PrefixAgrees(ns: string, ttl: int, calls: seq<Call>, n: nat, u: string, d: string)
    requires Orderly(calls) && AllRecognised(calls, ttl) && n <= |calls| && ApartFrom(u, calls)
    ensures AgreeAt(ns, ttl, calls, n, u, d)
  {
    hide Identity, DeviceScope, DeviceOf, RecognisedAt, Agrees;
    forall j: nat | j < n ensures RecognisedAt(calls[..n], ttl, j) { RecognisedPrefix(calls, n, ttl, j); }
    RunsAgree(ns, ttl, calls[..n], u, d);
  }

  lemma UnrecognisedDiffers(ns: string, ttl: int, calls: seq<Call>, j: nat) returns (w: AggregateWindow)
    requires Orderly(calls) && j < |calls| && !RecognisedAt(calls, ttl, j)
    ensures ApartFrom(w.key.userID, calls)
    ensures !AgreeAt(ns, ttl, calls, j, w.key.userID, w.key.deviceID)
         || !AgreeAt(ns, ttl, calls, j + 1, w.key.userID, w.key.deviceID)
  {
    hide Identity, DeviceScope, DeviceOf, RecognisedAt, MemoryRun, RedisRun;
    UnrecognisedCountsAgain(ns, ttl, calls, j);
    w := calls[j].window;
    assert UserOf(calls[j]) == w.key.userID;
  }

  // ---- When the test is met ----

  /** Every redelivery comes less than the time to live after each earlier delivery, so after the first. */
  ghost predicate InTime(calls: seq<Call>, ttl: int) {
    forall i, j :: 0 <= i < j < |calls| && calls[i].Deliver? && calls[j].Deliver?
      && M.DeviceKey(calls[i].window) == M.DeviceKey(calls[j].window)
        && Identity(calls[i].window) == Identity(calls[j].window)
      ==> calls[j].now < calls[i].now + ttl
  }

  /** The memo's times are those of deliveries of the identity, none after the last. */
  lemma {:induction false} MemoTimes(ttl: int, calls: seq<Call>, key: string, id: string) returns (i: nat)
    requires Clocked(calls) && id in MemoRun(ttl, calls, key).since
    ensures i < |calls| && Delivers(calls[i], key, id) && calls[i].now == MemoRun(ttl, calls, key).since[id]
    ensures MemoRun(ttl, calls, key).last.Some?
    ensures calls[i].now <= MemoRun(ttl, calls, key).last.value <= calls[|calls| - 1].now
  {
    hide Identity, DeviceScope;
    var front, c := calls[..|calls| - 1], calls[|calls| - 1];
    if id in MemoRun(ttl, front, key).since
      && !(Delivers(c, key, id) && !Known(MemoRun(ttl, front, key), id, ttl, c.now)) {
      i := MemoTimes(ttl, front, key, id);
    } else {
      i := |calls| - 1;
    }
  }

  /** Redeliveries within the time to live of the first all meet the test. */
  lemma InTimeIsRecognised(calls: seq<Call>, ttl: int)
    requires Clocked(calls) && InTime(calls, ttl)
    ensures AllRecognised(calls, ttl)
  {
    forall j: nat | j < |calls| ensures RecognisedAt(calls, ttl, j) { InTimeAt(calls, ttl, j); }
  }

  lemma InTimeAt(calls: seq<Call>, ttl: int, j: nat)
    requires Clocked(calls) && InTime(calls, ttl) && j < |calls|
    ensures RecognisedAt(calls, ttl, j)
  {
    hide Identity, DeviceScope, MemoRun;
    if calls[j].Deliver? && DeliveredBefore(calls[..j], calls[j].window) {
      var w := calls[j].window;
      AppliedIffDelivered(calls[..j], w);
      RecognisedIff("", ttl, calls[..j], w, calls[j].now);
      var i := MemoTimes(ttl, calls[..j], M.DeviceKey(w), Identity(w));
      assert calls[..j][i] == calls[i] && calls[..j][j - 1] == calls[j - 1];
      assert calls[j].now < calls[i].now + ttl;
    }
  }

  predicate Elsewhere(c: Call, key: string) { c.Deliver? ==> M.DeviceKey(c.window) != key }

  /** When an emission was newly applied and nothing was delivered to its device since, it is counted again
      exactly when it comes the time to live or more later. */
  lemma AloneCountedAgainIffLate(ns: string, ttl: int, calls: seq<Call>, i: nat, now: int)
    requires Clocked(calls) && ttl > 0 && i < |calls| && calls[i].Deliver?
    requires forall j :: 0 <= j < |calls| ==> calls[j].now <= now
    requires var w := calls[i].window;
             && !SeenBefore(DeviceOf(RedisRun(ns, ttl, calls[..i]), ns, w.key.userID, w.key.deviceID), w, calls[i].now)
             && forall j :: i < j < |calls| ==> Elsewhere(calls[j], M.DeviceKey(w))
    ensures var w := calls[i].window;
            var s := RedisRun(ns, ttl, calls);
            var v := DeviceOf(s, ns, w.key.userID, w.key.deviceID);
            var v' := DeviceOf(ApplyScript(s, ns, ttl, w, now), ns, w.key.userID, w.key.deviceID);
            && (SeenBefore(v, w, now) <==> now < calls[i].now + ttl)
            && (if now < calls[i].now + ttl then v' == v
                else v'.hash.Some? && v'.hash.value.count == HashOr(v, w).count + w.count)
  {
    hide Identity, DeviceScope, StateKey, DedupeKey, MemoRun, RedisRun, Remember, M.Applied, UsersApart, Holds;
    var w := calls[i].window;
    var key := M.DeviceKey(w);
    assert ApartFrom(UserOf(calls[i]), calls);
    RecognisedIff(ns, ttl, calls[..i], w, calls[i].now);
    LastLearnt(ttl, calls, i, key, |calls|);
    assert calls[..|calls|] == calls;
    RecognisedIff(ns, ttl, calls, w, now);
  }

  /** The memo after a new application with nothing delivered to the device since. */
  lemma {:induction false} LastLearnt(ttl: int, calls: seq<Call>, i: nat, key: string, n: nat)
    requires i < n <= |calls| && calls[i].Deliver? && M.DeviceKey(calls[i].window) == key
    requires !Known(MemoRun(ttl, calls[..i], key), Identity(calls[i].window), ttl, calls[i].now)
    requires forall j :: i < j < n ==> Elsewhere(calls[j], key)
    ensures var m := MemoRun(ttl, calls[..n], key);
            m.last == Some(calls[i].now) && Identity(calls[i].window) in m.since
              && m.since[Identity(calls[i].window)] == calls[i].now
  {
    hide Identity, DeviceScope;
    assert calls[..n][..n - 1] == calls[..n - 1];
    if n > i + 1 { LastLearnt(ttl, calls, i, key, n - 1); }
  }

  /** A redelivery of an emission delivered alone, the time to live or more later, is counted twice. */
  lemma LateRedeliveryCountsTwice(ns: string, ttl: int, w: AggregateWindow, first: int, later: int)
    requires first + ttl <= later && w.count != 0
    ensures var calls := [Deliver(w, first), Deliver(w, later)];
            var v := DeviceOf(RedisRun(ns, ttl, calls), ns, w.key.userID, w.key.deviceID);
            && M.Counters(MemoryRun(calls), M.DeviceKey(w)) == TotalsOf(w)
            && v.hash.Some? && v.hash.value.count == 2 * w.count
  {
    hide Identity, DeviceScope, StateKey, DedupeKey;
    var one, calls := [Deliver(w, first)], [Deliver(w, first), Deliver(w, later)];
    assert one[..0] == [] && calls[..1] == one;
    assert RedisRun(ns, ttl, one) == ApplyScript(NO_KEYS, ns, ttl, w, first);
    assert MemoryRun(one) == M.Apply(M.EMPTY, w);
    M.ApplyEffect(M.EMPTY, w, M.DeviceKey(w));
    M.ApplyEffect(M.Apply(M.EMPTY, w), w, M.DeviceKey(w));
  }

  /** Another emission of the same device can keep an identity remembered for up to twice the time to live. */
  lemma AnotherKeepsItKnown(ttl: int, w: AggregateWindow, y: AggregateWindow, first: int, between: int, now: int)
    requires first <= between < first + ttl && between <= now < between + ttl
    requires M.DeviceKey(y) == M.DeviceKey(w) && Identity(y) != Identity(w)
    ensures Known(MemoRun(ttl, [Deliver(w, first), Deliver(y, between)], M.DeviceKey(w)), Identity(w), ttl, now)
  {
    hide Identity, DeviceScope;
    var one, calls := [Deliver(w, first)], [Deliver(w, first), Deliver(y, between)];
    assert one[..0] == [] && calls[..1] == one;
    assert MemoRun(ttl, one, M.DeviceKey(w)) == Memo(Some(first), map[Identity(w) := first]);
  }

  // ---- The object ----

  class Store {
    const ns: string
    const ttl: int
    var states: map<string, Hash>
    var applied: map<string, Applied>

    function Keys(): Redis reads this { Redis(states, applied) }

    constructor (ns: string, ttl: int)
      ensures Keys() == NO_KEYS && this.ns == ns && this.ttl == ttl
    {
      this.ns, this.ttl, states, applied := ns, ttl, map[], map[];
    }

    /** The apply script; answers whether the emission was new. */
    method ApplyWindow(w: AggregateWindow, now: int) returns (isNew: bool)
      modifies this
      ensures Keys() == ApplyScript(old(Keys()), ns, ttl, w, now)
      ensures isNew == !SeenBefore(DeviceOf(old(Keys()), ns, w.key.userID, w.key.deviceID), w, now)
    {
      hide Identity, DeviceScope, StateKey, DedupeKey;
      var identity := Identity(w);
      var state, dedupe := StateKey(ns, w.key.userID, w.key.deviceID), DedupeKey(ns, w.key.userID, w.key.deviceID);
      var scores: map<string, int> :=
        if dedupe in applied && now < applied[dedupe].expireAt then applied[dedupe].scores else map[];
      if identity in scores { return false; }
      scores := scores[identity := now];
      scores := map id | id in scores && scores[id] > now - ttl :: scores[id];
      applied := applied[dedupe := Applied(scores, now + ttl)];
      var h := if state in states then states[state] else Fresh(w.key.userID, w.key.deviceID);
      var current := if h.lastWindowID.Some? then h.lastWindowID.value else -1;
      h := h.(count := h.count + w.count, errorCount := h.errorCount + w.errorCount, bytes := h.bytes + w.bytes);
      if w.windowID > current {
        h := h.(lastWindowID := Some(w.windowID), p95Nanos := w.p95Nanos, p99Nanos := w.p99Nanos,
                percentileSample := w.count);
      } else if w.windowID == current {
        if w.count > h.percentileSample {
          h := h.(p95Nanos := w.p95Nanos, p99Nanos := w.p99Nanos, percentileSample := w.count);
        }
      }
      states := states[state := h];
      return true;
    }

    /** The reset script; answers whether the device was known. */
    method ResetDevice(userID: string, deviceID: string) returns (found: bool)
      modifies this
      ensures Keys() == ResetScript(old(Keys()), ns, userID, deviceID)
      ensures found == (StateKey(ns, userID, deviceID) in old(states))
    {
      hide DeviceScope, StateKey;
      var state := StateKey(ns, userID, deviceID);
      if state !in states { return false; }
      states := states[state := states[state].(count := 0, errorCount := 0, bytes := 0, p95Nanos := 0, p99Nanos := 0,
                                               percentileSample := 0)];
      return true;
    }
  }
}
