/** Exactly-once counting over at-least-once delivery. The aggregator, any number of emits in progress, a
    fan-out to several targets and each target's deduplicating store run interleaved, with publications
    failing, succeeding in part, being repeated and arriving in any order, and devices being reset
    (internal/aggregate/aggregator.go:129-282, internal/aggregator/service.go:97-119,
    internal/app/fanout.go:19-29, internal/store/memory.go:57-145). */
module ExactlyOnce {
  import opened Aggregation
  import opened AggregatorHistory
  import opened Domain
  import opened MemoryStore
  import opened Tallies

  /** A publication target: the emissions it has taken, those delivered to its store at least once, those of
      them that no reset has wiped since, and the store. */
  datatype Target = Target(taken: set<int>, delivered: set<int>, standing: set<int>, store: Store)

  /** An emit in progress: what is still to be published, what has been, how many targets have been asked for
      the window at hand, and whether all of them reported success. */
  datatype Call = Call(rest: seq<AggregateWindow>, published: seq<AggregateWindow>, asked: nat, clean: bool)

  datatype System = System(history: History, calls: map<nat, Call>, targets: seq<Target>)

  /** A target's answer to a publication. It may take the window and still report an error. */
  datatype Answer = Answer(taken: bool, ok: bool)

  datatype Move =
    | Accept(events: seq<Event>, sketchOk: seq<bool>)
    | Gather(call: nat, selection: Selection)
    | Offer(call: nat, answer: Answer)
    | Conclude(call: nat)
    | Settle(call: nat)
    | DeliverTo(target: nat, sequence: int)
    | ResetAt(target: nat, key: string)

  function Init(seed: int, targets: nat): System {
    System(Begin(seed), map[], seq(targets, _ => Target({}, {}, {}, EMPTY)))
  }

  /** When a move can happen. A target that reports success has taken the window; a store is handed only
      what its target took. */
  ghost predicate Enabled(s: System, m: Move) {
    match m
    case Accept(events, sketchOk) => |sketchOk| == |events|
    case Gather(call, _) => call !in s.calls
    case Offer(call, answer) =>
      call in s.calls && s.calls[call].rest != [] && s.calls[call].asked < |s.targets| && (answer.ok ==> answer.taken)
    case Conclude(call) => call in s.calls && s.calls[call].rest != [] && s.calls[call].asked == |s.targets|
    case Settle(call) => call in s.calls && s.calls[call].rest == []
    case DeliverTo(target, sequence) => target < |s.targets| && sequence in s.targets[target].taken
    case ResetAt(target, _) => target < |s.targets|
  }

  /** One delivery to a target's store. */
  function Receive(h: History, t: Target, sequence: int): Target
    requires sequence in h.emitted
  {
    t.(delivered := t.delivered + {sequence}, store := Apply(t.store, h.emitted[sequence]),
       standing := if sequence in t.delivered then t.standing else t.standing + {sequence})
  }

  /** The emissions of one device among the given ones. */
  function OfDevice(h: History, sequences: set<int>, key: string): set<int> {
    set s | s in sequences && s in h.emitted && DeviceKey(h.emitted[s]) == key
  }

  /** A reset of one device in a target's store: what it had received is wiped, and not forgotten. */
  function Wipe(h: History, t: Target, key: string): Target {
    t.(standing := t.standing - OfDevice(h, t.standing, key), store := Reset(t.store, key))
  }

  /** The start of an emit: collect. A collection that fails part-way starts no publishing. */
  ghost function Gathered(c: Config, s: System, call: nat, selection: Selection): System
    requires Shaped(c, s.history)
  {
    var r := Collect(c, s.history.agg, selection);
    var h := CollectIn(c, s.history, selection);
    if r.failed then s.(history := h) else s.(history := h, calls := s.calls[call := Call(r.windows, [], 0, true)])
  }

  /** One turn of the fan-out: the next target is asked to take the window. */
  function Offered(s: System, call: nat, answer: Answer): System
    requires call in s.calls && s.calls[call].rest != [] && s.calls[call].asked < |s.targets|
  {
    var p := s.calls[call];
    var t := s.targets[p.asked];
    s.(targets := if answer.taken then s.targets[p.asked := t.(taken := t.taken + {p.rest[0].sequence})] else s.targets,
       calls := s.calls[call := p.(asked := p.asked + 1, clean := p.clean && answer.ok)])
  }

  /** One turn of the publish loop, once every target has answered: published if none reported an error. */
  function Concluded(s: System, call: nat): System
    requires call in s.calls && s.calls[call].rest != []
  {
    var p := s.calls[call];
    var published := if p.clean then p.published + [p.rest[0]] else p.published;
    s.(calls := s.calls[call := Call(p.rest[1..], published, 0, true)])
  }

  /** The end of an emit: commit. */
  function Settled(s: System, call: nat): System
    requires call in s.calls
  {
    s.(history := CommitIn(s.history, s.calls[call].published), calls := s.calls - {call})
  }

  function DeliveredOnce(s: System, target: nat, sequence: int): System
    requires target < |s.targets| && sequence in s.history.emitted
  {
    s.(targets := s.targets[target := Receive(s.history, s.targets[target], sequence)])
  }

  function ResetOnce(s: System, target: nat, key: string): System
    requires target < |s.targets|
  {
    s.(targets := s.targets[target := Wipe(s.history, s.targets[target], key)])
  }

  ghost function Next(c: Config, s: System, m: Move): System
    requires Shaped(c, s.history) && Enabled(s, m)
    requires m.DeliverTo? ==> m.sequence in s.history.emitted
  {
    match m
    case Accept(events, sketchOk) => s.(history := AdmitBatch(c, s.history, events, sketchOk))
    case Gather(call, selection) => Gathered(c, s, call, selection)
    case Offer(call, answer) => Offered(s, call, answer)
    case Conclude(call) => Concluded(s, call)
    case Settle(call) => Settled(s, call)
    case DeliverTo(target, sequence) => DeliveredOnce(s, target, sequence)
    case ResetAt(target, key) => ResetOnce(s, target, key)
  }

  // ---- The invariant ----

  function EventKey(e: Event): string { DeviceScope(e.userID, e.deviceID) }

  /** The admitted events of one device. */
  ghost function DeviceIds(h: History, key: string): set<nat> {
    set i: nat | i < |h.admitted| && EventKey(h.admitted[i]) == key
  }

  /** Those of them whose emission is one of the given ones. */
  ghost function ReceivedIds(h: History, sequences: set<int>, key: string): set<nat>
    requires |h.places| == |h.admitted|
  {
    set i: nat | i < |h.admitted| && InOneOf(h.places[i], sequences) && EventKey(h.admitted[i]) == key
  }

  predicate InOneOf(place: Place, sequences: set<int>) { place.InEmission? && place.sequence in sequences }

  /** A list of windows that are emissions on record. */
  ghost predicate OnRecord(h: History, ws: seq<AggregateWindow>) {
    forall w :: w in ws ==> w.sequence in h.emitted && h.emitted[w.sequence] == w
  }

  ghost predicate TakenByAll(targets: seq<Target>, sequence: int) {
    forall t :: 0 <= t < |targets| ==> sequence in targets[t].taken
  }

  /** The targets asked so far have taken the window at hand. */
  ghost predicate TakenSoFar(targets: seq<Target>, p: Call) {
    p.rest != [] ==> forall t :: 0 <= t < p.asked && t < |targets| ==> p.rest[0].sequence in targets[t].taken
  }

  ghost predicate CallAgrees(s: System, p: Call) {
    && OnRecord(s.history, p.rest) && OnRecord(s.history, p.published)
    && (forall w :: w in p.published ==> TakenByAll(s.targets, w.sequence))
    && p.asked <= |s.targets| && (p.clean ==> TakenSoFar(s.targets, p))
  }

  /** An identity heard at a device is that of an emission for it that was delivered. */
  ghost predicate Heard(h: History, delivered: set<int>, key: string, id: string) {
    exists s :: s in delivered && s in h.emitted && DeviceKey(h.emitted[s]) == key && Identity(h.emitted[s]) == id
  }

  /** A store shows, for every device, the tally of the events whose emission has reached it and stands. */
  ghost predicate StoreAgrees(h: History, t: Target)
    requires |h.places| == |h.admitted|
  {
    && t.standing <= t.delivered <= t.taken <= h.emitted.Keys
    && (forall key :: Counters(t.store, key) == Tally(h.admitted, ReceivedIds(h, t.standing, key)))
    && (forall key, id :: id in Applied(t.store, key) <==> Heard(h, t.delivered, key, id))
  }

  ghost predicate Inv(c: Config, s: System) {
    && Sound(c, s.history)
    && (forall call :: call in s.calls ==> CallAgrees(s, s.calls[call]))
    && (forall sequence :: sequence in s.history.committed ==> TakenByAll(s.targets, sequence))
    && (forall t :: 0 <= t < |s.targets| ==> StoreAgrees(s.history, s.targets[t]))
  }

  // ---- What only grows ----

  /** Emissions stay on record and targets keep what they took. */
  ghost predicate Extends(s: System, s': System) {
    && |s'.targets| == |s.targets|
    && (forall x :: x in s.history.emitted ==> x in s'.history.emitted && s'.history.emitted[x] == s.history.emitted[x])
    && (forall t :: 0 <= t < |s.targets| ==> s.targets[t].taken <= s'.targets[t].taken)
  }

  lemma ExtendKeepsTaken(s: System, s': System, sequence: int)
    requires Extends(s, s') && TakenByAll(s.targets, sequence)
    ensures TakenByAll(s'.targets, sequence)
  {
  }

  lemma ExtendKeepsCall(s: System, s': System, p: Call)
    requires Extends(s, s') && CallAgrees(s, p)
    ensures CallAgrees(s', p)
  {
    forall w | w in p.published ensures TakenByAll(s'.targets, w.sequence) { ExtendKeepsTaken(s, s', w.sequence); }
  }

  /** The invariant of an extended system, from what is new in it. */
  lemma ExtendKeeps(c: Config, s: System, s': System)
    requires Inv(c, s) && Extends(s, s') && Sound(c, s'.history)
    requires forall t :: 0 <= t < |s'.targets| ==> StoreAgrees(s'.history, s'.targets[t])
    requires forall call :: call in s'.calls ==>
              (call in s.calls && s'.calls[call] == s.calls[call]) || CallAgrees(s', s'.calls[call])
    requires forall x :: x in s'.history.committed ==> x in s.history.committed || TakenByAll(s'.targets, x)
    ensures Inv(c, s')
  {
    hide Sound, StoreAgrees, Extends, CallAgrees, TakenByAll;
    forall call | call in s'.calls ensures CallAgrees(s', s'.calls[call]) {
      if !CallAgrees(s', s'.calls[call]) { ExtendKeepsCall(s, s', s.calls[call]); }
    }
    forall x | x in s'.history.committed ensures TakenByAll(s'.targets, x) {
      if x in s.history.committed { ExtendKeepsTaken(s, s', x); }
    }
  }

  // ---- Reading the store's part of the invariant ----

  lemma Shown(h: History, t: Target, key: string)
    requires |h.places| == |h.admitted| && StoreAgrees(h, t)
    ensures Counters(t.store, key) == Tally(h.admitted, ReceivedIds(h, t.standing, key))
    ensures t.standing <= t.delivered <= t.taken <= h.emitted.Keys
  {
    hide Identity, DeviceScope, Tally;
  }

  lemma HeardIn(h: History, t: Target, key: string, id: string)
    requires |h.places| == |h.admitted| && StoreAgrees(h, t)
    ensures id in Applied(t.store, key) <==> Heard(h, t.delivered, key, id)
  {
    hide Identity, DeviceScope, Tally, Heard;
  }

  // ---- Every move keeps it ----

  lemma AcceptKeepsStore(c: Config, h: History, events: seq<Event>, sketchOk: seq<bool>, t: Target)
    requires Sound(c, h) && |sketchOk| == |events| && StoreAgrees(h, t)
    ensures var h' := AdmitBatch(c, h, events, sketchOk); |h'.places| == |h'.admitted| && StoreAgrees(h', t)
  {
    assert |h.places| == |h.admitted| && ValidConfig(c);
    hide Sound, Identity, DeviceScope, IngestBatch, Tally;
    var more := IngestBatch(c, h.agg, events, sketchOk).admitted;
    var h' := AdmitBatch(c, h, events, sketchOk);
    forall key
      ensures Counters(t.store, key) == Tally(h'.admitted, ReceivedIds(h', t.standing, key))
    {
      assert ReceivedIds(h', t.standing, key) == ReceivedIds(h, t.standing, key);
      TallyExtend(h.admitted, more, ReceivedIds(h, t.standing, key));
    }
    forall key, id
      ensures id in Applied(t.store, key) <==> Heard(h', t.delivered, key, id)
    {
      HeardIn(h, t, key, id);
      assert Heard(h', t.delivered, key, id) <==> Heard(h, t.delivered, key, id);
    }
  }

  lemma GrowKeepsReceived(h: History, h': History, delivered: set<int>, key: string)
    requires |h.places| == |h.admitted| && Grows(h, h') && h'.admitted == h.admitted && delivered <= h.emitted.Keys
    ensures ReceivedIds(h', delivered, key) == ReceivedIds(h, delivered, key)
  {
    hide DeviceScope;
    forall i: nat | i < |h.admitted|
      ensures i in ReceivedIds(h', delivered, key) <==> i in ReceivedIds(h, delivered, key)
    {
      assert h'.places[i] == h.places[i]
          || (h.places[i].InOpen? && h'.places[i].InEmission? && h'.places[i].sequence !in h.emitted);
    }
  }

  lemma GatherKeepsStore(h: History, h': History, t: Target)
    requires |h.places| == |h.admitted| && Grows(h, h') && h'.admitted == h.admitted && StoreAgrees(h, t)
    ensures StoreAgrees(h', t)
  {
    hide Identity, DeviceScope, Tally;
    forall x | x in h.emitted ensures x in h'.emitted { var w := h.emitted[x]; }
    forall key
      ensures Counters(t.store, key) == Tally(h'.admitted, ReceivedIds(h', t.standing, key))
    {
      GrowKeepsReceived(h, h', t.standing, key);
    }
    forall key, id
      ensures id in Applied(t.store, key) <==> Heard(h', t.delivered, key, id)
    {
      HeardIn(h, t, key, id);
      assert Heard(h', t.delivered, key, id) <==> Heard(h, t.delivered, key, id);
    }
  }

  /** The events of an emission all belong to the emission's device. */
  lemma EmissionOfOneDevice(c: Config, h: History, sequence: int, i: nat)
    requires Sound(c, h) && sequence in h.emitted && i in EmittedIds(h, sequence)
    ensures EventKey(h.admitted[i]) == DeviceKey(h.emitted[sequence])
  {
    hide Identity, DeviceScope, WindowID, Tally, Latencies;
    assert Placed(c, h, i);
  }

  lemma ReceiveIds(c: Config, h: History, sequences: set<int>, sequence: int, key: string)
    requires Sound(c, h) && sequence in h.emitted
    ensures ReceivedIds(h, sequences + {sequence}, key)
         == ReceivedIds(h, sequences, key)
            + if key == DeviceKey(h.emitted[sequence]) then EmittedIds(h, sequence) else {}
  {
    assert |h.places| == |h.admitted|;
    hide Sound, DeviceScope;
    forall i: nat | i in EmittedIds(h, sequence) ensures EventKey(h.admitted[i]) == DeviceKey(h.emitted[sequence]) {
      EmissionOfOneDevice(c, h, sequence, i);
    }
  }

  /** A delivery is a duplicate for the store exactly when it is one. */
  lemma HeardOnce(c: Config, h: History, delivered: set<int>, sequence: int)
    requires Sound(c, h) && sequence in h.emitted && delivered <= h.emitted.Keys
    ensures var w := h.emitted[sequence]; Heard(h, delivered, DeviceKey(w), Identity(w)) <==> sequence in delivered
  {
    hide Identity, DeviceScope, Tally, Latencies, OpenAgrees, Placed, PendingAgrees;
    var w := h.emitted[sequence];
    assert EmissionAgrees(c, h, sequence);
    forall s | s in delivered && Identity(h.emitted[s]) == Identity(w)
      ensures s == sequence
    {
      IdentityDeterminesEmission(h.emitted[s], w);
      assert EmissionAgrees(c, h, s);
    }
  }

  lemma EmissionTally(c: Config, h: History, sequence: int)
    requires Sound(c, h) && sequence in h.emitted
    ensures TotalsOf(h.emitted[sequence]) == Tally(h.admitted, EmittedIds(h, sequence))
    ensures |h.places| == |h.admitted|
  {
    hide Identity, Latencies;
    assert EmissionAgrees(c, h, sequence);
  }

  lemma ReceiveCounters(c: Config, h: History, t: Target, sequence: int, key: string)
    requires Sound(c, h) && |h.places| == |h.admitted| && StoreAgrees(h, t) && sequence in h.emitted
    ensures Counters(Receive(h, t, sequence).store, key)
         == Tally(h.admitted, ReceivedIds(h, Receive(h, t, sequence).standing, key))
  {
    hide Sound, StoreAgrees, Identity, DeviceScope, Tally, Apply, Heard, Counters, Applied, ReceivedIds;
    var w := h.emitted[sequence];
    Shown(h, t, key);
    ApplyEffect(t.store, w, key);
    HeardOnce(c, h, t.delivered, sequence);
    HeardIn(h, t, DeviceKey(w), Identity(w));
    ReceiveIds(c, h, t.standing, sequence, key);
    if sequence !in t.delivered {
      if key == DeviceKey(w) {
        EmissionTally(c, h, sequence);
        ReceivedApart(h, t.standing, sequence, key);
        TallyDisjoint(h.admitted, ReceivedIds(h, t.standing, key), EmittedIds(h, sequence));
      } else {
        assert ReceivedIds(h, t.standing, key) + {} == ReceivedIds(h, t.standing, key);
      }
    }
  }

  lemma ReceivedApart(h: History, delivered: set<int>, sequence: int, key: string)
    requires |h.places| == |h.admitted| && sequence !in delivered
    ensures ReceivedIds(h, delivered, key) !! EmittedIds(h, sequence)
  {
  }

  lemma ReceiveKeepsStore(c: Config, h: History, t: Target, sequence: int)
    requires Sound(c, h) && |h.places| == |h.admitted| && StoreAgrees(h, t) && sequence in t.taken
    requires sequence in h.emitted
    ensures StoreAgrees(h, Receive(h, t, sequence))
  {
    hide Sound, Identity, DeviceScope, Tally, Apply;
    var t' := Receive(h, t, sequence);
    forall key ensures Counters(t'.store, key) == Tally(h.admitted, ReceivedIds(h, t'.standing, key)) {
      ReceiveCounters(c, h, t, sequence, key);
    }
    forall key, id
      ensures id in Applied(t'.store, key) <==> Heard(h, t'.delivered, key, id)
    {
      ApplyEffect(t.store, h.emitted[sequence], key);
    }
  }

  /** What a reset leaves standing: nothing of its own device, all of every other. */
  lemma WipeIds(c: Config, h: History, t: Target, key: string, other: string)
    requires Sound(c, h) && t.standing <= h.emitted.Keys
    ensures |h.places| == |h.admitted|
    ensures ReceivedIds(h, Wipe(h, t, key).standing, other)
         == if other == key then {} else ReceivedIds(h, t.standing, other)
  {
    assert |h.places| == |h.admitted|;
    hide Sound, DeviceScope, Reset;
    forall i: nat | i < |h.admitted| && InOneOf(h.places[i], t.standing)
      ensures EventKey(h.admitted[i]) == DeviceKey(h.emitted[h.places[i].sequence])
    {
      EmissionOfOneDevice(c, h, h.places[i].sequence, i);
    }
  }

  lemma WipeKeepsStore(c: Config, h: History, t: Target, key: string)
    requires Sound(c, h) && |h.places| == |h.admitted| && StoreAgrees(h, t)
    ensures StoreAgrees(h, Wipe(h, t, key))
  {
    hide Sound, Identity, DeviceScope, Tally, Heard;
    var t' := Wipe(h, t, key);
    forall other ensures Counters(t'.store, other) == Tally(h.admitted, ReceivedIds(h, t'.standing, other)) {
      WipeIds(c, h, t, key, other);
      Shown(h, t, other);
      TallyNone(h.admitted, {});
    }
  }

  lemma ResetKeeps(c: Config, s: System, target: nat, key: string)
    requires Inv(c, s) && target < |s.targets|
    ensures Inv(c, ResetOnce(s, target, key))
  {
    hide Sound, StoreAgrees, Reset;
    Lengths(c, s.history);
    WipeKeepsStore(c, s.history, s.targets[target], key);
    ExtendKeeps(c, s, ResetOnce(s, target, key));
  }

  lemma AcceptKeeps(c: Config, s: System, events: seq<Event>, sketchOk: seq<bool>)
    requires Inv(c, s) && |sketchOk| == |events|
    ensures ValidConfig(c) && Inv(c, s.(history := AdmitBatch(c, s.history, events, sketchOk)))
  {
    assert ValidConfig(c);
    AdmitBatchSound(c, s.history, events, sketchOk);
    hide Sound, StoreAgrees, IngestBatch, CallAgrees;
    var s' := s.(history := AdmitBatch(c, s.history, events, sketchOk));
    assert |s'.history.places| == |s'.history.admitted| by { assert Shaped(c, s.history); }
    forall t | 0 <= t < |s'.targets| ensures StoreAgrees(s'.history, s'.targets[t]) {
      AcceptKeepsStore(c, s.history, events, sketchOk, s.targets[t]);
    }
    ExtendKeeps(c, s, s');
  }

  lemma PendingOnRecord(c: Config, h: History)
    requires Sound(c, h)
    ensures OnRecord(h, PendingInOrder(h.agg.pending))
  {
    PendingListed(h.agg.pending);
    hide PendingInOrder, Identity, OpenAgrees, EmissionAgrees, Placed;
  }

  lemma GatherRecords(c: Config, h: History, selection: Selection)
    requires Sound(c, h) && Shaped(c, h)
    ensures var h' := CollectIn(c, h, selection);
            && Sound(c, h') && Grows(h, h') && h'.admitted == h.admitted && h'.committed == h.committed
            && OnRecord(h', Collect(c, h.agg, selection).windows)
  {
    hide Sound, EmitKeys, EmitKeysIn, PendingInOrder;
    var keys := SelectedInOrder(h.agg, selection);
    EmitKeysSound(c, h, keys);
    EmitKeysAgree(c, h, keys);
    EmitKeysGrow(c, h, keys);
    PendingOnRecord(c, h);
  }

  lemma GatherKeeps(c: Config, s: System, call: nat, selection: Selection)
    requires Inv(c, s) && call !in s.calls
    ensures Shaped(c, s.history) && Inv(c, Gathered(c, s, call, selection))
  {
    assert Shaped(c, s.history);
    hide Sound, StoreAgrees, Collect, CollectIn, Shaped, Grows, CallAgrees, TakenByAll;
    var s' := Gathered(c, s, call, selection);
    GatherRecords(c, s.history, selection);
    GrownSystem(s, s');
    Lengths(c, s.history);
    forall t | 0 <= t < |s'.targets| ensures StoreAgrees(s'.history, s'.targets[t]) {
      GatherKeepsStore(s.history, s'.history, s.targets[t]);
    }
    if call in s'.calls { NewCall(s', s'.calls[call]); }
    ExtendKeeps(c, s, s');
  }

  lemma GrownSystem(s: System, s': System)
    requires Grows(s.history, s'.history) && s'.targets == s.targets
    ensures Extends(s, s') && |s'.history.places| == |s.history.places|
  {
  }

  lemma NewCall(s: System, p: Call)
    requires OnRecord(s.history, p.rest) && p.published == [] && p.asked == 0
    ensures CallAgrees(s, p)
  {
  }

  lemma Lengths(c: Config, h: History)
    requires Sound(c, h)
    ensures |h.places| == |h.admitted|
  {
  }

  lemma OfferKeepsStore(h: History, t: Target, sequence: int)
    requires |h.places| == |h.admitted| && StoreAgrees(h, t) && sequence in h.emitted
    ensures StoreAgrees(h, t.(taken := t.taken + {sequence}))
  {
    hide Identity, DeviceScope, Tally, Heard, Counters, Applied;
  }

  lemma OfferKeeps(c: Config, s: System, call: nat, answer: Answer)
    requires Inv(c, s) && Enabled(s, Offer(call, answer))
    ensures Inv(c, Offered(s, call, answer))
  {
    hide Sound, StoreAgrees, Shaped;
    var p, s' := s.calls[call], Offered(s, call, answer);
    var w := p.rest[0];
    assert CallAgrees(s, p) && w in p.rest;
    Lengths(c, s.history);
    forall t | 0 <= t < |s'.targets| ensures StoreAgrees(s'.history, s'.targets[t]) {
      OfferKeepsStore(s.history, s.targets[t], w.sequence);
    }
    ExtendKeepsCall(s, s', p);
    assert CallAgrees(s', s'.calls[call]);
    ExtendKeeps(c, s, s');
  }

  lemma ConcludeKeeps(c: Config, s: System, call: nat)
    requires Inv(c, s) && Enabled(s, Conclude(call))
    ensures Inv(c, Concluded(s, call))
  {
    hide Sound, StoreAgrees, Shaped;
    var p, s' := s.calls[call], Concluded(s, call);
    assert CallAgrees(s, p) && p.rest[0] in p.rest;
    assert OnRecord(s'.history, p.rest[1..]);
    assert p.clean ==> TakenByAll(s'.targets, p.rest[0].sequence);
    assert CallAgrees(s', s'.calls[call]);
    ExtendKeeps(c, s, s');
  }

  lemma CommitKeepsStore(h: History, windows: seq<AggregateWindow>, t: Target)
    requires |h.places| == |h.admitted| && StoreAgrees(h, t)
    ensures StoreAgrees(CommitIn(h, windows), t)
  {
    hide Identity, DeviceScope, Tally, Counters, Applied, Commit;
    var h' := CommitIn(h, windows);
    forall key ensures Counters(t.store, key) == Tally(h'.admitted, ReceivedIds(h', t.standing, key)) {
      assert ReceivedIds(h', t.standing, key) == ReceivedIds(h, t.standing, key);
    }
    forall key, id ensures id in Applied(t.store, key) <==> Heard(h', t.delivered, key, id) {
      assert Heard(h', t.delivered, key, id) <==> Heard(h, t.delivered, key, id);
    }
  }

  /** What a settled emit commits was taken by every target. */
  lemma CommittedWerePublished(c: Config, s: System, call: nat)
    requires Inv(c, s) && call in s.calls
    ensures forall x :: x in CommitIn(s.history, s.calls[call].published).committed ==>
      x in s.history.committed || TakenByAll(s.targets, x)
  {
    hide Identity, Tally, StoreAgrees, OpenAgrees, Placed, PendingAgrees, Latencies;
    var h := s.history;
    assert CallAgrees(s, s.calls[call]);
    forall x | x in CommitIn(h, s.calls[call].published).committed && x !in h.committed
      ensures TakenByAll(s.targets, x)
    {
      var w :| w in s.calls[call].published && Identity(h.emitted[x]) == Identity(w);
      IdentityDeterminesEmission(h.emitted[x], w);
      assert EmissionAgrees(c, h, x);
    }
  }

  lemma SettleKeeps(c: Config, s: System, call: nat)
    requires Inv(c, s) && call in s.calls
    ensures Inv(c, Settled(s, call))
  {
    hide Sound, StoreAgrees, Identity, Commit;
    var published, s' := s.calls[call].published, Settled(s, call);
    CommitSound(c, s.history, published);
    CommittedWerePublished(c, s, call);
    Lengths(c, s.history);
    forall t | 0 <= t < |s'.targets| ensures StoreAgrees(s'.history, s'.targets[t]) {
      CommitKeepsStore(s.history, published, s.targets[t]);
    }
    ExtendKeeps(c, s, s');
  }

  lemma DeliverKeeps(c: Config, s: System, target: nat, sequence: int)
    requires Inv(c, s) && target < |s.targets| && sequence in s.targets[target].taken
    ensures sequence in s.history.emitted
    ensures Inv(c, DeliveredOnce(s, target, sequence))
  {
    hide Sound, StoreAgrees, Apply;
    Lengths(c, s.history);
    Shown(s.history, s.targets[target], "");
    ReceiveKeepsStore(c, s.history, s.targets[target], sequence);
    ExtendKeeps(c, s, DeliveredOnce(s, target, sequence));
  }

  lemma NextKeeps(c: Config, s: System, m: Move)
    requires Inv(c, s) && Enabled(s, m)
    ensures Shaped(c, s.history) && (m.DeliverTo? ==> m.sequence in s.history.emitted)
    ensures Inv(c, Next(c, s, m))
  {
    assert Shaped(c, s.history);
    hide Inv, Sound, AdmitBatch, Gathered, Offered, Concluded, Settled, DeliveredOnce, ResetOnce;
    match m
    case Accept(events, sketchOk) => AcceptKeeps(c, s, events, sketchOk);
    case Gather(call, selection) => GatherKeeps(c, s, call, selection);
    case Offer(call, answer) => OfferKeeps(c, s, call, answer);
    case Conclude(call) => ConcludeKeeps(c, s, call);
    case Settle(call) => SettleKeeps(c, s, call);
    case DeliverTo(target, sequence) => DeliverKeeps(c, s, target, sequence);
    case ResetAt(target, key) => ResetKeeps(c, s, target, key);
  }

  lemma InitHolds(c: Config, seed: int, targets: nat)
    requires ValidConfig(c)
    ensures Inv(c, Init(seed, targets))
  {
    hide Identity, DeviceScope;
    var s := Init(seed, targets);
    forall t | 0 <= t < |s.targets| ensures StoreAgrees(s.history, s.targets[t]) {
      forall key ensures Tally([], ReceivedIds(s.history, {}, key)) == ZERO {}
    }
  }

  // ---- Whole runs ----

  ghost predicate IsRun(c: Config, seed: int, targets: nat, run: seq<System>, moves: seq<Move>) {
    && ValidConfig(c)
    && |run| == |moves| + 1
    && run[0] == Init(seed, targets)
    && forall i :: 0 <= i < |moves| ==>
         && Shaped(c, run[i].history) && Enabled(run[i], moves[i])
         && (moves[i].DeliverTo? ==> moves[i].sequence in run[i].history.emitted)
         && run[i + 1] == Next(c, run[i], moves[i])
  }

  lemma {:induction false} RunKeeps(c: Config, seed: int, targets: nat, run: seq<System>, moves: seq<Move>, n: nat)
    requires IsRun(c, seed, targets, run, moves) && n < |run|
    ensures Inv(c, run[n])
  {
    hide Inv, Next, Shaped, Init;
    if n == 0 {
      InitHolds(c, seed, targets);
    } else {
      RunKeeps(c, seed, targets, run, moves, n - 1);
      NextKeeps(c, run[n - 1], moves[n - 1]);
    }
  }

  /** At every moment of every run, no store shows more for a device than the tally of the device's
      admitted events. */
  lemma NeverTooMuch(c: Config, s: System, t: nat, key: string)
    requires Inv(c, s) && t < |s.targets|
    ensures AtMost(Counters(s.targets[t].store, key), Tally(s.history.admitted, DeviceIds(s.history, key)))
  {
    hide DeviceScope;
    assert StoreAgrees(s.history, s.targets[t]) && Shaped(c, s.history);
    TallyMonotone(s.history.admitted, ReceivedIds(s.history, s.targets[t].standing, key), DeviceIds(s.history, key));
  }

  /** The emissions a reset has wiped from a store. */
  function Wiped(t: Target): set<int> { t.delivered - t.standing }

  /** The admitted events of one device, apart from those whose emission the given store has wiped. */
  ghost function StandingIds(h: History, t: Target, key: string): set<nat>
    requires |h.places| == |h.admitted|
  {
    DeviceIds(h, key) - ReceivedIds(h, Wiped(t), key)
  }

  /** Nothing is open or pending, and each emission the target took has been delivered at least once. */
  predicate Drained(s: System, t: nat)
    requires t < |s.targets|
  {
    s.history.agg.open == map[] && s.history.agg.pending == map[] && s.targets[t].taken <= s.targets[t].delivered
  }

  /** Drained, every admitted event is in an emission the store has received. */
  lemma AllReceived(c: Config, s: System, t: nat, i: nat)
    requires Inv(c, s) && t < |s.targets| && Drained(s, t) && i < |s.history.admitted|
    ensures i < |s.history.places| && InOneOf(s.history.places[i], s.targets[t].delivered)
  {
    hide DeviceScope, Identity, Tally;
    var h := s.history;
    assert Placed(c, h, i);
    assert h.places[i].sequence in h.committed;
    assert TakenByAll(s.targets, h.places[i].sequence);
  }

  /** Drained, a store shows for every device exactly the tally of the device's admitted events, apart from
      those wiped by a reset. */
  lemma ExactlyOnceWhenDrained(c: Config, s: System, t: nat, key: string)
    requires Inv(c, s) && t < |s.targets| && Drained(s, t)
    ensures |s.history.places| == |s.history.admitted|
    ensures Counters(s.targets[t].store, key) == Tally(s.history.admitted, StandingIds(s.history, s.targets[t], key))
  {
    var h, target := s.history, s.targets[t];
    Lengths(c, h);
    assert StoreAgrees(h, target);
    Shown(h, target, key);
    hide Inv, StoreAgrees, DeviceScope, Tally, Counters;
    forall i: nat | i < |h.admitted| ensures InOneOf(h.places[i], target.delivered) { AllReceived(c, s, t, i); }
    assert ReceivedIds(h, target.standing, key) == StandingIds(h, target, key);
  }

  // ---- What a reset wipes ----

  /** The emission had been delivered to the target, and its device was reset there later. */
  ghost predicate ResetSince(moves: seq<Move>, t: nat, sequence: int, key: string) {
    exists i, j :: 0 <= i < j < |moves| && moves[i] == DeliverTo(t, sequence) && moves[j] == ResetAt(t, key)
  }

  ghost predicate WasDelivered(moves: seq<Move>, t: nat, sequence: int) {
    exists i :: 0 <= i < |moves| && moves[i] == DeliverTo(t, sequence)
  }

  lemma MovesGrow(moves: seq<Move>, m: Move, t: nat, sequence: int, key: string)
    ensures WasDelivered(moves + [m], t, sequence) <==> WasDelivered(moves, t, sequence) || m == DeliverTo(t, sequence)
    ensures ResetSince(moves + [m], t, sequence, key)
       <==> ResetSince(moves, t, sequence, key) || (WasDelivered(moves, t, sequence) && m == ResetAt(t, key))
  {
    var more := moves + [m];
    assert more[|moves|] == m && forall i :: 0 <= i < |moves| ==> more[i] == moves[i];
    if WasDelivered(moves, t, sequence) && m == ResetAt(t, key) {
      var i :| 0 <= i < |moves| && moves[i] == DeliverTo(t, sequence);
      assert more[i] == DeliverTo(t, sequence) && more[|moves|] == ResetAt(t, key);
    }
    if WasDelivered(moves, t, sequence) {
      var i :| 0 <= i < |moves| && moves[i] == DeliverTo(t, sequence);
      assert more[i] == DeliverTo(t, sequence);
    }
  }

  /** What one move does to the emissions a target has received and to those it has wiped. */
  ghost predicate HeardStep(s: System, s': System, m: Move, t: nat, sequence: int)
    requires t < |s.targets| && s.targets[t].delivered <= s.history.emitted.Keys
  {
    && |s'.targets| == |s.targets|
    && (sequence in s'.targets[t].delivered <==> sequence in s.targets[t].delivered || m == DeliverTo(t, sequence))
    && (sequence in Wiped(s'.targets[t]) <==>
          || sequence in Wiped(s.targets[t])
          || (sequence in s.targets[t].delivered && m == ResetAt(t, DeviceKey(s.history.emitted[sequence]))))
  }

  lemma WipedStep(c: Config, s: System, m: Move, t: nat, sequence: int)
    requires Inv(c, s) && Enabled(s, m) && Shaped(c, s.history) && (m.DeliverTo? ==> m.sequence in s.history.emitted)
    requires t < |s.targets|
    ensures s.targets[t].delivered <= s.history.emitted.Keys && HeardStep(s, Next(c, s, m), m, t, sequence)
  {
    DeliveredEmitted(c, s, t);
    hide Inv, Shaped, AdmitBatch, Gathered, Offered, Concluded, Settled, DeliveredOnce, ResetOnce, HeardStep;
    match m
    case DeliverTo(target, x) => DeliverHeard(s, target, x, t, sequence);
    case ResetAt(target, key) => ResetHeard(s, target, key, t, sequence);
    case _ => QuietMove(c, s, m, t, sequence);
  }

  lemma QuietMove(c: Config, s: System, m: Move, t: nat, sequence: int)
    requires Enabled(s, m) && Shaped(c, s.history) && !m.DeliverTo? && !m.ResetAt?
    requires t < |s.targets| && s.targets[t].delivered <= s.history.emitted.Keys
    ensures HeardStep(s, Next(c, s, m), m, t, sequence)
  {
    hide Shaped, AdmitBatch, Collect, CollectIn, CommitIn;
  }

  lemma DeliverHeard(s: System, target: nat, x: int, t: nat, sequence: int)
    requires target < |s.targets| && x in s.history.emitted
    requires t < |s.targets| && s.targets[t].standing <= s.targets[t].delivered <= s.history.emitted.Keys
    ensures HeardStep(s, DeliveredOnce(s, target, x), DeliverTo(target, x), t, sequence)
  {
    hide Receive, Wiped, DeviceKey;
    ReceiveWipes(s.history, s.targets[t], x, sequence);
  }

  lemma ResetHeard(s: System, target: nat, key: string, t: nat, sequence: int)
    requires target < |s.targets|
    requires t < |s.targets| && s.targets[t].standing <= s.targets[t].delivered <= s.history.emitted.Keys
    ensures HeardStep(s, ResetOnce(s, target, key), ResetAt(target, key), t, sequence)
  {
    hide Wipe, Wiped, DeviceKey;
    WipeWipes(s.history, s.targets[t], key, sequence);
  }

  lemma ReceiveWipes(h: History, t: Target, x: int, sequence: int)
    requires x in h.emitted && t.standing <= t.delivered
    ensures sequence in Receive(h, t, x).delivered <==> sequence in t.delivered || sequence == x
    ensures sequence in Wiped(Receive(h, t, x)) <==> sequence in Wiped(t)
  {
    hide Apply;
  }

  lemma WipeWipes(h: History, t: Target, key: string, sequence: int)
    requires t.standing <= t.delivered <= h.emitted.Keys
    ensures Wipe(h, t, key).delivered == t.delivered
    ensures sequence in Wiped(Wipe(h, t, key)) <==>
              sequence in Wiped(t) || (sequence in t.delivered && DeviceKey(h.emitted[sequence]) == key)
  {
    hide Reset, DeviceScope;
  }

  lemma EmittedStays(c: Config, s: System, m: Move, sequence: int)
    requires Inv(c, s) && Enabled(s, m) && Shaped(c, s.history) && (m.DeliverTo? ==> m.sequence in s.history.emitted)
    requires sequence in s.history.emitted
    ensures var h := Next(c, s, m).history; sequence in h.emitted && h.emitted[sequence] == s.history.emitted[sequence]
  {
    hide Sound, StoreAgrees, DeviceScope, Identity, Apply, Reset, IngestBatch, Collect, CollectIn, Commit, Shaped;
    if m.Gather? { GatherRecords(c, s.history, m.selection); }
  }

  /** A target's store has received what was delivered to it, and has wiped exactly the emissions whose device
      was reset there after the delivery. */
  ghost predicate WipedAgrees(s: System, moves: seq<Move>, t: nat, sequence: int) {
    && t < |s.targets|
    && (sequence in s.targets[t].delivered <==> WasDelivered(moves, t, sequence))
    && (sequence in s.targets[t].delivered ==> sequence in s.history.emitted)
    && (sequence in Wiped(s.targets[t]) <==>
          sequence in s.history.emitted && ResetSince(moves, t, sequence, DeviceKey(s.history.emitted[sequence])))
  }

  lemma WipedNext(c: Config, s: System, m: Move, moves: seq<Move>, t: nat, sequence: int)
    requires Inv(c, s) && Enabled(s, m) && Shaped(c, s.history) && (m.DeliverTo? ==> m.sequence in s.history.emitted)
    requires WipedAgrees(s, moves, t, sequence) && Inv(c, Next(c, s, m))
    ensures WipedAgrees(Next(c, s, m), moves + [m], t, sequence)
  {
    hide Inv, Next, DeviceScope, WasDelivered, ResetSince, Shaped, Wiped, Enabled;
    WipedStep(c, s, m, t, sequence);
    DeliveredEmitted(c, Next(c, s, m), t);
    if sequence in s.history.emitted {
      EmittedStays(c, s, m, sequence);
      MovesGrow(moves, m, t, sequence, DeviceKey(s.history.emitted[sequence]));
    } else {
      NotWiped(s.targets[t], sequence);
      FirstHeard(moves, m, t, sequence);
    }
  }

  lemma NotWiped(t: Target, sequence: int)
    requires sequence !in t.delivered
    ensures sequence !in Wiped(t)
  {
  }

  lemma NothingWiped(seed: int, targets: nat, t: nat, sequence: int)
    requires t < targets
    ensures WipedAgrees(Init(seed, targets), [], t, sequence)
  {
  }

  /** So in every run. */
  lemma {:induction false} WipedIffReset(
    c: Config, seed: int, targets: nat, run: seq<System>, moves: seq<Move>, n: nat, t: nat, sequence: int)
    requires IsRun(c, seed, targets, run, moves) && n < |run| && t < targets
    ensures WipedAgrees(run[n], moves[..n], t, sequence)
  {
    hide Inv, Next, Shaped, Init, WipedAgrees, Enabled;
    if n == 0 {
      NothingWiped(seed, targets, t, sequence);
      assert moves[..0] == [];
    } else {
      WipedIffReset(c, seed, targets, run, moves, n - 1, t, sequence);
      RunKeeps(c, seed, targets, run, moves, n - 1);
      RunKeeps(c, seed, targets, run, moves, n);
      assert moves[..n] == moves[..n - 1] + [moves[n - 1]];
      WipedNext(c, run[n - 1], moves[n - 1], moves[..n - 1], t, sequence);
    }
  }

  lemma DeliveredEmitted(c: Config, s: System, t: nat)
    requires Inv(c, s) && t < |s.targets|
    ensures s.targets[t].standing <= s.targets[t].delivered <= s.history.emitted.Keys
  {
    assert StoreAgrees(s.history, s.targets[t]);
    Lengths(c, s.history);
    Shown(s.history, s.targets[t], "");
  }

  lemma FirstHeard(moves: seq<Move>, m: Move, t: nat, sequence: int)
    requires !WasDelivered(moves, t, sequence)
    ensures WasDelivered(moves + [m], t, sequence) <==> m == DeliverTo(t, sequence)
    ensures forall key :: !ResetSince(moves + [m], t, sequence, key)
  {
    forall key ensures !ResetSince(moves + [m], t, sequence, key) {
      MovesGrow(moves, m, t, sequence, key);
    }
    MovesGrow(moves, m, t, sequence, "");
  }

  // ---- The end-to-end law ----

  /** For users that are apart a key stands for one device of one of them. */
  lemma KeyIsOneDevice(h: History, userID: string, deviceID: string)
    requires forall e :: e in h.admitted ==> UsersApart(e.userID, userID)
    ensures DeviceIds(h, DeviceScope(userID, deviceID)) == OwnIds(h, userID, deviceID)
  {
    hide DeviceScope, UsersApart;
    forall i: nat | i in DeviceIds(h, DeviceScope(userID, deviceID))
      ensures h.admitted[i].userID == userID && h.admitted[i].deviceID == deviceID
    {
      DeviceScopeInjective(h.admitted[i].userID, h.admitted[i].deviceID, userID, deviceID);
    }
  }

  /** The admitted events of one device of one user. */
  ghost function OwnIds(h: History, userID: string, deviceID: string): set<nat> {
    set i: nat | i < |h.admitted| && h.admitted[i].userID == userID && h.admitted[i].deviceID == deviceID
  }

  /** Those of them not in an emission delivered to the target before a reset of the device there. */
  ghost function OwnSinceReset(h: History, moves: seq<Move>, t: nat, userID: string, deviceID: string): set<nat>
    requires |h.places| == |h.admitted|
  {
    set i: nat | i in OwnIds(h, userID, deviceID)
                 && !(h.places[i].InEmission?
                      && ResetSince(moves, t, h.places[i].sequence, DeviceScope(userID, deviceID)))
  }

  /** The end-to-end law, for every run: drained, each device of each user reads in every target exactly the sums
      over its admitted events, apart from those that had reached the target before the device was reset there;
      and at no time more than the sums over all of them. */
  lemma EndToEnd(
    c: Config, seed: int, targets: nat, run: seq<System>, moves: seq<Move>, n: nat, t: nat, userID: string,
    deviceID: string)
    requires IsRun(c, seed, targets, run, moves) && n < |run| && t < targets
    requires forall e :: e in run[n].history.admitted ==> UsersApart(e.userID, userID)
    ensures t < |run[n].targets| && |run[n].history.places| == |run[n].history.admitted|
    ensures var s := run[n];
            var shown := Counters(s.targets[t].store, DeviceScope(userID, deviceID));
            && AtMost(shown, Tally(s.history.admitted, OwnIds(s.history, userID, deviceID)))
            && (Drained(s, t) ==>
                  shown == Tally(s.history.admitted, OwnSinceReset(s.history, moves[..n], t, userID, deviceID)))
  {
    RunKeeps(c, seed, targets, run, moves, n);
    WipedIffReset(c, seed, targets, run, moves, n, t, 0);
    InvLengths(c, run[n]);
    hide Inv, DeviceScope, Tally, UsersApart, IsRun, WipedAgrees, AtMost, Counters;
    var s, key := run[n], DeviceScope(userID, deviceID);
    TargetExists(s, moves[..n], t, 0);
    KeyIsOneDevice(s.history, userID, deviceID);
    NeverTooMuch(c, s, t, key);
    if Drained(s, t) {
      ExactlyOnceWhenDrained(c, s, t, key);
      forall sequence ensures WipedAgrees(s, moves[..n], t, sequence) {
        WipedIffReset(c, seed, targets, run, moves, n, t, sequence);
      }
      StandingSinceReset(c, s, moves[..n], t, userID, deviceID);
    }
  }

  lemma TargetExists(s: System, moves: seq<Move>, t: nat, sequence: int)
    requires WipedAgrees(s, moves, t, sequence)
    ensures t < |s.targets|
  {
  }

  lemma InvLengths(c: Config, s: System)
    requires Inv(c, s)
    ensures |s.history.places| == |s.history.admitted|
  {
    Lengths(c, s.history);
  }

  /** Drained, what the store has wiped of a device is what a reset came after. */
  lemma StandingSinceReset(c: Config, s: System, moves: seq<Move>, t: nat, userID: string, deviceID: string)
    requires Inv(c, s) && t < |s.targets| && Drained(s, t) && |s.history.places| == |s.history.admitted|
    requires forall sequence :: WipedAgrees(s, moves, t, sequence)
    requires DeviceIds(s.history, DeviceScope(userID, deviceID)) == OwnIds(s.history, userID, deviceID)
    ensures StandingIds(s.history, s.targets[t], DeviceScope(userID, deviceID))
         == OwnSinceReset(s.history, moves, t, userID, deviceID)
  {
    var key := DeviceScope(userID, deviceID);
    hide Inv, DeviceScope, ResetSince, WipedAgrees, Drained, OwnIds;
    forall i: nat | i in DeviceIds(s.history, key)
      ensures s.history.places[i].InEmission?
      ensures InOneOf(s.history.places[i], Wiped(s.targets[t]))
         <==> ResetSince(moves, t, s.history.places[i].sequence, key)
    {
      WipedOfDevice(c, s, moves, t, key, i);
    }
  }

  lemma WipedOfDevice(c: Config, s: System, moves: seq<Move>, t: nat, key: string, i: nat)
    requires Inv(c, s) && t < |s.targets| && Drained(s, t) && i in DeviceIds(s.history, key)
    requires forall sequence :: WipedAgrees(s, moves, t, sequence)
    ensures i < |s.history.places| && s.history.places[i].InEmission?
    ensures InOneOf(s.history.places[i], Wiped(s.targets[t]))
       <==> ResetSince(moves, t, s.history.places[i].sequence, key)
  {
    AllReceived(c, s, t, i);
    var sequence := s.history.places[i].sequence;
    assert WipedAgrees(s, moves, t, sequence);
    EmissionOfOneDevice(c, s.history, sequence, i);
    hide Inv, DeviceScope, ResetSince, WasDelivered;
  }

  /** A device never reset in a target reads there, drained, exactly the sums over all its admitted events. */
  lemma NeverResetReadsAll(
    c: Config, seed: int, targets: nat, run: seq<System>, moves: seq<Move>, n: nat, t: nat, userID: string,
    deviceID: string)
    requires IsRun(c, seed, targets, run, moves) && n < |run| && t < targets
    requires forall e :: e in run[n].history.admitted ==> UsersApart(e.userID, userID)
    requires forall i :: 0 <= i < n ==> moves[i] != ResetAt(t, DeviceScope(userID, deviceID))
    ensures t < |run[n].targets|
    ensures Drained(run[n], t) ==>
              Counters(run[n].targets[t].store, DeviceScope(userID, deviceID))
                == Tally(run[n].history.admitted, OwnIds(run[n].history, userID, deviceID))
  {
    EndToEnd(c, seed, targets, run, moves, n, t, userID, deviceID);
    hide IsRun, DeviceScope, Tally, UsersApart, Counters, Drained;
    var h := run[n].history;
    assert OwnSinceReset(h, moves[..n], t, userID, deviceID) == OwnIds(h, userID, deviceID);
  }

  /** An admitted event of another device, or of another user's, with the same scope. */
  ghost predicate Intruder(h: History, userID: string, deviceID: string, i: nat) {
    && i < |h.admitted| && EventKey(h.admitted[i]) == DeviceScope(userID, deviceID)
    && (h.admitted[i].userID != userID || h.admitted[i].deviceID != deviceID)
  }

  ghost function Intruders(h: History, userID: string, deviceID: string): set<nat> {
    set i: nat | i < |h.admitted| && Intruder(h, userID, deviceID, i)
  }

  lemma IntrudersCount(h: History, userID: string, deviceID: string)
    ensures Tally(h.admitted, DeviceIds(h, DeviceScope(userID, deviceID)))
              == Tally(h.admitted, OwnIds(h, userID, deviceID))
       <==> Intruders(h, userID, deviceID) == {}
  {
    hide DeviceScope, Tally;
    var own, others := OwnIds(h, userID, deviceID), Intruders(h, userID, deviceID);
    assert DeviceIds(h, DeviceScope(userID, deviceID)) == own + others;
    TallyDisjoint(h.admitted, own, others);
    if i :| i in others {
      TallyPositive(h.admitted, others, i);
    } else {
      assert own + others == own;
    }
  }

  lemma NothingWipedStands(h: History, t: Target, key: string)
    requires |h.places| == |h.admitted| && Wiped(t) == {}
    ensures StandingIds(h, t, key) == DeviceIds(h, key)
  {
    hide DeviceScope;
  }

  /** Drained and with nothing wiped, a device reads exactly the sums over its own admitted events if and only if
      no admitted event of another has its scope. */
  lemma ReadsOwnIff(c: Config, s: System, t: nat, userID: string, deviceID: string)
    requires Inv(c, s) && t < |s.targets| && Drained(s, t) && Wiped(s.targets[t]) == {}
    ensures Counters(s.targets[t].store, DeviceScope(userID, deviceID))
              == Tally(s.history.admitted, OwnIds(s.history, userID, deviceID))
       <==> Intruders(s.history, userID, deviceID) == {}
  {
    var h, key := s.history, DeviceScope(userID, deviceID);
    ExactlyOnceWhenDrained(c, s, t, key);
    hide Inv, DeviceScope, Tally, Counters, Drained, StandingIds, DeviceIds, OwnIds, Intruders;
    NothingWipedStands(h, s.targets[t], key);
    IntrudersCount(h, userID, deviceID);
  }
}
