/** The in-memory partitioned bus (internal/bus/bus.go) as a machine of atomic steps: senders entering,
    putting and leaving, one closer, one consumer per partition. Each step is one critical section, one
    channel operation or one handler call. A value is named by the send that carries it. Consumers are not
    cancelled. */
module Bus {

  datatype Item = Item(id: nat, partition: nat)

  /** Where a send is between `enterSend` and `leaveSend`. */
  datatype SendPhase = Entered | Put | Counted | Refused

  datatype Send = Send(partition: nat, phase: SendPhase)

  datatype Consumer =
    | NotStarted
    | Waiting
    | Draining
    | Handling(item: Item, attempt: nat, draining: bool)
    | Returned

  datatype Final = Final(item: Item, delivered: bool)

  datatype Config = Config(partitions: nat, capacity: nat, maxAttempts: nat)

  predicate ValidConfig(c: Config) { c.partitions > 0 && c.capacity > 0 && c.maxAttempts > 0 }

  /** The senders' side: the closed flag, which also stands for the `closing` channel, the `shutdown`
      channel, the in-flight counter and the sends it counts; and the sends that have returned nil. */
  datatype Gate = Gate(
    closed: bool, shutdown: bool, inflight: int, sends: map<nat, Send>, nextId: nat, published: int, accepted: set<nat>)

  /** The consumers' side: queues, consumers and counters; and every value put and every value finalised,
      in order. */
  datatype Lanes = Lanes(
    queues: seq<seq<Item>>, consumers: seq<Consumer>, delivered: int, retried: int, dead: int, handlerCalls: int,
    enqueued: seq<Item>, finalised: seq<Final>)

  datatype State = State(gate: Gate, lanes: Lanes)

  function Init(c: Config): State {
    State(Gate(false, false, 0, map[], 0, 0, {}),
          Lanes(seq(c.partitions, _ => []), seq(c.partitions, _ => NotStarted), 0, 0, 0, 0, [], []))
  }

  // ---- The senders' steps ----

  function Enter(g: Gate, partition: nat): Gate {
    g.(inflight := g.inflight + 1, nextId := g.nextId + 1, sends := g.sends[g.nextId := Send(partition, Entered)])
  }

  function SetPhase(g: Gate, id: nat, phase: SendPhase): Gate
    requires id in g.sends
  {
    g.(sends := g.sends[id := g.sends[id].(phase := phase)])
  }

  function CountOne(g: Gate, id: nat): Gate
    requires id in g.sends
  {
    SetPhase(g, id, Counted).(published := g.published + 1)
  }

  function Leave(g: Gate, id: nat): Gate
    requires id in g.sends
  {
    g.(inflight := g.inflight - 1, sends := g.sends - {id},
       accepted := if g.sends[id].phase.Counted? then g.accepted + {id} else g.accepted)
  }

  // ---- The consumers' steps ----

  function Enqueue(l: Lanes, item: Item): Lanes
    requires item.partition < |l.queues|
  {
    l.(queues := l.queues[item.partition := l.queues[item.partition] + [item]], enqueued := l.enqueued + [item])
  }

  function SetConsumer(l: Lanes, p: nat, k: Consumer): Lanes
    requires p < |l.consumers|
  {
    l.(consumers := l.consumers[p := k])
  }

  function TakeOne(l: Lanes, p: nat): Lanes
    requires p < |l.consumers| && p < |l.queues| && l.queues[p] != []
  {
    l.(consumers := l.consumers[p := Handling(l.queues[p][0], 1, l.consumers[p].Draining?)],
       queues := l.queues[p := l.queues[p][1..]])
  }

  /** One turn of the delivery loop: success ends it, failure retries until the attempts run out. */
  function AttemptOne(c: Config, l: Lanes, p: nat, ok: bool): Lanes
    requires p < |l.consumers| && l.consumers[p].Handling?
  {
    var k := l.consumers[p];
    var idle := if k.draining then Draining else Waiting;
    if ok then
      l.(handlerCalls := l.handlerCalls + 1, consumers := l.consumers[p := idle], delivered := l.delivered + 1,
         finalised := l.finalised + [Final(k.item, true)])
    else if k.attempt < c.maxAttempts then
      l.(handlerCalls := l.handlerCalls + 1, consumers := l.consumers[p := k.(attempt := k.attempt + 1)],
         retried := l.retried + 1)
    else
      l.(handlerCalls := l.handlerCalls + 1, consumers := l.consumers[p := idle], dead := l.dead + 1,
         finalised := l.finalised + [Final(k.item, false)])
  }

  // ---- The machine ----

  datatype Step =
    | EnterSend(partition: nat)
    | PutValue(id: nat)
    | CountPublished(id: nat)
    | SeeClosing(id: nat)
    | CancelSend(id: nat)
    | LeaveSend(id: nat)
    | BeginClose
    | FinishClose
    | StartConsumer(p: nat)
    | Take(p: nat)
    | SeeShutdown(p: nat)
    | FinishDrain(p: nat)
    | Attempt(p: nat, ok: bool)

  predicate InPhase(g: Gate, id: nat, phase: SendPhase) { id in g.sends && g.sends[id].phase == phase }

  predicate IsConsumer(l: Lanes, p: nat) { p < |l.consumers| && p < |l.queues| }

  /** When a step can be taken. A send that has entered may put its value while its partition has room,
      or give up once the bus is closing or its context is done. */
  predicate Enabled(c: Config, b: State, a: Step) {
    match a
    case EnterSend(partition) => !b.gate.closed && partition < c.partitions
    case PutValue(id) =>
      && InPhase(b.gate, id, Entered)
      && b.gate.sends[id].partition < |b.lanes.queues| && |b.lanes.queues[b.gate.sends[id].partition]| < c.capacity
    case CountPublished(id) => InPhase(b.gate, id, Put)
    case SeeClosing(id) => InPhase(b.gate, id, Entered) && b.gate.closed
    case CancelSend(id) => InPhase(b.gate, id, Entered)
    case LeaveSend(id) => InPhase(b.gate, id, Counted) || InPhase(b.gate, id, Refused)
    case BeginClose => !b.gate.closed
    case FinishClose => b.gate.closed && !b.gate.shutdown && b.gate.inflight == 0
    case StartConsumer(p) => IsConsumer(b.lanes, p) && b.lanes.consumers[p].NotStarted?
    case Take(p) =>
      IsConsumer(b.lanes, p) && (b.lanes.consumers[p].Waiting? || b.lanes.consumers[p].Draining?)
        && b.lanes.queues[p] != []
    case SeeShutdown(p) => IsConsumer(b.lanes, p) && b.lanes.consumers[p].Waiting? && b.gate.shutdown
    case FinishDrain(p) => IsConsumer(b.lanes, p) && b.lanes.consumers[p].Draining? && b.lanes.queues[p] == []
    case Attempt(p, _) => IsConsumer(b.lanes, p) && b.lanes.consumers[p].Handling?
  }

  function Next(c: Config, b: State, a: Step): State
    requires Enabled(c, b, a)
  {
    match a
    case EnterSend(partition) => b.(gate := Enter(b.gate, partition))
    case PutValue(id) => State(SetPhase(b.gate, id, Put), Enqueue(b.lanes, Item(id, b.gate.sends[id].partition)))
    case CountPublished(id) => b.(gate := CountOne(b.gate, id))
    case SeeClosing(id) => b.(gate := SetPhase(b.gate, id, Refused))
    case CancelSend(id) => b.(gate := SetPhase(b.gate, id, Refused))
    case LeaveSend(id) => b.(gate := Leave(b.gate, id))
    case BeginClose => b.(gate := b.gate.(closed := true))
    case FinishClose => b.(gate := b.gate.(shutdown := true))
    case StartConsumer(p) => b.(lanes := SetConsumer(b.lanes, p, Waiting))
    case Take(p) => b.(lanes := TakeOne(b.lanes, p))
    case SeeShutdown(p) => b.(lanes := SetConsumer(b.lanes, p, Draining))
    case FinishDrain(p) => b.(lanes := SetConsumer(b.lanes, p, Returned))
    case Attempt(p, ok) => b.(lanes := AttemptOne(c, b.lanes, p, ok))
  }

  // ---- The invariant ----

  /** The items of one partition, in order. */
  function Project(items: seq<Item>, p: nat): seq<Item> {
    if items == [] then []
    else
      var last := |items| - 1;
      Project(items[..last], p) + if items[last].partition == p then [items[last]] else []
  }

  function ItemsOf(finals: seq<Final>): (items: seq<Item>)
    ensures |items| == |finals|
  {
    seq(|finals|, i requires 0 <= i < |finals| => finals[i].item)
  }

  function InHand(k: Consumer): seq<Item> { if k.Handling? then [k.item] else [] }

  /** Everything put on a partition has been finalised, is in the consumer's hands, or waits, in order. */
  ghost predicate Flow(l: Lanes, p: nat)
    requires IsConsumer(l, p)
  {
    Project(l.enqueued, p) == Project(ItemsOf(l.finalised), p) + InHand(l.consumers[p]) + l.queues[p]
  }

  ghost predicate ConsumerOk(l: Lanes, shutdown: bool, p: nat)
    requires IsConsumer(l, p)
  {
    match l.consumers[p]
    case Returned => shutdown && l.queues[p] == []
    case Draining => shutdown
    case Handling(item, attempt, draining) => item.partition == p && attempt >= 1 && (draining ==> shutdown)
    case _ => true
  }

  function DeliveredCount(finals: seq<Final>): nat {
    if finals == [] then 0
    else DeliveredCount(finals[..|finals| - 1]) + if finals[|finals| - 1].delivered then 1 else 0
  }

  ghost predicate CountsOk(l: Lanes) {
    && l.handlerCalls == l.retried + l.delivered + l.dead
    && l.delivered + l.dead == |l.finalised|
    && l.delivered == DeliveredCount(l.finalised)
  }

  ghost predicate LanesOk(c: Config, l: Lanes, shutdown: bool) {
    && |l.queues| == |l.consumers| == c.partitions
    && (forall i :: 0 <= i < |l.enqueued| ==> l.enqueued[i].partition < c.partitions)
    && (forall i :: 0 <= i < |l.finalised| ==> l.finalised[i].item.partition < c.partitions)
    && (forall p: nat :: p < c.partitions ==> Flow(l, p) && ConsumerOk(l, shutdown, p))
    && CountsOk(l)
  }

  /** Sends: the in-flight counter counts them, ids are fresh, none is in flight once shut down. */
  ghost predicate GateOk(c: Config, g: Gate) {
    && g.inflight == |g.sends|
    && (forall id :: id in g.sends ==> id < g.nextId && g.sends[id].partition < c.partitions)
    && (forall id :: id in g.accepted ==> id < g.nextId && id !in g.sends)
    && g.published == |g.accepted| + |CountedIds(g)|
    && (g.shutdown ==> g.closed && g.sends == map[])
  }

  ghost function PutIds(g: Gate): set<nat> {
    set id | id in g.sends && (g.sends[id].phase.Put? || g.sends[id].phase.Counted?)
  }

  ghost function CountedIds(g: Gate): set<nat> { set id | id in g.sends && g.sends[id].phase.Counted? }

  ghost predicate Has(items: seq<Item>, id: nat) { exists i :: 0 <= i < |items| && items[i].id == id }

  /** A value is on record, once, exactly when its send has put it. */
  ghost predicate RecordOk(g: Gate, enqueued: seq<Item>) {
    && (forall i, j :: 0 <= i < j < |enqueued| ==> enqueued[i].id != enqueued[j].id)
    && (forall id :: Has(enqueued, id) <==> id in g.accepted || id in PutIds(g))
  }

  ghost predicate Inv(c: Config, b: State) {
    && ValidConfig(c)
    && GateOk(c, b.gate)
    && LanesOk(c, b.lanes, b.gate.shutdown)
    && RecordOk(b.gate, b.lanes.enqueued)
  }

  // ---- The gate ----

  /** The sends that have put their value are the same, and so is whether the bus has shut down. */
  ghost predicate SameOnRecord(g: Gate, g': Gate) {
    g'.shutdown == g.shutdown && g'.accepted + PutIds(g') == g.accepted + PutIds(g)
  }

  lemma EnterIds(g: Gate, partition: nat)
    requires g.nextId !in g.sends
    ensures PutIds(Enter(g, partition)) == PutIds(g) && CountedIds(Enter(g, partition)) == CountedIds(g)
    ensures |Enter(g, partition).sends| == |g.sends| + 1
  {
    assert Enter(g, partition).sends.Keys == g.sends.Keys + {g.nextId};
  }

  lemma EnterOk(c: Config, g: Gate, partition: nat)
    requires GateOk(c, g) && !g.closed && partition < c.partitions
    ensures GateOk(c, Enter(g, partition)) && SameOnRecord(g, Enter(g, partition))
  {
    hide PutIds, CountedIds;
    EnterIds(g, partition);
  }

  lemma PhaseIds(g: Gate, id: nat, phase: SendPhase)
    requires InPhase(g, id, Entered) && !phase.Counted?
    ensures PutIds(SetPhase(g, id, phase)) == PutIds(g) + if phase.Put? then {id} else {}
    ensures CountedIds(SetPhase(g, id, phase)) == CountedIds(g)
    ensures |SetPhase(g, id, phase).sends| == |g.sends|
  {
    assert SetPhase(g, id, phase).sends.Keys == g.sends.Keys;
  }

  lemma PhaseOk(c: Config, g: Gate, id: nat, phase: SendPhase)
    requires GateOk(c, g) && InPhase(g, id, Entered) && !phase.Counted?
    ensures GateOk(c, SetPhase(g, id, phase))
    ensures phase.Refused? ==> SameOnRecord(g, SetPhase(g, id, phase))
  {
    hide PutIds, CountedIds;
    PhaseIds(g, id, phase);
    assert PutIds(g) + {} == PutIds(g);
  }

  lemma CountOk(c: Config, g: Gate, id: nat)
    requires GateOk(c, g) && InPhase(g, id, Put)
    ensures GateOk(c, CountOne(g, id)) && SameOnRecord(g, CountOne(g, id))
  {
    var g' := CountOne(g, id);
    assert PutIds(g') == PutIds(g);
    assert g'.sends.Keys == g.sends.Keys;
    assert CountedIds(g') == CountedIds(g) + {id};
  }

  lemma LeaveIds(g: Gate, id: nat)
    requires id in g.sends
    ensures PutIds(Leave(g, id)) == PutIds(g) - {id} && CountedIds(Leave(g, id)) == CountedIds(g) - {id}
    ensures |Leave(g, id).sends| == |g.sends| - 1
    ensures id in CountedIds(g) <==> g.sends[id].phase.Counted?
    ensures id in PutIds(g) <==> g.sends[id].phase.Counted? || g.sends[id].phase.Put?
  {
    assert Leave(g, id).sends.Keys == g.sends.Keys - {id};
  }

  lemma LeaveOnRecord(g: Gate, id: nat)
    requires InPhase(g, id, Counted) || InPhase(g, id, Refused)
    requires id !in g.accepted
    ensures SameOnRecord(g, Leave(g, id))
    ensures |Leave(g, id).accepted| + |CountedIds(Leave(g, id))| == |g.accepted| + |CountedIds(g)|
  {
    hide PutIds, CountedIds;
    LeaveIds(g, id);
    if g.sends[id].phase.Counted? {
      MoveAcross(g.accepted, PutIds(g), id);
      assert |CountedIds(g) - {id}| == |CountedIds(g)| - 1;
    } else {
      assert PutIds(g) - {id} == PutIds(g) && CountedIds(g) - {id} == CountedIds(g);
    }
  }

  lemma LeaveOk(c: Config, g: Gate, id: nat)
    requires GateOk(c, g) && (InPhase(g, id, Counted) || InPhase(g, id, Refused))
    ensures GateOk(c, Leave(g, id)) && SameOnRecord(g, Leave(g, id))
  {
    hide PutIds, CountedIds, SameOnRecord;
    LeaveOnRecord(g, id);
    LeaveIds(g, id);
  }

  lemma MoveAcross(a: set<nat>, p: set<nat>, x: nat)
    requires x in p
    ensures a + {x} + (p - {x}) == a + p
  {
  }

  lemma ShutOk(c: Config, g: Gate)
    requires GateOk(c, g) && g.closed && g.inflight == 0
    ensures g.sends == map[] && GateOk(c, g.(shutdown := true))
  {
    var g' := g.(shutdown := true);
    assert |g.sends.Keys| == 0;
    assert CountedIds(g') == CountedIds(g);
  }

  // ---- The lanes ----

  lemma ProjectAppend(items: seq<Item>, item: Item, p: nat)
    ensures Project(items + [item], p) == Project(items, p) + if item.partition == p then [item] else []
  {
    assert (items + [item])[..|items|] == items;
  }

  lemma EnqueueOk(c: Config, l: Lanes, item: Item)
    requires LanesOk(c, l, false) && item.partition < c.partitions
    ensures LanesOk(c, Enqueue(l, item), false)
  {
    hide Project;
    var l' := Enqueue(l, item);
    forall p: nat | p < c.partitions
      ensures Flow(l', p) && ConsumerOk(l', false, p)
    {
      assert Flow(l, p) && ConsumerOk(l, false, p);
      ProjectAppend(l.enqueued, item, p);
    }
  }

  /** A value waiting on a partition belongs to it. */
  lemma {:induction false} ProjectedPartition(items: seq<Item>, p: nat, i: nat)
    requires i < |Project(items, p)|
    ensures Project(items, p)[i].partition == p
  {
    if items != [] {
      var front := Project(items[..|items| - 1], p);
      if i < |front| { ProjectedPartition(items[..|items| - 1], p, i); }
    }
  }

  lemma TakeOk(c: Config, l: Lanes, shutdown: bool, q: nat)
    requires LanesOk(c, l, shutdown) && q < c.partitions && l.queues[q] != []
    requires l.consumers[q].Waiting? || l.consumers[q].Draining?
    ensures LanesOk(c, TakeOne(l, q), shutdown)
  {
    hide Project;
    var l' := TakeOne(l, q);
    assert Flow(l, q) && ConsumerOk(l, shutdown, q);
    var done := Project(ItemsOf(l.finalised), q);
    assert Project(l.enqueued, q)[|done|] == l.queues[q][0];
    ProjectedPartition(l.enqueued, q, |done|);
    forall p: nat | p < c.partitions
      ensures Flow(l', p) && ConsumerOk(l', shutdown, p)
    {
      assert Flow(l, p) && ConsumerOk(l, shutdown, p);
      if p == q { assert l.queues[q] == [l.queues[q][0]] + l.queues[q][1..]; }
    }
  }

  lemma IdleOk(c: Config, l: Lanes, shutdown: bool, q: nat, k: Consumer)
    requires LanesOk(c, l, shutdown) && q < c.partitions && InHand(l.consumers[q]) == []
    requires k == Waiting || (k == Draining && shutdown) || (k == Returned && shutdown && l.queues[q] == [])
    ensures LanesOk(c, SetConsumer(l, q, k), shutdown)
  {
    hide Project;
    var l' := SetConsumer(l, q, k);
    forall p: nat | p < c.partitions
      ensures Flow(l', p) && ConsumerOk(l', shutdown, p)
    {
      assert Flow(l, p) && ConsumerOk(l, shutdown, p);
    }
  }

  lemma FinalFlow(l: Lanes, l': Lanes, q: nat, ok: bool, p: nat)
    requires IsConsumer(l, p) && IsConsumer(l, q) && Flow(l, p)
    requires l.consumers[q].Handling? && l.consumers[q].item.partition == q
    requires l'.enqueued == l.enqueued && l'.queues == l.queues
    requires l'.finalised == l.finalised + [Final(l.consumers[q].item, ok)]
    requires |l'.consumers| == |l.consumers| && InHand(l'.consumers[q]) == []
    requires p != q ==> l'.consumers[p] == l.consumers[p]
    ensures Flow(l', p)
  {
    hide Project;
    var item := l.consumers[q].item;
    assert ItemsOf(l'.finalised) == ItemsOf(l.finalised) + [item];
    ProjectAppend(ItemsOf(l.finalised), item, p);
  }

  lemma AttemptOk(c: Config, l: Lanes, shutdown: bool, q: nat, ok: bool)
    requires LanesOk(c, l, shutdown) && q < c.partitions && l.consumers[q].Handling?
    ensures LanesOk(c, AttemptOne(c, l, q, ok), shutdown)
  {
    hide Project, ItemsOf;
    var l', k := AttemptOne(c, l, q, ok), l.consumers[q];
    assert Flow(l, q) && ConsumerOk(l, shutdown, q);
    assert (l.finalised + [Final(k.item, ok)])[..|l.finalised|] == l.finalised;
    forall p: nat | p < c.partitions
      ensures Flow(l', p) && ConsumerOk(l', shutdown, p)
    {
      assert Flow(l, p) && ConsumerOk(l, shutdown, p);
      if ok || k.attempt >= c.maxAttempts { FinalFlow(l, l', q, ok, p); }
    }
  }

  lemma ShutLanesOk(c: Config, l: Lanes)
    requires LanesOk(c, l, false)
    ensures LanesOk(c, l, true)
  {
    hide Project;
    forall p: nat | p < c.partitions ensures Flow(l, p) && ConsumerOk(l, true, p) {
      assert Flow(l, p) && ConsumerOk(l, false, p);
    }
  }

  // ---- Every step keeps the invariant ----

  lemma PutRecorded(g: Gate, enqueued: seq<Item>, id: nat, partition: nat)
    requires RecordOk(g, enqueued) && InPhase(g, id, Entered) && id !in g.accepted
    ensures RecordOk(g.(sends := g.sends[id := g.sends[id].(phase := Put)]), enqueued + [Item(id, partition)])
  {
    var g' := SetPhase(g, id, Put);
    var more := enqueued + [Item(id, partition)];
    assert PutIds(g') == PutIds(g) + {id};
    assert !Has(enqueued, id);
    assert forall i :: 0 <= i < |enqueued| ==> enqueued[i].id != id;
    forall x
      ensures Has(more, x) <==> Has(enqueued, x) || x == id
    {
      assert more[|enqueued|].id == id;
      assert forall i :: 0 <= i < |enqueued| ==> more[i] == enqueued[i];
    }
  }

  lemma SameRecord(g: Gate, g': Gate, enqueued: seq<Item>)
    requires RecordOk(g, enqueued) && g'.accepted + PutIds(g') == g.accepted + PutIds(g)
    ensures RecordOk(g', enqueued)
  {
    hide PutIds, Has;
    forall id ensures Has(enqueued, id) <==> id in g'.accepted || id in PutIds(g') {
      assert id in g'.accepted + PutIds(g') <==> id in g.accepted + PutIds(g);
    }
  }

  lemma PutKeeps(c: Config, b: State, id: nat)
    requires Inv(c, b) && Enabled(c, b, PutValue(id))
    ensures Inv(c, Next(c, b, PutValue(id)))
  {
    var partition := b.gate.sends[id].partition;
    assert id !in b.gate.accepted && partition < c.partitions && !b.gate.shutdown;
    hide GateOk, LanesOk, RecordOk, PutIds;
    PutRecorded(b.gate, b.lanes.enqueued, id, partition);
    PhaseOk(c, b.gate, id, Put);
    EnqueueOk(c, b.lanes, Item(id, partition));
  }

  /** The other steps of a send change the gate alone. */
  lemma GateStepKeeps(c: Config, b: State, g: Gate)
    requires Inv(c, b) && GateOk(c, g) && SameOnRecord(b.gate, g)
    ensures Inv(c, b.(gate := g))
  {
    hide GateOk, LanesOk, RecordOk, PutIds;
    SameRecord(b.gate, g, b.lanes.enqueued);
  }

  lemma SendStepKeeps(c: Config, b: State, a: Step)
    requires Inv(c, b) && Enabled(c, b, a)
    requires a.EnterSend? || a.CountPublished? || a.SeeClosing? || a.CancelSend? || a.LeaveSend?
    ensures Inv(c, Next(c, b, a))
  {
    assert GateOk(c, b.gate);
    hide Inv, GateOk, SameOnRecord;
    match a {
      case EnterSend(partition) =>
        EnterOk(c, b.gate, partition);
        GateStepKeeps(c, b, Enter(b.gate, partition));
      case CountPublished(id) =>
        CountOk(c, b.gate, id);
        GateStepKeeps(c, b, CountOne(b.gate, id));
      case SeeClosing(id) =>
        PhaseOk(c, b.gate, id, Refused);
        GateStepKeeps(c, b, SetPhase(b.gate, id, Refused));
      case CancelSend(id) =>
        PhaseOk(c, b.gate, id, Refused);
        GateStepKeeps(c, b, SetPhase(b.gate, id, Refused));
      case LeaveSend(id) =>
        LeaveOk(c, b.gate, id);
        GateStepKeeps(c, b, Leave(b.gate, id));
    }
  }

  lemma ConsumerStepKeeps(c: Config, b: State, a: Step)
    requires Inv(c, b) && Enabled(c, b, a)
    requires a.StartConsumer? || a.Take? || a.SeeShutdown? || a.FinishDrain? || a.Attempt?
    ensures Inv(c, Next(c, b, a))
  {
    assert a.p < c.partitions;
    hide GateOk, LanesOk, RecordOk;
    match a {
      case StartConsumer(p) => IdleOk(c, b.lanes, b.gate.shutdown, p, Waiting);
      case Take(p) => TakeOk(c, b.lanes, b.gate.shutdown, p);
      case SeeShutdown(p) => IdleOk(c, b.lanes, b.gate.shutdown, p, Draining);
      case FinishDrain(p) => DrainedOk(c, b, p);
      case Attempt(p, ok) => AttemptOk(c, b.lanes, b.gate.shutdown, p, ok);
    }
  }

  lemma NextKeeps(c: Config, b: State, a: Step)
    requires Inv(c, b) && Enabled(c, b, a)
    ensures Inv(c, Next(c, b, a))
  {
    hide Inv;
    match a
    case PutValue(id) => PutKeeps(c, b, id);
    case BeginClose => CloseOk(c, b);
    case FinishClose => CloseOk(c, b);
    case StartConsumer(_) => ConsumerStepKeeps(c, b, a);
    case Take(_) => ConsumerStepKeeps(c, b, a);
    case SeeShutdown(_) => ConsumerStepKeeps(c, b, a);
    case FinishDrain(_) => ConsumerStepKeeps(c, b, a);
    case Attempt(_, _) => ConsumerStepKeeps(c, b, a);
    case _ => SendStepKeeps(c, b, a);
  }

  lemma CloseOk(c: Config, b: State)
    requires Inv(c, b)
    ensures !b.gate.closed ==> Inv(c, b.(gate := b.gate.(closed := true)))
    ensures b.gate.closed && !b.gate.shutdown && b.gate.inflight == 0 ==> Inv(c, b.(gate := b.gate.(shutdown := true)))
  {
    hide LanesOk;
    var g := b.gate;
    assert PutIds(g.(closed := true)) == PutIds(g) == PutIds(g.(shutdown := true));
    assert CountedIds(g.(closed := true)) == CountedIds(g);
    if g.closed && !g.shutdown && g.inflight == 0 {
      ShutOk(c, g);
      ShutLanesOk(c, b.lanes);
    }
  }

  lemma DrainedOk(c: Config, b: State, p: nat)
    requires Inv(c, b) && p < c.partitions && Enabled(c, b, FinishDrain(p))
    ensures LanesOk(c, SetConsumer(b.lanes, p, Returned), b.gate.shutdown)
  {
    hide Project;
    assert ConsumerOk(b.lanes, b.gate.shutdown, p);
    IdleOk(c, b.lanes, b.gate.shutdown, p, Returned);
  }

  lemma InitHolds(c: Config)
    requires ValidConfig(c)
    ensures Inv(c, Init(c))
  {
    var b := Init(c);
    assert PutIds(b.gate) == {} && CountedIds(b.gate) == {};
    assert ItemsOf([]) == [];
    forall p: nat | p < c.partitions ensures Flow(b.lanes, p) {}
  }

  // ---- Projections determine the values ----

  lemma {:induction false} ProjectedCount(items: seq<Item>, x: Item)
    ensures multiset(Project(items, x.partition))[x] == multiset(items)[x]
  {
    if items != [] {
      var front, last := items[..|items| - 1], items[|items| - 1];
      assert items == front + [last];
      ProjectedCount(front, x);
    }
  }

  lemma SameProjections(c: Config, a: seq<Item>, b: seq<Item>)
    requires forall p: nat :: p < c.partitions ==> Project(a, p) == Project(b, p)
    requires forall i :: 0 <= i < |a| ==> a[i].partition < c.partitions
    requires forall i :: 0 <= i < |b| ==> b[i].partition < c.partitions
    ensures multiset(a) == multiset(b)
  {
    hide Project;
    forall x
      ensures multiset(a)[x] == multiset(b)[x]
    {
      if x.partition < c.partitions {
        ProjectedCount(a, x);
        ProjectedCount(b, x);
      } else {
        assert x !in a && x !in b;
      }
    }
  }

  // ---- Whole runs ----

  ghost predicate IsRun(c: Config, run: seq<State>, steps: seq<Step>) {
    && ValidConfig(c)
    && |run| == |steps| + 1
    && run[0] == Init(c)
    && forall i :: 0 <= i < |steps| ==> Enabled(c, run[i], steps[i]) && run[i + 1] == Next(c, run[i], steps[i])
  }

  lemma {:induction false} RunKeeps(c: Config, run: seq<State>, steps: seq<Step>, n: nat)
    requires IsRun(c, run, steps) && n < |run|
    ensures Inv(c, run[n])
  {
    hide Inv, Next, Enabled, Init;
    if n == 0 {
      InitHolds(c);
    } else {
      RunKeeps(c, run, steps, n - 1);
      NextKeeps(c, run[n - 1], steps[n - 1]);
    }
  }

  ghost predicate AllReturned(b: State) { forall p :: 0 <= p < |b.lanes.consumers| ==> b.lanes.consumers[p].Returned? }

  /** No accepted send is stranded. Once every consumer has returned, each partition's values were
      finalised exactly once each and in the order they were put; they are exactly the values of the sends
      that returned nil; and the counters add up. */
  lemma NothingStranded(c: Config, b: State)
    requires Inv(c, b) && AllReturned(b)
    ensures forall p: nat :: p < c.partitions ==> Project(b.lanes.enqueued, p) == Project(ItemsOf(b.lanes.finalised), p)
    ensures multiset(ItemsOf(b.lanes.finalised)) == multiset(b.lanes.enqueued)
    ensures forall id :: Has(b.lanes.enqueued, id) <==> id in b.gate.accepted
    ensures forall i, j :: 0 <= i < j < |b.lanes.enqueued| ==> b.lanes.enqueued[i].id != b.lanes.enqueued[j].id
    ensures b.gate.closed && b.gate.sends == map[] && b.gate.published == |b.gate.accepted|
    ensures b.lanes.handlerCalls == b.lanes.retried + b.lanes.delivered + b.lanes.dead
    ensures b.lanes.delivered + b.lanes.dead == |b.lanes.finalised|
  {
    hide Project;
    assert b.lanes.consumers[0].Returned? && ConsumerOk(b.lanes, b.gate.shutdown, 0);
    assert PutIds(b.gate) == {} && CountedIds(b.gate) == {};
    forall p: nat | p < c.partitions
      ensures Project(b.lanes.enqueued, p) == Project(ItemsOf(b.lanes.finalised), p)
    {
      assert Flow(b.lanes, p) && ConsumerOk(b.lanes, b.gate.shutdown, p);
    }
    SameProjections(c, b.lanes.enqueued, ItemsOf(b.lanes.finalised));
  }

  lemma RunStrandsNothing(c: Config, run: seq<State>, steps: seq<Step>, n: nat)
    requires IsRun(c, run, steps) && n < |run| && AllReturned(run[n])
    ensures forall p: nat :: p < c.partitions ==>
              Project(run[n].lanes.enqueued, p) == Project(ItemsOf(run[n].lanes.finalised), p)
    ensures multiset(ItemsOf(run[n].lanes.finalised)) == multiset(run[n].lanes.enqueued)
    ensures forall id :: Has(run[n].lanes.enqueued, id) <==> id in run[n].gate.accepted
    ensures forall i, j :: 0 <= i < j < |run[n].lanes.enqueued| ==>
              run[n].lanes.enqueued[i].id != run[n].lanes.enqueued[j].id
    ensures run[n].lanes.handlerCalls == run[n].lanes.retried + run[n].lanes.delivered + run[n].lanes.dead
  {
    RunKeeps(c, run, steps, n);
    hide Inv, Next, Enabled, Project;
    NothingStranded(c, run[n]);
  }

  /** Closing never waits on a consumer: while sends are in flight one of them can move, a full partition
      notwithstanding, and when none is the close can finish. */
  lemma CloseProgresses(c: Config, b: State)
    requires Inv(c, b) && b.gate.closed && !b.gate.shutdown
    ensures Enabled(c, b, FinishClose)
         || exists id ::
              Enabled(c, b, SeeClosing(id)) || Enabled(c, b, CountPublished(id)) || Enabled(c, b, LeaveSend(id))
  {
    hide LanesOk, RecordOk;
    if b.gate.inflight > 0 {
      assert b.gate.sends.Keys != {};
      var id :| id in b.gate.sends;
      match b.gate.sends[id].phase
      case Entered => assert Enabled(c, b, SeeClosing(id));
      case Put => assert Enabled(c, b, CountPublished(id));
      case Counted => assert Enabled(c, b, LeaveSend(id));
      case Refused => assert Enabled(c, b, LeaveSend(id));
    }
  }

  // ---- What is known of a value on its way ----

  lemma {:induction false} ProjectMembers(items: seq<Item>, x: Item)
    ensures x in Project(items, x.partition) <==> x in items
  {
    ProjectedCount(items, x);
    assert x in multiset(items) <==> x in items;
    assert x in multiset(Project(items, x.partition)) <==> x in Project(items, x.partition);
  }

  lemma OnRecord(c: Config, b: State, x: Item)
    requires Inv(c, b) && x in b.lanes.enqueued
    ensures Has(b.lanes.enqueued, x.id) && x.id < b.gate.nextId
  {
    hide LanesOk;
    var i :| 0 <= i < |b.lanes.enqueued| && b.lanes.enqueued[i] == x;
    assert Has(b.lanes.enqueued, x.id);
  }

  /** A value finalised or being handled was put on the bus. */
  lemma FinalKnown(c: Config, b: State, i: nat)
    requires Inv(c, b) && i < |b.lanes.finalised|
    ensures b.lanes.finalised[i].item in b.lanes.enqueued && b.lanes.finalised[i].item.id < b.gate.nextId
  {
    var x := b.lanes.finalised[i].item;
    assert ItemsOf(b.lanes.finalised)[i] == x;
    assert Flow(b.lanes, x.partition);
    hide Project, GateOk, RecordOk;
    ProjectMembers(ItemsOf(b.lanes.finalised), x);
    ProjectMembers(b.lanes.enqueued, x);
    OnRecord(c, b, x);
  }

  lemma HandledKnown(c: Config, b: State, p: nat)
    requires Inv(c, b) && IsConsumer(b.lanes, p) && b.lanes.consumers[p].Handling?
    ensures b.lanes.consumers[p].item in b.lanes.enqueued && b.lanes.consumers[p].item.id < b.gate.nextId
  {
    var x := b.lanes.consumers[p].item;
    assert Flow(b.lanes, p) && ConsumerOk(b.lanes, b.gate.shutdown, p);
    hide Project, GateOk, RecordOk;
    assert x in Project(b.lanes.enqueued, p);
    ProjectMembers(b.lanes.enqueued, x);
    OnRecord(c, b, x);
  }

  lemma {:induction false} AllDelivered(finals: seq<Final>, i: nat)
    requires DeliveredCount(finals) == |finals| && i < |finals|
    ensures finals[i].delivered
  {
    var front := finals[..|finals| - 1];
    DeliveredAtMost(front);
    if i < |front| { AllDelivered(front, i); }
  }

  lemma {:induction false} DeliveredAtMost(finals: seq<Final>)
    ensures DeliveredCount(finals) <= |finals|
  {
    if finals != [] { DeliveredAtMost(finals[..|finals| - 1]); }
  }
}
