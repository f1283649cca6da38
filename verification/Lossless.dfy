/** What a completed shutdown guarantees: every event of every accepted batch is in each store, wiped from it by a
    reset, shed by the window ceiling, or in a dead-lettered batch. */
module Lossless {
  import opened Aggregation
  import opened Domain
  import opened Tallies
  import B = Bus
  import C = Composition
  import E = ExactlyOnce
  import H = AggregatorHistory
  import M = MemoryStore
  import Ordering
  import S = Shutdown

  // ---- Batches ----

  /** The number of events in the batches sent under the given ids below `n`. */
  ghost function EventsIn(batchOf: map<nat, Batch>, ids: set<nat>, n: nat): nat {
    if n == 0 then 0
    else EventsIn(batchOf, ids, n - 1) + if n - 1 in ids then S.SizeOf(batchOf, n - 1) else 0
  }

  /** The number of events in the dead-lettered batches. */
  function DeadEvents(batchOf: map<nat, Batch>, finals: seq<B.Final>): nat {
    if finals == [] then 0
    else
      var f := finals[|finals| - 1];
      DeadEvents(batchOf, finals[..|finals| - 1]) + if f.delivered then 0 else S.SizeOf(batchOf, f.item.id)
  }

  ghost function IdsOf(finals: seq<B.Final>): set<nat> {
    set i | 0 <= i < |finals| :: finals[i].item.id
  }

  lemma {:induction false} EventsInNone(batchOf: map<nat, Batch>, n: nat)
    ensures EventsIn(batchOf, {}, n) == 0
  {
    if n > 0 { EventsInNone(batchOf, n - 1); }
  }

  lemma {:induction false} EventsInAdd(batchOf: map<nat, Batch>, ids: set<nat>, id: nat, n: nat)
    requires id !in ids
    ensures EventsIn(batchOf, ids + {id}, n) == EventsIn(batchOf, ids, n) + if id < n then S.SizeOf(batchOf, id) else 0
  {
    if n > 0 { EventsInAdd(batchOf, ids, id, n - 1); }
  }

  /** Batches finalised once each: their events are the delivered ones and the dead ones. */
  lemma {:induction false} FinalEvents(batchOf: map<nat, Batch>, finals: seq<B.Final>, n: nat)
    requires forall i, j :: 0 <= i < j < |finals| ==> finals[i].item.id != finals[j].item.id
    requires forall i :: 0 <= i < |finals| ==> finals[i].item.id < n
    ensures S.DeliveredEvents(batchOf, finals) + DeadEvents(batchOf, finals) == EventsIn(batchOf, IdsOf(finals), n)
  {
    if finals == [] {
      assert IdsOf(finals) == {};
      EventsInNone(batchOf, n);
    } else {
      var front, f := finals[..|finals| - 1], finals[|finals| - 1];
      FinalEvents(batchOf, front, n);
      EventsInAdd(batchOf, IdsOf(front), f.item.id, n);
      assert IdsOf(finals) == IdsOf(front) + {f.item.id} by {
        assert forall i :: 0 <= i < |finals| ==> i == |front| || finals[i] == front[i];
      }
    }
  }

  lemma FinalsDistinct(c: B.Config, b: B.State)
    requires B.Inv(c, b) && B.AllReturned(b)
    ensures forall i, j :: 0 <= i < j < |b.lanes.finalised| ==>
              b.lanes.finalised[i].item.id != b.lanes.finalised[j].item.id
    ensures IdsOf(b.lanes.finalised) == b.gate.accepted
  {
    hide B.Inv, B.AllReturned;
    B.NothingStranded(c, b);
    var items, enqueued, finals := B.ItemsOf(b.lanes.finalised), b.lanes.enqueued, b.lanes.finalised;
    forall i, j | 0 <= i < j < |finals|
      ensures finals[i].item.id != finals[j].item.id
    {
      assert items[i] == finals[i].item && items[j] == finals[j].item;
      OnlyOnce(items, enqueued, i, j);
    }
    forall id ensures id in IdsOf(finals) <==> B.Has(enqueued, id) {
      SameIds(items, enqueued, id);
      assert forall i :: 0 <= i < |finals| ==> items[i] == finals[i].item;
    }
  }

  lemma OnlyOnce(items: seq<B.Item>, enqueued: seq<B.Item>, i: nat, j: nat)
    requires multiset(items) == multiset(enqueued) && i < j < |items|
    requires forall a, b :: 0 <= a < b < |enqueued| ==> enqueued[a].id != enqueued[b].id
    ensures items[i].id != items[j].id
  {
    Ordering.PermutationKeepsDistinct(enqueued, items);
    assert items[i] in multiset(items) && items[j] in multiset(items);
    assert items[i] in enqueued && items[j] in enqueued;
  }

  lemma SameIds(items: seq<B.Item>, enqueued: seq<B.Item>, id: nat)
    requires multiset(items) == multiset(enqueued)
    ensures B.Has(items, id) <==> B.Has(enqueued, id)
  {
    if i :| 0 <= i < |items| && items[i].id == id {
      assert items[i] in multiset(items);
      assert items[i] in enqueued;
    }
    if i :| 0 <= i < |enqueued| && enqueued[i].id == id {
      assert enqueued[i] in multiset(enqueued);
      assert enqueued[i] in items;
    }
  }

  // ---- Windows ----

  lemma NoneDead(c: B.Config, b: B.State)
    requires B.Inv(c, b) && b.lanes.dead == 0
    ensures B.DeliveredCount(b.lanes.finalised) == |b.lanes.finalised|
  {
    hide B.Flow, B.ConsumerOk, B.RecordOk, B.GateOk;
  }

  /** With no dead letters on its bus, all that a target took was delivered to it. */
  lemma AllPersisted(c: S.Settings, r: S.Runtime, t: nat)
    requires S.Inv(c, r) && t < |r.sinks| && B.AllReturned(r.sinks[t].bus) && r.sinks[t].bus.lanes.dead == 0
    ensures t < |r.system.targets| && r.system.targets[t].taken <= r.system.targets[t].delivered
  {
    hide B.Inv, E.Inv, B.AllReturned, S.IngestOk, S.EmitterOk, S.StageOk, S.SinksOk, S.SendsOk, S.AtHand;
    S.OneSink(c.sinks, r.sinks, r.system.targets, t);
    SinkPersisted(c.sinks[t], r.sinks[t], r.system.targets[t]);
  }

  lemma SinkPersisted(c: B.Config, k: S.Sink, t: E.Target)
    requires S.SinkOk(c, k, t) && B.AllReturned(k.bus) && k.bus.lanes.dead == 0
    ensures t.taken <= t.delivered
  {
    hide B.Inv, B.AllReturned;
    B.NothingStranded(c, k.bus);
    NoneDead(c, k.bus);
    var items, enqueued, finals := B.ItemsOf(k.bus.lanes.finalised), k.bus.lanes.enqueued, k.bus.lanes.finalised;
    forall s | s in t.taken
      ensures s in t.delivered
    {
      assert S.TakenFromBus(k.windowOf, enqueued, s);
      var i :| 0 <= i < |enqueued| && enqueued[i].id in k.windowOf && k.windowOf[enqueued[i].id].sequence == s;
      SameIds(items, enqueued, enqueued[i].id);
      assert B.Has(enqueued, enqueued[i].id);
      var j :| 0 <= j < |items| && items[j].id == enqueued[i].id;
      assert items[j] == finals[j].item;
      B.AllDelivered(finals, j);
    }
  }

  // ---- The store ----

  function CountOver(st: M.Store, keys: seq<string>): int {
    if keys == [] then 0 else CountOver(st, keys[..|keys| - 1]) + M.Counters(st, keys[|keys| - 1]).count
  }

  /** The admitted events the store has not wiped, of the given keys. */
  ghost function IdsOver(h: H.History, t: E.Target, keys: seq<string>): set<nat>
    requires |h.places| == |h.admitted|
  {
    set i: nat | i < |h.admitted| && !E.InOneOf(h.places[i], E.Wiped(t)) && E.EventKey(h.admitted[i]) in keys
  }

  /** The admitted events the store has wiped. */
  ghost function WipedIds(h: H.History, t: E.Target): set<nat>
    requires |h.places| == |h.admitted|
  {
    set i: nat | i < |h.admitted| && E.InOneOf(h.places[i], E.Wiped(t))
  }

  /** How many they are. */
  ghost function WipedEvents(h: H.History, t: E.Target): int
    requires |h.places| == |h.admitted|
  {
    Tally(h.admitted, WipedIds(h, t)).count
  }

  /** The store shows for every key what stands of it. */
  ghost predicate ShowsStanding(h: H.History, t: E.Target)
    requires |h.places| == |h.admitted|
  {
    forall key :: M.Counters(t.store, key) == Tally(h.admitted, E.StandingIds(h, t, key))
  }

  lemma {:induction false} CountOverDevices(h: H.History, t: E.Target, keys: seq<string>)
    requires |h.places| == |h.admitted| && ShowsStanding(h, t)
    requires forall i, j :: 0 <= i < j < |keys| ==> keys[i] != keys[j]
    ensures CountOver(t.store, keys) == Tally(h.admitted, IdsOver(h, t, keys)).count
  {
    hide Tally, M.Counters, DeviceScope;
    if keys == [] {
      TallyNone(h.admitted, IdsOver(h, t, keys));
    } else {
      var front, key := keys[..|keys| - 1], keys[|keys| - 1];
      CountOverDevices(h, t, front);
      assert keys == front + [key];
      assert key !in front;
      assert IdsOver(h, t, keys) == IdsOver(h, t, front) + E.StandingIds(h, t, key);
      TallyDisjoint(h.admitted, IdsOver(h, t, front), E.StandingIds(h, t, key));
    }
  }

  lemma {:induction false} TallyAll(events: seq<Event>, ids: set<nat>)
    requires forall i: nat :: i < |events| ==> i in ids
    ensures Tally(events, ids).count == |events|
  {
    if events != [] { TallyAll(events[..|events| - 1], ids); }
  }

  /** The counts of all devices and the events wiped add up to the number of admitted events. */
  lemma StoreCountsAll(h: H.History, t: E.Target, keys: seq<string>)
    requires |h.places| == |h.admitted| && ShowsStanding(h, t)
    requires forall i, j :: 0 <= i < j < |keys| ==> keys[i] != keys[j]
    requires forall key :: key in keys <==> key in t.store.devices
    ensures CountOver(t.store, keys) + WipedEvents(h, t) == |h.admitted|
  {
    hide Tally, DeviceScope;
    CountOverDevices(h, t, keys);
    forall i: nat | i < |h.admitted| && i !in WipedIds(h, t) ensures i in IdsOver(h, t, keys) {
      var key := E.EventKey(h.admitted[i]);
      TallyPositive(h.admitted, E.StandingIds(h, t, key), i);
      assert M.Counters(t.store, key).count >= 1;
    }
    TallyDisjoint(h.admitted, IdsOver(h, t, keys), WipedIds(h, t));
    TallyAll(h.admitted, IdsOver(h, t, keys) + WipedIds(h, t));
  }

  // ---- Which batches are dead-lettered ----

  /** A finalised batch was delivered exactly when all its events are valid. */
  ghost predicate JudgedByEvents(batchOf: map<nat, Batch>, finals: seq<B.Final>) {
    forall i :: 0 <= i < |finals| ==> RightlyJudged(batchOf, finals[i])
  }

  ghost predicate RightlyJudged(batchOf: map<nat, Batch>, f: B.Final) {
    f.item.id in batchOf && (f.delivered <==> forall e :: e in batchOf[f.item.id].events ==> e.Valid())
  }

  lemma HandledJudged(c: S.Settings, r: S.Runtime, p: nat)
    requires ValidConfig(c.aggregate) && S.Enabled(c, r, S.HandleBatch(p))
    requires JudgedByEvents(r.batchOf, r.batches.lanes.finalised)
    ensures JudgedByEvents(S.Handled(c, r, p).batchOf, S.Handled(c, r, p).batches.lanes.finalised)
  {
    var ok := S.AllValid(r.batchOf[r.batches.lanes.consumers[p].item.id].events);
    S.AttemptStep(c.batches, r.batches, p, ok);
    hide B.Next, H.AdmitBatch;
  }

  lemma StepJudged(c: S.Settings, r: S.Runtime, a: S.Step)
    requires S.Inv(c, r) && S.Enabled(c, r, a) && S.Defined(c, r, a)
    requires JudgedByEvents(r.batchOf, r.batches.lanes.finalised)
    ensures JudgedByEvents(S.Next(c, r, a).batchOf, S.Next(c, r, a).batches.lanes.finalised)
  {
    hide S.Inv, B.Next, B.Enabled, JudgedByEvents, H.Shaped, S.Handled, S.Gathered, S.Stepped, S.WindowSent;
    hide S.WindowAnswered, S.Persisted, S.Settled, S.Awaited, S.CommandSent, S.Commanded;
    S.InvShapes(c, r);
    match a
    case AgentSend(partition, batch) =>
      SentFinals(c, r, partition);
      NewBatchJudged(c, r, batch);
    case BatchBus(s) => S.QuietStep(c.batches, r.batches, s);
    case HandleBatch(p) => HandledJudged(c, r, p);
    case _ => OtherBatches(c, r, a);
  }

  lemma SentFinals(c: S.Settings, r: S.Runtime, partition: nat)
    requires B.Enabled(c.batches, r.batches, B.EnterSend(partition))
    ensures B.Next(c.batches, r.batches, B.EnterSend(partition)).lanes == r.batches.lanes
  {
  }

  lemma NewBatchJudged(c: S.Settings, r: S.Runtime, batch: Batch)
    requires S.Inv(c, r) && JudgedByEvents(r.batchOf, r.batches.lanes.finalised)
    ensures JudgedByEvents(r.batchOf[r.batches.gate.nextId := batch], r.batches.lanes.finalised)
  {
    assert B.Inv(c.batches, r.batches);
    hide S.Inv, B.Inv;
    S.FinalsKnown(c.batches, r.batches);
  }

  lemma OtherBatches(c: S.Settings, r: S.Runtime, a: S.Step)
    requires S.Enabled(c, r, a) && S.Defined(c, r, a) && !a.AgentSend? && !a.BatchBus? && !a.HandleBatch?
    ensures S.Next(c, r, a).batches == r.batches && S.Next(c, r, a).batchOf == r.batchOf
  {
    hide B.Next, B.Enabled, E.Gathered, E.Offered, E.Concluded, E.Settled, E.DeliveredOnce, E.ResetOnce;
  }

  /** In every run a batch is dead-lettered exactly when it holds an invalid event. */
  lemma {:induction false} DeadMeansInvalid(c: S.Settings, seed: int, run: seq<S.Runtime>, steps: seq<S.Step>, n: nat)
    requires S.IsRun(c, seed, run, steps) && n < |run|
    ensures JudgedByEvents(run[n].batchOf, run[n].batches.lanes.finalised)
  {
    hide S.Inv, S.Enabled, S.Defined, S.Next, JudgedByEvents;
    if n == 0 {
      NothingJudged(c, seed);
    } else {
      DeadMeansInvalid(c, seed, run, steps, n - 1);
      S.RunKeeps(c, seed, run, steps, n - 1);
      S.NextKeeps(c, run[n - 1], steps[n - 1]);
      StepJudged(c, run[n - 1], steps[n - 1]);
    }
  }

  lemma NothingJudged(c: S.Settings, seed: int)
    ensures JudgedByEvents(S.Init(c, seed).batchOf, S.Init(c, seed).batches.lanes.finalised)
  {
  }

  // ---- No agent is turned away, nor a command while windows are still on their way ----

  /** The batch bus closes only once the agents are done sending, the command bus only after the window buses. */
  ghost predicate AgentsFirst(r: S.Runtime) {
    && (!r.stage.Running? ==> r.batches.gate.sends == map[])
    && (r.batches.gate.closed ==> !r.stage.Running?)
    && (r.commands.gate.closed ==> S.Rank(r.stage) >= S.Rank(S.SinksDone))
  }

  lemma StageAdvances(c: S.Settings, r: S.Runtime, a: S.Step)
    requires S.Enabled(c, r, a) && S.Defined(c, r, a)
    ensures a.StopAgents? ==> r.batches.gate.sends == map[]
    ensures !a.StopAgents? && r.stage.Running? ==> S.Next(c, r, a).stage.Running?
    ensures !r.stage.Running? ==> !S.Next(c, r, a).stage.Running?
    ensures S.Rank(r.stage) <= S.Rank(S.Next(c, r, a).stage)
    ensures !a.CommandSend? && !a.CommandBus? && !a.HandleCommand? ==> S.Next(c, r, a).commands == r.commands
  {
    hide B.Next, B.Enabled, E.Gathered, E.Offered, E.Concluded, E.Settled, E.DeliveredOnce, E.ResetOnce, H.AdmitBatch;
  }

  lemma BatchStepWaits(c: S.Settings, r: S.Runtime, a: B.Step)
    requires S.BatchStepAllowed(r, a) && B.Enabled(c.batches, r.batches, a) && AgentsFirst(r)
    ensures AgentsFirst(r.(batches := B.Next(c.batches, r.batches, a)))
  {
  }

  lemma CommandStepWaits(c: S.Settings, r: S.Runtime, a: S.Step)
    requires S.Enabled(c, r, a) && S.Defined(c, r, a) && (a.CommandSend? || a.CommandBus? || a.HandleCommand?)
    ensures S.Next(c, r, a).commands.gate.closed ==> r.commands.gate.closed || r.stage.SinksDone?
  {
    hide E.ResetOnce, H.Shaped;
  }

  lemma StepWaits(c: S.Settings, r: S.Runtime, a: S.Step)
    requires S.Enabled(c, r, a) && S.Defined(c, r, a) && ValidConfig(c.aggregate) && AgentsFirst(r)
    ensures AgentsFirst(S.Next(c, r, a))
  {
    StageAdvances(c, r, a);
    hide H.Shaped;
    if a.CommandSend? || a.CommandBus? || a.HandleCommand? { CommandStepWaits(c, r, a); }
    if a.AgentSend? {
      hide S.Rank;
    } else if a.BatchBus? {
      BatchStepWaits(c, r, a.batchStep);
    } else if a.HandleBatch? {
      S.AttemptStep(c.batches, r.batches, a.consumer,
                    S.AllValid(r.batchOf[r.batches.lanes.consumers[a.consumer].item.id].events));
      hide B.Next, H.AdmitBatch;
    } else {
      OtherBatches(c, r, a);
      hide S.Next;
    }
  }

  /** In every run no batch an agent sends is refused by a closing bus. */
  lemma {:induction false} AgentsNeverRefused(c: S.Settings, seed: int, run: seq<S.Runtime>, steps: seq<S.Step>, n: nat)
    requires S.IsRun(c, seed, run, steps) && n < |run|
    ensures AgentsFirst(run[n])
    ensures forall id :: !B.Enabled(c.batches, run[n].batches, B.SeeClosing(id))
  {
    hide S.Inv, S.Enabled, S.Defined, S.Next, S.Init, AgentsFirst, ValidConfig, B.Enabled;
    if n == 0 {
      AgentsFirstAtStart(c, seed);
    } else {
      AgentsNeverRefused(c, seed, run, steps, n - 1);
      S.RunKeeps(c, seed, run, steps, n - 1);
      S.NextKeeps(c, run[n - 1], steps[n - 1]);
      S.InvShapes(c, run[n - 1]);
      StepWaits(c, run[n - 1], steps[n - 1]);
    }
    NoneToRefuse(c, run[n]);
  }

  lemma AgentsFirstAtStart(c: S.Settings, seed: int)
    ensures AgentsFirst(S.Init(c, seed))
  {
  }

  lemma NoneToRefuse(c: S.Settings, r: S.Runtime)
    requires AgentsFirst(r)
    ensures forall id :: !B.Enabled(c.batches, r.batches, B.SeeClosing(id))
  {
  }

  // ---- The law ----

  /** Where every accepted batch ended: ingested whole, or dead-lettered. */
  lemma BatchesAccounted(c: S.Settings, r: S.Runtime)
    requires S.Inv(c, r) && B.AllReturned(r.batches)
    ensures S.Ingested(r.system.history) + DeadEvents(r.batchOf, r.batches.lanes.finalised)
         == EventsIn(r.batchOf, r.batches.gate.accepted, r.batches.gate.nextId)
  {
    hide B.Inv, E.Inv, B.AllReturned, S.SinksOk, S.EmitSide, S.Staged, S.CommandSide;
    hide S.DeliveredEvents, DeadEvents, EventsIn, IdsOf, S.Ingested;
    FinalsDistinct(c.batches, r.batches);
    S.FinalsKnown(c.batches, r.batches);
    FinalEvents(r.batchOf, r.batches.lanes.finalised, r.batches.gate.nextId);
  }

  lemma {:induction false} NoDeadEvents(batchOf: map<nat, Batch>, finals: seq<B.Final>)
    requires B.DeliveredCount(finals) == |finals|
    ensures DeadEvents(batchOf, finals) == 0
  {
    if finals != [] {
      B.AllDelivered(finals, |finals| - 1);
      NoDeadEvents(batchOf, finals[..|finals| - 1]);
    }
  }

  /** What the stopped stage means. */
  lemma WhenStopped(c: S.Settings, r: S.Runtime)
    requires S.Inv(c, r) && r.stage.Stopped?
    ensures B.AllReturned(r.batches) && B.AllReturned(r.commands)
    ensures forall t :: 0 <= t < |r.sinks| ==> B.AllReturned(r.sinks[t].bus)
    ensures r.system.history.agg.open == map[] && r.system.history.agg.pending == map[]
    ensures |r.system.targets| == |r.sinks| == |c.sinks|
    ensures forall t :: 0 < t < |r.system.targets| ==> r.system.targets[t].standing == r.system.targets[t].delivered
  {
    hide B.Inv, E.Inv, B.AllReturned, S.SinkOk, S.IngestOk, S.SendsOk, S.AtHand, S.Covered, S.NoneClosed;
  }

  /** Once stopped, a store whose window bus dead-lettered nothing has received all there is. */
  lemma StoppedDrains(c: S.Settings, r: S.Runtime, t: nat)
    requires S.Inv(c, r) && r.stage.Stopped? && t < |r.sinks| && r.sinks[t].bus.lanes.dead == 0
    ensures t < |r.system.targets| && t < |c.sinks| && E.Drained(r.system, t)
  {
    hide S.Inv, B.AllReturned;
    WhenStopped(c, r);
    AllPersisted(c, r, t);
  }

  lemma StandsShown(c: Config, s: E.System, t: nat)
    requires E.Inv(c, s) && t < |s.targets| && E.Drained(s, t)
    ensures |s.history.places| == |s.history.admitted| && ShowsStanding(s.history, s.targets[t])
  {
    hide E.Inv, Tally, M.Counters, E.StandingIds, E.Drained;
    forall key
      ensures |s.history.places| == |s.history.admitted|
      ensures M.Counters(s.targets[t].store, key)
           == Tally(s.history.admitted, E.StandingIds(s.history, s.targets[t], key))
    {
      E.ExactlyOnceWhenDrained(c, s, t, key);
    }
    E.InvLengths(c, s);
  }

  /** In every run, once `Stop` has returned, for every store whose window bus dead-lettered nothing: over all
      devices, what the store counts, what resets have wiped from it, what the window ceiling shed and what was
      dead-lettered add up to the events of the accepted batches. From a store other than the live one nothing is
      wiped; with nothing wiped, dead or shed the store counts every accepted event. */
  lemma StopLosesNothing(
    c: S.Settings, seed: int, run: seq<S.Runtime>, steps: seq<S.Step>, n: nat, t: nat, keys: seq<string>)
    requires S.IsRun(c, seed, run, steps) && n < |run| && run[n].stage.Stopped?
    requires t < |run[n].sinks| && t < |run[n].system.targets| && run[n].sinks[t].bus.lanes.dead == 0
    requires forall i, j :: 0 <= i < j < |keys| ==> keys[i] != keys[j]
    requires forall key :: key in keys <==> key in run[n].system.targets[t].store.devices
    ensures |run[n].system.history.places| == |run[n].system.history.admitted|
    ensures var r := run[n]; var h, target := r.system.history, r.system.targets[t];
            && CountOver(target.store, keys) + WipedEvents(h, target) + h.agg.shed
              + DeadEvents(r.batchOf, r.batches.lanes.finalised)
                 == EventsIn(r.batchOf, r.batches.gate.accepted, r.batches.gate.nextId)
            && (E.Wiped(target) == {} ==> WipedEvents(h, target) == 0)
            && (t > 0 ==> E.Wiped(target) == {})
            && (r.batches.lanes.dead == 0 ==> DeadEvents(r.batchOf, r.batches.lanes.finalised) == 0)
  {
    hide B.Inv, E.Inv, B.AllReturned, S.IsRun, S.BatchSide, S.SinksOk, S.EmitSide, S.Staged, S.CommandSide;
    hide B.DeliveredCount;
    hide DeadEvents, EventsIn, Tally, DeviceScope, M.Counters, CountOver, ShowsStanding, E.Drained;
    S.RunKeeps(c, seed, run, steps, n);
    var r := run[n];
    WhenStopped(c, r);
    StoppedDrains(c, r, t);
    StandsShown(c.aggregate, r.system, t);
    BatchesAccounted(c, r);
    StoreCountsAll(r.system.history, r.system.targets[t], keys);
    if r.batches.lanes.dead == 0 {
      NoneDead(c.batches, r.batches);
      NoDeadEvents(r.batchOf, r.batches.lanes.finalised);
    }
    if E.Wiped(r.system.targets[t]) == {} {
      TallyNone(r.system.history.admitted, WipedIds(r.system.history, r.system.targets[t]));
    }
  }

  /** ... each device of each user reads there the sums over its admitted events, apart from those that had reached
      the live store before the device was reset, by the commands handled in the run. */
  lemma DevicesAtStop(
    c: S.Settings, seed: int, run: seq<S.Runtime>, steps: seq<S.Step>, n: nat, t: nat, userID: string, deviceID: string)
    requires S.IsRun(c, seed, run, steps) && n < |run| && run[n].stage.Stopped?
    requires t < |run[n].sinks| && run[n].sinks[t].bus.lanes.dead == 0
    requires forall e :: e in run[n].system.history.admitted ==> UsersApart(e.userID, userID)
    ensures var s := run[n].system;
            && t < |s.targets| && |s.history.places| == |s.history.admitted|
            && var shown := M.Counters(s.targets[t].store, DeviceScope(userID, deviceID));
               && shown == Tally(s.history.admitted,
                                 E.OwnSinceReset(s.history, C.MovesOf(c, run, steps, n), t, userID, deviceID))
               && (t > 0 ==> shown == Tally(s.history.admitted, E.OwnIds(s.history, userID, deviceID)))
  {
    hide S.Inv, Tally, DeviceScope, M.Counters, UsersApart, E.OwnSinceReset, E.OwnIds, E.Drained, C.MovesOf;
    S.RunKeeps(c, seed, run, steps, n);
    StoppedDrains(c, run[n], t);
    C.DeviceReading(c, seed, run, steps, n, t, userID, deviceID);
  }

  /** ... and every command whose publication returned nil was handled to the end, once. */
  lemma CommandsHandled(c: S.Settings, seed: int, run: seq<S.Runtime>, steps: seq<S.Step>, n: nat)
    requires S.IsRun(c, seed, run, steps) && n < |run| && run[n].stage.Stopped?
    ensures var b := run[n].commands;
            && IdsOf(b.lanes.finalised) == b.gate.accepted
            && forall i, j :: 0 <= i < j < |b.lanes.finalised| ==>
                b.lanes.finalised[i].item.id != b.lanes.finalised[j].item.id
  {
    hide B.Inv, E.Inv, B.AllReturned, S.IsRun, S.BatchSide, S.SinksOk, S.EmitSide, S.Staged, S.CommandSide, IdsOf;
    S.RunKeeps(c, seed, run, steps, n);
    WhenStopped(c, run[n]);
    FinalsDistinct(c.commands, run[n].commands);
  }
}
