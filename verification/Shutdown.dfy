/** The in-memory runtime (internal/app/runtime.go:271-324): agents send batches into one bus, its consumers
    feed the aggregator, an emitter publishes windows through a fan-out to one or more window buses (the live
    store's, and the archive's when there is one), their consumers feed the stores, a command bus carries resets
    to the live store, and `Stop` closes the stages in order. Every interleaving is allowed; nothing is
    cancelled but a publisher's own send. */
module Shutdown {
  import opened Aggregation
  import opened DecimalText
  import opened Domain
  import B = Bus
  import E = ExactlyOnce
  import H = AggregatorHistory
  import M = MemoryStore

  /** The buses' settings; the window buses in the order the fan-out asks them and `shutdown` closes them. */
  datatype Settings = Settings(aggregate: Config, batches: B.Config, sinks: seq<B.Config>, commands: B.Config)

  ghost predicate ValidSettings(c: Settings) {
    && ValidConfig(c.aggregate) && AlwaysAnswers(c.aggregate.sketch) && B.ValidConfig(c.batches)
      && B.ValidConfig(c.commands)
    && |c.sinks| > 0 && forall i :: 0 <= i < |c.sinks| ==> B.ValidConfig(c.sinks[i])
  }

  /** How far `shutdown` has got. */
  datatype Stage =
    | Running | AgentsStopped | ConsumersDone | EmitterStopped | FinalPublishing | FinalEmitted | SinksDone | Stopped

  function Rank(s: Stage): nat {
    match s
    case Running => 0
    case AgentsStopped => 1
    case ConsumersDone => 2
    case EmitterStopped => 3
    case FinalPublishing => 4
    case FinalEmitted => 5
    case SinksDone => 6
    case Stopped => 7
  }

  /** A window bus, and the window each of its sends carries. */
  datatype Sink = Sink(bus: B.State, windowOf: map<nat, AggregateWindow>)

  /** The emitter's send in progress. */
  datatype Sending = Sending(sink: nat, id: nat)

  /** `batchOf` gives the batch each send carries; the system's call 0 is the emit in progress and its targets
      are the stores behind the window buses, the first of them the live one; `awaited` counts the window buses
      closed and drained; `commandOf` gives the command each send on the command bus carries. */
  datatype Runtime = Runtime(
    batches: B.State, batchOf: map<nat, Batch>, system: E.System, sinks: seq<Sink>, sending: Option<Sending>,
    stage: Stage, awaited: nat, commands: B.State, commandOf: map<nat, Command>)

  function Init(c: Settings, seed: int): Runtime {
    Runtime(B.Init(c.batches), map[], E.Init(seed, |c.sinks|),
            seq(|c.sinks|, i requires 0 <= i < |c.sinks| => Sink(B.Init(c.sinks[i]), map[])), None, Running, 0,
            B.Init(c.commands), map[])
  }

  datatype Step =
    | AgentSend(partition: nat, batch: Batch)
    | BatchBus(batchStep: B.Step)
    | HandleBatch(consumer: nat)
    | EmitTick(selection: Selection)
    | FinalEmit
    | SendWindow(partition: nat)
    | RefuseEntry
    | PutWindow
    | RefuseWindow
    | CountWindow
    | LeaveWindow
    | ConcludeWindow
    | SettleEmit
    | SinkBus(sink: nat, sinkStep: B.Step)
    | Persist(sink: nat, consumer: nat, ok: bool, applied: bool)
    | CommandSend(partition: nat, command: Command)
    | CommandBus(commandStep: B.Step)
    | HandleCommand(consumer: nat, ok: bool, applied: bool)
    | StopAgents
    | AwaitConsumers
    | StopEmitter
    | AwaitPersisters
    | AwaitCommands

  predicate Idle(r: Runtime) { r.system.calls == map[] }

  predicate Emitting(r: Runtime) { 0 in r.system.calls }

  /** The rest of a batch send, the batch consumers apart from their handler, and `Batches.Close`, which
      waits for the agents. */
  predicate BatchStepAllowed(r: Runtime, a: B.Step) {
    !a.EnterSend? && !a.Attempt? && (a.BeginClose? ==> r.stage.AgentsStopped?)
  }

  /** The window consumers apart from their handler, and the bus's close, which waits for the final emit and
      for the buses before it. */
  predicate SinkStepAllowed(r: Runtime, sink: nat, a: B.Step) {
    || a.StartConsumer? || a.Take? || a.SeeShutdown? || a.FinishDrain? || a.FinishClose?
    || (a.BeginClose? && r.stage.FinalEmitted? && sink == r.awaited)
  }

  /** The rest of a command's send, the command consumers apart from their handler, and `Commands.Close`, which
      waits for the window buses. */
  predicate CommandStepAllowed(r: Runtime, a: B.Step) {
    !a.EnterSend? && !a.Attempt? && (a.BeginClose? ==> r.stage.SinksDone?)
  }

  /** The only command with an effect. */
  predicate IsReset(command: Command) { command.Valid() && command.kind.ResetCounters? }

  /** An emit has a window at hand and the target to ask next. */
  predicate Asking(r: Runtime) {
    Emitting(r) && r.system.calls[0].rest != [] && r.system.calls[0].asked < |r.sinks|
      && r.system.calls[0].asked < |r.system.targets|
  }

  /** A bus step of a sink. */
  predicate SinkStep(c: Settings, r: Runtime, sink: nat, a: B.Step) {
    sink < |r.sinks| && sink < |c.sinks| && B.Enabled(c.sinks[sink], r.sinks[sink].bus, a)
  }

  ghost predicate Enabled(c: Settings, r: Runtime, a: Step) {
    match a
    case AgentSend(partition, _) => r.stage.Running? && B.Enabled(c.batches, r.batches, B.EnterSend(partition))
    case BatchBus(s) => BatchStepAllowed(r, s) && B.Enabled(c.batches, r.batches, s)
    case HandleBatch(p) =>
      B.Enabled(c.batches, r.batches, B.Attempt(p, true)) && r.batches.lanes.consumers[p].item.id in r.batchOf
    case EmitTick(_) => Idle(r) && Rank(r.stage) < Rank(EmitterStopped)
    case FinalEmit => Idle(r) && r.stage.EmitterStopped?
    case SendWindow(partition) =>
      Asking(r) && r.sending.None? && SinkStep(c, r, r.system.calls[0].asked, B.EnterSend(partition))
    case RefuseEntry => Asking(r) && r.sending.None? && r.sinks[r.system.calls[0].asked].bus.gate.closed
    case PutWindow =>
      Asking(r) && r.sending.Some? && SinkStep(c, r, r.sending.value.sink, B.PutValue(r.sending.value.id))
    case RefuseWindow =>
      Asking(r) && r.sending.Some? && SinkStep(c, r, r.sending.value.sink, B.SeeClosing(r.sending.value.id))
    case CountWindow => r.sending.Some? && SinkStep(c, r, r.sending.value.sink, B.CountPublished(r.sending.value.id))
    case LeaveWindow => r.sending.Some? && SinkStep(c, r, r.sending.value.sink, B.LeaveSend(r.sending.value.id))
    case ConcludeWindow =>
      Emitting(r) && r.sending.None? && r.system.calls[0].rest != [] && r.system.calls[0].asked == |r.system.targets|
    case SettleEmit => Emitting(r) && r.system.calls[0].rest == [] && r.sending.None?
    case SinkBus(i, s) => SinkStepAllowed(r, i, s) && SinkStep(c, r, i, s)
    case Persist(i, p, ok, applied) =>
      && SinkStep(c, r, i, B.Attempt(p, ok)) && (ok ==> applied)
      && r.sinks[i].bus.lanes.consumers[p].item.id in r.sinks[i].windowOf
    case CommandSend(partition, command) => command.Valid() && B.Enabled(c.commands, r.commands, B.EnterSend(partition))
    case CommandBus(s) => CommandStepAllowed(r, s) && B.Enabled(c.commands, r.commands, s)
    case HandleCommand(p, ok, applied) =>
      && B.Enabled(c.commands, r.commands, B.Attempt(p, ok)) && (ok ==> applied)
      && r.commands.lanes.consumers[p].item.id in r.commandOf
      && (applied ==> IsReset(r.commandOf[r.commands.lanes.consumers[p].item.id]))
    case StopAgents => r.stage.Running? && r.batches.gate.sends == map[]
    case AwaitConsumers => r.stage.AgentsStopped? && B.AllReturned(r.batches)
    case StopEmitter => r.stage.ConsumersDone? && Idle(r)
    case AwaitPersisters => r.stage.FinalEmitted? && r.awaited < |r.sinks| && B.AllReturned(r.sinks[r.awaited].bus)
    case AwaitCommands => r.stage.SinksDone? && B.AllReturned(r.commands)
  }

  predicate AllValid(events: seq<Event>) { forall e :: e in events ==> e.Valid() }

  function Always(n: nat): (s: seq<bool>)
    ensures |s| == n && forall i :: 0 <= i < n ==> s[i]
  {
    seq(n, _ => true)
  }

  // ---- One function per step ----

  function AgentSent(c: Settings, r: Runtime, partition: nat, batch: Batch): Runtime
    requires B.Enabled(c.batches, r.batches, B.EnterSend(partition))
  {
    r.(batches := B.Next(c.batches, r.batches, B.EnterSend(partition)),
       batchOf := r.batchOf[r.batches.gate.nextId := batch])
  }

  /** The batch handler: an invalid batch is refused untouched, a valid one is ingested. */
  function Handled(c: Settings, r: Runtime, p: nat): Runtime
    requires ValidConfig(c.aggregate)
    requires B.Enabled(c.batches, r.batches, B.Attempt(p, true)) && r.batches.lanes.consumers[p].item.id in r.batchOf
  {
    var events := r.batchOf[r.batches.lanes.consumers[p].item.id].events;
    var ok := AllValid(events);
    r.(batches := B.Next(c.batches, r.batches, B.Attempt(p, ok)),
       system := if !ok then r.system
                 else r.system.(history := H.AdmitBatch(c.aggregate, r.system.history, events, Always(|events|))))
  }

  ghost function Gathered(c: Settings, r: Runtime, selection: Selection): Runtime
    requires H.Shaped(c.aggregate, r.system.history)
  {
    r.(system := E.Gathered(c.aggregate, r.system, 0, selection))
  }

  /** A step of one window bus. */
  function Stepped(c: Settings, r: Runtime, i: nat, a: B.Step): seq<Sink>
    requires SinkStep(c, r, i, a)
  {
    r.sinks[i := r.sinks[i].(bus := B.Next(c.sinks[i], r.sinks[i].bus, a))]
  }

  function WindowSent(c: Settings, r: Runtime, partition: nat): Runtime
    requires Asking(r) && SinkStep(c, r, r.system.calls[0].asked, B.EnterSend(partition))
  {
    var i, w := r.system.calls[0].asked, r.system.calls[0].rest[0];
    var sink := r.sinks[i];
    r.(sinks := r.sinks[i := Sink(B.Next(c.sinks[i], sink.bus, B.EnterSend(partition)),
                                  sink.windowOf[sink.bus.gate.nextId := w])],
       sending := Some(Sending(i, sink.bus.gate.nextId)))
  }

  /** The send's channel operation, and the target's answer: the window was put, or refused by a closing bus. */
  function WindowAnswered(c: Settings, r: Runtime, a: B.Step): Runtime
    requires Asking(r) && r.sending.Some? && SinkStep(c, r, r.sending.value.sink, a)
  {
    r.(sinks := Stepped(c, r, r.sending.value.sink, a),
       system := E.Offered(r.system, 0, E.Answer(a.PutValue?, a.PutValue?)))
  }

  /** The window handler: it may take effect and still report a failure. */
  function Persisted(c: Settings, r: Runtime, i: nat, p: nat, ok: bool, applied: bool): Runtime
    requires SinkStep(c, r, i, B.Attempt(p, ok)) && r.sinks[i].bus.lanes.consumers[p].item.id in r.sinks[i].windowOf
    requires i < |r.system.targets|
    requires r.sinks[i].windowOf[r.sinks[i].bus.lanes.consumers[p].item.id].sequence in r.system.history.emitted
  {
    var sequence := r.sinks[i].windowOf[r.sinks[i].bus.lanes.consumers[p].item.id].sequence;
    r.(sinks := Stepped(c, r, i, B.Attempt(p, ok)),
       system := if applied then E.DeliveredOnce(r.system, i, sequence) else r.system)
  }

  function Settled(r: Runtime): Runtime
    requires Emitting(r)
  {
    r.(system := E.Settled(r.system, 0), stage := if r.stage.FinalPublishing? then FinalEmitted else r.stage)
  }

  function Awaited(r: Runtime): Runtime {
    r.(awaited := r.awaited + 1, stage := if r.awaited + 1 == |r.sinks| then SinksDone else r.stage)
  }

  function CommandSent(c: Settings, r: Runtime, partition: nat, command: Command): Runtime
    requires B.Enabled(c.commands, r.commands, B.EnterSend(partition))
  {
    r.(commands := B.Next(c.commands, r.commands, B.EnterSend(partition)),
       commandOf := r.commandOf[r.commands.gate.nextId := command])
  }

  /** The command handler: a reset of the live store, which may take effect and still report a failure; any
      other command fails. */
  function Commanded(c: Settings, r: Runtime, p: nat, ok: bool, applied: bool): Runtime
    requires B.Enabled(c.commands, r.commands, B.Attempt(p, ok)) && r.commands.lanes.consumers[p].item.id in r.commandOf
    requires |r.system.targets| > 0
  {
    var command := r.commandOf[r.commands.lanes.consumers[p].item.id];
    r.(commands := B.Next(c.commands, r.commands, B.Attempt(p, ok)),
       system := if applied then E.ResetOnce(r.system, 0, DeviceScope(command.userID, command.deviceID)) else r.system)
  }

  /** What a reachable state guarantees so that a step makes sense. */
  ghost predicate Defined(c: Settings, r: Runtime, a: Step) {
    && H.Shaped(c.aggregate, r.system.history) && 0 < |r.system.targets| == |r.sinks|
    && (a.Persist? ==> Enabled(c, r, a) ==>
          var id := r.sinks[a.sink].bus.lanes.consumers[a.consumer].item.id;
          r.sinks[a.sink].windowOf[id].sequence in r.system.history.emitted)
  }

  ghost function Next(c: Settings, r: Runtime, a: Step): Runtime
    requires Enabled(c, r, a) && Defined(c, r, a)
  {
    match a
    case AgentSend(partition, batch) => AgentSent(c, r, partition, batch)
    case BatchBus(s) => r.(batches := B.Next(c.batches, r.batches, s))
    case HandleBatch(p) => Handled(c, r, p)
    case EmitTick(selection) => Gathered(c, r, selection)
    case FinalEmit => Gathered(c, r, Everything).(stage := FinalPublishing)
    case SendWindow(partition) => WindowSent(c, r, partition)
    case RefuseEntry => r.(system := E.Offered(r.system, 0, E.Answer(false, false)))
    case PutWindow => WindowAnswered(c, r, B.PutValue(r.sending.value.id))
    case RefuseWindow => WindowAnswered(c, r, B.SeeClosing(r.sending.value.id))
    case CountWindow => r.(sinks := Stepped(c, r, r.sending.value.sink, B.CountPublished(r.sending.value.id)))
    case LeaveWindow =>
      r.(sinks := Stepped(c, r, r.sending.value.sink, B.LeaveSend(r.sending.value.id)), sending := None)
    case ConcludeWindow => r.(system := E.Concluded(r.system, 0))
    case SettleEmit => Settled(r)
    case SinkBus(i, s) => r.(sinks := Stepped(c, r, i, s))
    case Persist(i, p, ok, applied) => Persisted(c, r, i, p, ok, applied)
    case CommandSend(partition, command) => CommandSent(c, r, partition, command)
    case CommandBus(s) => r.(commands := B.Next(c.commands, r.commands, s))
    case HandleCommand(p, ok, applied) => Commanded(c, r, p, ok, applied)
    case StopAgents => r.(stage := AgentsStopped)
    case AwaitConsumers => r.(stage := ConsumersDone)
    case StopEmitter => r.(stage := EmitterStopped)
    case AwaitPersisters => Awaited(r)
    case AwaitCommands => r.(stage := Stopped)
  }

  // ---- The invariant, part by part ----

  function SizeOf(batchOf: map<nat, Batch>, id: nat): nat { if id in batchOf then |batchOf[id].events| else 0 }

  /** The number of events in the batches delivered so far. */
  function DeliveredEvents(batchOf: map<nat, Batch>, finals: seq<B.Final>): nat {
    if finals == [] then 0
    else
      var f := finals[|finals| - 1];
      DeliveredEvents(batchOf, finals[..|finals| - 1]) + if f.delivered then SizeOf(batchOf, f.item.id) else 0
  }

  function Ingested(h: H.History): int { |h.admitted| + h.agg.shed }

  /** The batch side: what was ingested is what was delivered. */
  ghost predicate IngestOk(batchOf: map<nat, Batch>, nextId: nat, finals: seq<B.Final>, ingested: int) {
    && (forall id: nat :: id in batchOf <==> id < nextId)
    && ingested == DeliveredEvents(batchOf, finals)
  }

  ghost predicate TakenFromBus(windowOf: map<nat, AggregateWindow>, enqueued: seq<B.Item>, s: int) {
    exists i :: 0 <= i < |enqueued| && enqueued[i].id in windowOf && windowOf[enqueued[i].id].sequence == s
  }

  /** A target has taken exactly what was put on its window bus, and received what the bus delivered. */
  ghost predicate WindowsOk(
    windowOf: map<nat, AggregateWindow>, nextId: nat, enqueued: seq<B.Item>, finals: seq<B.Final>,
    taken: set<int>, delivered: set<int>)
  {
    && (forall id: nat :: id in windowOf <==> id < nextId)
    && (forall i :: 0 <= i < |enqueued| ==> enqueued[i].id in windowOf && windowOf[enqueued[i].id].sequence in taken)
    && (forall s :: s in taken ==> TakenFromBus(windowOf, enqueued, s))
    && (forall i :: 0 <= i < |finals| && finals[i].delivered ==>
          finals[i].item.id in windowOf && windowOf[finals[i].item.id].sequence in delivered)
  }

  ghost predicate SinkOk(c: B.Config, k: Sink, t: E.Target) {
    && B.Inv(c, k.bus)
    && WindowsOk(k.windowOf, k.bus.gate.nextId, k.bus.lanes.enqueued, k.bus.lanes.finalised, t.taken, t.delivered)
  }

  /** The window side, bus by bus. */
  ghost predicate SinksOk(cs: seq<B.Config>, sinks: seq<Sink>, targets: seq<E.Target>) {
    |cs| == |sinks| == |targets| && forall i :: 0 <= i < |sinks| ==> SinkOk(cs[i], sinks[i], targets[i])
  }

  function SendsAt(sending: Option<Sending>, i: nat): set<nat> {
    if sending.Some? && sending.value.sink == i then {sending.value.id} else {}
  }

  /** The only sends on the window buses are the emitter's. */
  ghost predicate SendsOk(sinks: seq<Sink>, sending: Option<Sending>) {
    && (sending.Some? ==> sending.value.sink < |sinks|)
    && forall i: nat :: i < |sinks| ==> sinks[i].bus.gate.sends.Keys == SendsAt(sending, i)
  }

  /** Every pending emission is in the list of the emit in progress. */
  ghost predicate Covered(pending: map<string, AggregateWindow>, p: E.Call) {
    forall id :: id in pending ==> exists w :: (w in p.rest || w in p.published) && Identity(w) == id
  }

  /** The emitter: one emit at a time, one send at a time; no target has reported an error; what is pending is
      being published. */
  ghost predicate EmitterOk(calls: map<nat, E.Call>, sending: Option<Sending>, pending: map<string, AggregateWindow>) {
    && calls.Keys <= {0}
    && (sending.Some? ==> 0 in calls && calls[0].rest != [])
    && (0 in calls ==> calls[0].clean)
    && (if 0 in calls then Covered(pending, calls[0]) else pending == map[])
  }

  /** A send that has entered carries the window at hand to the target at hand. */
  ghost predicate AtHand(calls: map<nat, E.Call>, sending: Option<Sending>, sinks: seq<Sink>) {
    sending.Some? && sending.value.sink < |sinks| && sending.value.id in sinks[sending.value.sink].bus.gate.sends
      && sinks[sending.value.sink].bus.gate.sends[sending.value.id].phase.Entered? ==>
        && 0 in calls && calls[0].rest != [] && calls[0].asked == sending.value.sink
        && sending.value.id in sinks[sending.value.sink].windowOf
        && sinks[sending.value.sink].windowOf[sending.value.id] == calls[0].rest[0]
  }

  ghost predicate NoneClosed(sinks: seq<Sink>) { forall i :: 0 <= i < |sinks| ==> !sinks[i].bus.gate.closed }

  ghost predicate AllAwaited(sinks: seq<Sink>, awaited: nat) {
    awaited <= |sinks| && forall i :: 0 <= i < awaited ==> B.AllReturned(sinks[i].bus)
  }

  ghost predicate StageOk(
    stage: Stage, awaited: nat, sinks: seq<Sink>, batchesReturned: bool, open: map<WindowKey, WindowState>, idle: bool)
  {
    && AllAwaited(sinks, awaited)
    && (Rank(stage) < Rank(FinalEmitted) ==> NoneClosed(sinks) && awaited == 0)
    && (Rank(stage) >= Rank(ConsumersDone) ==> batchesReturned)
    && (Rank(stage) >= Rank(FinalPublishing) ==> open == map[])
    && (stage.EmitterStopped? || Rank(stage) >= Rank(FinalEmitted) ==> idle)
    && (stage.FinalPublishing? ==> !idle)
    && (stage.FinalEmitted? ==> awaited < |sinks|)
    && (Rank(stage) >= Rank(SinksDone) ==> awaited == |sinks|)
  }

  /** The command side: every send's command is known, none but the live store has been reset, and once stopped
      the command consumers have returned. */
  ghost predicate CommandsOk(
    commandOf: map<nat, Command>, nextId: nat, targets: seq<E.Target>, stopped: bool, commandsReturned: bool)
  {
    && (forall id: nat :: id in commandOf <==> id < nextId)
    && (forall t :: 0 < t < |targets| ==> targets[t].standing == targets[t].delivered)
    && (stopped ==> commandsReturned)
  }

  ghost predicate BatchSide(r: Runtime) {
    IngestOk(r.batchOf, r.batches.gate.nextId, r.batches.lanes.finalised, Ingested(r.system.history))
  }

  ghost predicate EmitSide(r: Runtime) {
    && EmitterOk(r.system.calls, r.sending, r.system.history.agg.pending)
    && SendsOk(r.sinks, r.sending) && AtHand(r.system.calls, r.sending, r.sinks)
  }

  ghost predicate Staged(r: Runtime) {
    StageOk(r.stage, r.awaited, r.sinks, B.AllReturned(r.batches), r.system.history.agg.open, Idle(r))
  }

  ghost predicate CommandSide(r: Runtime) {
    CommandsOk(r.commandOf, r.commands.gate.nextId, r.system.targets, r.stage.Stopped?, B.AllReturned(r.commands))
  }

  ghost predicate Parts(c: Settings, r: Runtime) {
    && ValidSettings(c) && B.Inv(c.batches, r.batches) && E.Inv(c.aggregate, r.system)
    && B.Inv(c.commands, r.commands)
  }

  ghost predicate Inv(c: Settings, r: Runtime) {
    Parts(c, r) && BatchSide(r) && SinksOk(c.sinks, r.sinks, r.system.targets) && EmitSide(r) && Staged(r)
      && CommandSide(r)
  }

  // ---- Sums over batches ----

  lemma {:induction false} DeliveredEventsFresh(batchOf: map<nat, Batch>, finals: seq<B.Final>, id: nat, batch: Batch)
    requires forall i :: 0 <= i < |finals| ==> finals[i].item.id != id
    ensures DeliveredEvents(batchOf[id := batch], finals) == DeliveredEvents(batchOf, finals)
  {
    if finals != [] { DeliveredEventsFresh(batchOf, finals[..|finals| - 1], id, batch); }
  }

  lemma DeliveredEventsAppend(batchOf: map<nat, Batch>, finals: seq<B.Final>, f: B.Final)
    ensures DeliveredEvents(batchOf, finals + [f])
         == DeliveredEvents(batchOf, finals) + if f.delivered then SizeOf(batchOf, f.item.id) else 0
  {
    assert (finals + [f])[..|finals|] == finals;
  }

  // ---- What the bus steps leave alone ----

  /** Consumers that have returned stay returned. */
  lemma ReturnedStays(c: B.Config, b: B.State, a: B.Step)
    requires B.Enabled(c, b, a) && B.AllReturned(b)
    ensures B.AllReturned(B.Next(c, b, a))
  {
  }

  lemma HandlingNotReturned(b: B.State, p: nat)
    requires B.IsConsumer(b.lanes, p) && b.lanes.consumers[p].Handling?
    ensures !B.AllReturned(b)
  {
    assert !b.lanes.consumers[p].Returned?;
  }

  lemma QuietStep(c: B.Config, b: B.State, a: B.Step)
    requires B.Enabled(c, b, a) && !a.EnterSend? && !a.Attempt?
    ensures var b' := B.Next(c, b, a);
            && b'.lanes.finalised == b.lanes.finalised && b'.gate.nextId == b.gate.nextId
            && (!a.PutValue? ==> b'.lanes.enqueued == b.lanes.enqueued)
            && (a.PutValue? ==> b'.lanes.enqueued == b.lanes.enqueued + [B.Item(a.id, b.gate.sends[a.id].partition)])
            && b'.gate.closed == (b.gate.closed || a.BeginClose?)
  {
  }

  lemma AttemptStep(c: B.Config, b: B.State, p: nat, ok: bool)
    requires B.Enabled(c, b, B.Attempt(p, ok))
    ensures var b' := B.Next(c, b, B.Attempt(p, ok));
            && b'.gate == b.gate && b'.lanes.enqueued == b.lanes.enqueued
            && (ok ==> b'.lanes.finalised == b.lanes.finalised + [B.Final(b.lanes.consumers[p].item, true)])
            && (!ok ==> b'.lanes.finalised == b.lanes.finalised
                        || b'.lanes.finalised == b.lanes.finalised + [B.Final(b.lanes.consumers[p].item, false)])
  {
  }

  lemma FinalsKnown(c: B.Config, b: B.State)
    requires B.Inv(c, b)
    ensures forall i :: 0 <= i < |b.lanes.finalised| ==> b.lanes.finalised[i].item.id < b.gate.nextId
    ensures forall i :: 0 <= i < |b.lanes.enqueued| ==> b.lanes.enqueued[i].id < b.gate.nextId
  {
    hide B.Inv;
    forall i | 0 <= i < |b.lanes.finalised|
      ensures b.lanes.finalised[i].item.id < b.gate.nextId
    {
      B.FinalKnown(c, b, i);
    }
    forall i | 0 <= i < |b.lanes.enqueued| ensures b.lanes.enqueued[i].id < b.gate.nextId {
      B.OnRecord(c, b, b.lanes.enqueued[i]);
    }
  }

  // ---- The batch side ----

  lemma AgentSendKeeps(c: Settings, r: Runtime, partition: nat, batch: Batch)
    requires Inv(c, r) && r.stage.Running? && B.Enabled(c.batches, r.batches, B.EnterSend(partition))
    ensures Inv(c, AgentSent(c, r, partition, batch))
  {
    hide B.Inv, E.Inv, B.AllReturned, SinksOk, EmitterOk, SendsOk, AtHand, DeliveredEvents, AllAwaited, NoneClosed;
    B.NextKeeps(c.batches, r.batches, B.EnterSend(partition));
    FinalsKnown(c.batches, r.batches);
    DeliveredEventsFresh(r.batchOf, r.batches.lanes.finalised, r.batches.gate.nextId, batch);
  }

  lemma BatchBusKeeps(c: Settings, r: Runtime, a: B.Step)
    requires Inv(c, r) && BatchStepAllowed(r, a) && B.Enabled(c.batches, r.batches, a)
    ensures Inv(c, r.(batches := B.Next(c.batches, r.batches, a)))
  {
    hide B.Inv, E.Inv, B.AllReturned, B.Next, B.Enabled, SinksOk, EmitterOk, SendsOk, AtHand, IngestOk, AllAwaited;
    hide NoneClosed;
    B.NextKeeps(c.batches, r.batches, a);
    QuietStep(c.batches, r.batches, a);
    if B.AllReturned(r.batches) { ReturnedStays(c.batches, r.batches, a); }
  }

  lemma {:induction false} IngestKeepsPending(c: Config, a: Agg, events: seq<Event>, sketchOk: seq<bool>)
    requires ValidConfig(c) && |sketchOk| == |events| && AllValid(events)
    ensures IngestAll(c, a, events, sketchOk).agg.pending == a.pending
  {
    if events != [] {
      hide WindowID;
      IngestKeepsPending(c, a, events[..|events| - 1], sketchOk[..|events| - 1]);
    }
  }

  /** A valid batch is ingested whole, and pending emissions are untouched. */
  lemma AdmitWhole(c: Config, h: H.History, events: seq<Event>)
    requires ValidConfig(c) && AllValid(events)
    ensures var h' := H.AdmitBatch(c, h, events, Always(|events|));
            Ingested(h') == Ingested(h) + |events| && h'.agg.pending == h.agg.pending
  {
    BatchAccounting(c, h.agg, events, Always(|events|));
    IngestKeepsPending(c, h.agg, events, Always(|events|));
    hide IngestAll;
  }

  /** One handler call adds the batch's events to the delivered ones exactly when it succeeds. */
  lemma AttemptEvents(c: B.Config, b: B.State, batchOf: map<nat, Batch>, p: nat, ok: bool)
    requires B.Enabled(c, b, B.Attempt(p, ok))
    ensures DeliveredEvents(batchOf, B.Next(c, b, B.Attempt(p, ok)).lanes.finalised)
         == DeliveredEvents(batchOf, b.lanes.finalised)
            + if ok then SizeOf(batchOf, b.lanes.consumers[p].item.id) else 0
  {
    hide DeliveredEvents, B.Next;
    AttemptStep(c, b, p, ok);
    DeliveredEventsAppend(batchOf, b.lanes.finalised, B.Final(b.lanes.consumers[p].item, ok));
  }

  lemma HandleBatchKeeps(c: Settings, r: Runtime, p: nat)
    requires B.Enabled(c.batches, r.batches, B.Attempt(p, true)) && r.batches.lanes.consumers[p].item.id in r.batchOf
    requires ValidConfig(c.aggregate) && Inv(c, r)
    ensures Inv(c, Handled(c, r, p))
  {
    hide B.Inv, E.Inv, B.AllReturned, B.Next, SinksOk, EmitterOk, SendsOk, AtHand, DeliveredEvents, H.AdmitBatch;
    hide Ingested, StageOk;
    HandlingNotReturned(r.batches, p);
    var events := r.batchOf[r.batches.lanes.consumers[p].item.id].events;
    var ok := AllValid(events);
    B.NextKeeps(c.batches, r.batches, B.Attempt(p, ok));
    AttemptStep(c.batches, r.batches, p, ok);
    AttemptEvents(c.batches, r.batches, r.batchOf, p, ok);
    if ok {
      E.AcceptKeeps(c.aggregate, r.system, events, Always(|events|));
      AdmitWhole(c.aggregate, r.system.history, events);
    }
    StageBefore(r.stage, r.awaited, r.sinks, r.system.history.agg.open, Handled(c, r, p).system.history.agg.open,
                Idle(r));
  }

  lemma StageBefore(
    stage: Stage, awaited: nat, sinks: seq<Sink>, open: map<WindowKey, WindowState>, open': map<WindowKey, WindowState>,
    idle: bool)
    requires StageOk(stage, awaited, sinks, false, open, idle)
    ensures forall b :: StageOk(stage, awaited, sinks, b, open', idle)
  {
    hide AllAwaited, NoneClosed;
  }

  // ---- The emitter ----

  lemma PendingIdentities(c: Config, h: H.History)
    requires H.Sound(c, h)
    ensures forall id :: id in h.agg.pending ==> Identity(h.agg.pending[id]) == id
  {
    hide H.OpenAgrees, H.EmissionAgrees, H.Placed, Identity;
  }

  /** Whatever is pending after a collection is among the windows it lists. */
  lemma GatherCovers(c: Config, h: H.History, selection: Selection)
    requires H.Sound(c, h) && H.Shaped(c, h) && AlwaysAnswers(c.sketch)
    ensures var r := Collect(c, h.agg, selection);
            !r.failed && Covered(r.agg.pending, E.Call(r.windows, [], 0, true))
  {
    hide EmitKeys, Identity, PendingInOrder, H.Sound, AlwaysAnswers, SelectedInOrder;
    EmitKeysEmpties(c, h.agg, SelectedInOrder(h.agg, selection));
    PendingListed(h.agg.pending);
    PendingIdentities(c, h);
    var r := Collect(c, h.agg, selection);
    forall id | id in r.agg.pending
      ensures exists w :: w in r.windows && Identity(w) == id
    {
      if id in h.agg.pending { assert h.agg.pending[id] in r.windows; }
    }
  }

  lemma GatherAllEmpties(c: Config, a: Agg)
    requires AlwaysAnswers(c.sketch)
    ensures Collect(c, a, Everything).agg.open == map[]
  {
    hide EmitKeys, AlwaysAnswers;
    EmitKeysEmpties(c, a, SelectedInOrder(a, Everything));
    assert Collect(c, a, Everything).agg.open.Keys == {};
  }

  /** A collection with a sketch that always answers lists all that is pending and keeps the accounts. */
  lemma GatherSucceeds(c: Config, s: E.System, selection: Selection)
    requires H.Sound(c, s.history) && H.Shaped(c, s.history) && AlwaysAnswers(c.sketch)
    ensures var q := E.Gathered(c, s, 0, selection);
            && 0 in q.calls && q.calls.Keys == s.calls.Keys + {0} && q.calls[0].clean
            && q.targets == s.targets
            && Ingested(q.history) == Ingested(s.history)
            && Covered(q.history.agg.pending, q.calls[0])
            && (selection.Everything? ==> q.history.agg.open == map[])
  {
    hide EmitKeys, H.EmitKeysIn, H.Sound, AlwaysAnswers, Covered, SelectedInOrder;
    var keys := SelectedInOrder(s.history.agg, selection);
    H.EmitKeysAgree(c, s.history, keys);
    EmitKeysEmpties(c, s.history.agg, keys);
    GatherCovers(c, s.history, selection);
    if selection.Everything? { GatherAllEmpties(c, s.history.agg); }
  }

  lemma SystemSound(c: Config, s: E.System)
    requires E.Inv(c, s)
    ensures H.Sound(c, s.history) && H.Shaped(c, s.history)
  {
    hide E.StoreAgrees, E.CallAgrees;
  }

  lemma GatherKeeps(c: Settings, r: Runtime, selection: Selection)
    requires Inv(c, r) && Idle(r) && Rank(r.stage) < Rank(FinalPublishing) && H.Shaped(c.aggregate, r.system.history)
    requires r.stage.EmitterStopped? ==> selection.Everything?
    ensures var r' := Gathered(c, r, selection);
            Inv(c, if r.stage.EmitterStopped? then r'.(stage := FinalPublishing) else r')
  {
    hide B.Inv, E.Inv, B.AllReturned, SinksOk, SendsOk, IngestOk, E.Gathered, Covered, Ingested, H.Sound, H.Shaped;
    hide AlwaysAnswers;
    hide AllAwaited, NoneClosed;
    SystemSound(c.aggregate, r.system);
    E.GatherKeeps(c.aggregate, r.system, 0, selection);
    GatherSucceeds(c.aggregate, r.system, selection);
    var q := E.Gathered(c.aggregate, r.system, 0, selection);
    assert r.sending.None?;
    assert EmitterOk(q.calls, r.sending, q.history.agg.pending);
  }

  // ---- The window buses ----

  lemma WindowsFresh(
    windowOf: map<nat, AggregateWindow>, nextId: nat, enqueued: seq<B.Item>, finals: seq<B.Final>,
    taken: set<int>, delivered: set<int>, w: AggregateWindow)
    requires WindowsOk(windowOf, nextId, enqueued, finals, taken, delivered)
    requires forall i :: 0 <= i < |enqueued| ==> enqueued[i].id < nextId
    requires forall i :: 0 <= i < |finals| ==> finals[i].item.id < nextId
    ensures WindowsOk(windowOf[nextId := w], nextId + 1, enqueued, finals, taken, delivered)
  {
    forall s | s in taken
      ensures TakenFromBus(windowOf[nextId := w], enqueued, s)
    {
      assert TakenFromBus(windowOf, enqueued, s);
    }
  }

  lemma WindowsPut(
    windowOf: map<nat, AggregateWindow>, nextId: nat, enqueued: seq<B.Item>, finals: seq<B.Final>,
    taken: set<int>, delivered: set<int>, item: B.Item)
    requires WindowsOk(windowOf, nextId, enqueued, finals, taken, delivered) && item.id in windowOf
    ensures WindowsOk(windowOf, nextId, enqueued + [item], finals, taken + {windowOf[item.id].sequence}, delivered)
  {
    var more := enqueued + [item];
    assert more[|enqueued|] == item;
    forall s | s in taken + {windowOf[item.id].sequence} ensures TakenFromBus(windowOf, more, s) {
      if s in taken {
        assert TakenFromBus(windowOf, enqueued, s);
        var i :| 0 <= i < |enqueued| && enqueued[i].id in windowOf && windowOf[enqueued[i].id].sequence == s;
        assert more[i] == enqueued[i];
      }
    }
  }

  lemma WindowsDelivered(
    windowOf: map<nat, AggregateWindow>, nextId: nat, enqueued: seq<B.Item>, finals: seq<B.Final>,
    taken: set<int>, delivered: set<int>, finals': seq<B.Final>, delivered': set<int>, f: B.Final)
    requires WindowsOk(windowOf, nextId, enqueued, finals, taken, delivered) && delivered <= delivered'
    requires finals' == finals || finals' == finals + [f]
    requires f.delivered ==> f.item.id in windowOf && windowOf[f.item.id].sequence in delivered'
    ensures WindowsOk(windowOf, nextId, enqueued, finals', taken, delivered')
  {
  }

  /** Changing one sink and its target. */
  lemma SinksUpdate(
    cs: seq<B.Config>, sinks: seq<Sink>, targets: seq<E.Target>, i: nat, k: Sink, targets': seq<E.Target>)
    requires SinksOk(cs, sinks, targets) && i < |sinks| && |targets'| == |targets| && SinkOk(cs[i], k, targets'[i])
    requires forall j :: 0 <= j < |targets| && j != i ==>
              targets'[j].taken == targets[j].taken && targets'[j].delivered == targets[j].delivered
    ensures SinksOk(cs, sinks[i := k], targets')
  {
    hide B.Inv, WindowsOk;
  }

  lemma SendsUpdate(sinks: seq<Sink>, sending: Option<Sending>, sending': Option<Sending>, i: nat, k: Sink)
    requires SendsOk(sinks, sending) && i < |sinks| && k.bus.gate.sends.Keys == SendsAt(sending', i)
    requires forall j: nat :: j != i ==> SendsAt(sending', j) == SendsAt(sending, j)
    requires sending'.Some? ==> sending'.value.sink < |sinks|
    ensures SendsOk(sinks[i := k], sending')
  {
  }

  /** A bus step leaves the stage alone if it closes nothing it should not and its consumers stay returned. */
  lemma StageUpdate(r: Runtime, i: nat, k: Sink)
    requires Staged(r) && i < |r.sinks|
    requires k.bus.gate.closed == r.sinks[i].bus.gate.closed || !(Rank(r.stage) < Rank(FinalEmitted))
    requires B.AllReturned(r.sinks[i].bus) ==> B.AllReturned(k.bus)
    ensures StageOk(r.stage, r.awaited, r.sinks[i := k], B.AllReturned(r.batches), r.system.history.agg.open, Idle(r))
  {
    hide B.AllReturned;
  }

  lemma SameReturned(b: B.State, b': B.State)
    requires b'.lanes == b.lanes
    ensures B.AllReturned(b') == B.AllReturned(b)
  {
  }

  lemma SendWindowKeeps(c: Settings, r: Runtime, partition: nat)
    requires Inv(c, r) && r.sending.None? && Asking(r)
    requires SinkStep(c, r, r.system.calls[0].asked, B.EnterSend(partition))
    ensures Inv(c, WindowSent(c, r, partition))
  {
    hide B.Inv, E.Inv, B.AllReturned, IngestOk, WindowsOk, Covered, SinksOk, SendsOk, StageOk;
    var i := r.system.calls[0].asked;
    var k, t := r.sinks[i], r.system.targets[i];
    OneSink(c.sinks, r.sinks, r.system.targets, i);
    B.NextKeeps(c.sinks[i], k.bus, B.EnterSend(partition));
    FinalsKnown(c.sinks[i], k.bus);
    var r' := WindowSent(c, r, partition);
    var k' := r'.sinks[i];
    WindowsFresh(k.windowOf, k.bus.gate.nextId, k.bus.lanes.enqueued, k.bus.lanes.finalised, t.taken, t.delivered,
                 r.system.calls[0].rest[0]);
    SinksUpdate(c.sinks, r.sinks, r.system.targets, i, k', r.system.targets);
    NoSends(r.sinks, r.sending, i);
    assert k'.bus.gate.sends.Keys == {k.bus.gate.nextId};
    SendsUpdate(r.sinks, r.sending, r'.sending, i, k');
    SameReturned(k.bus, k'.bus);
    StageUpdate(r, i, k');
  }

  lemma OneSink(cs: seq<B.Config>, sinks: seq<Sink>, targets: seq<E.Target>, i: nat)
    requires SinksOk(cs, sinks, targets) && i < |sinks|
    ensures |cs| == |sinks| == |targets| && SinkOk(cs[i], sinks[i], targets[i])
  {
  }

  lemma NoSends(sinks: seq<Sink>, sending: Option<Sending>, i: nat)
    requires SendsOk(sinks, sending) && i < |sinks|
    ensures sinks[i].bus.gate.sends.Keys == SendsAt(sending, i) && (sending.Some? ==> sending.value.sink < |sinks|)
  {
  }

  lemma OfferOnce(s: E.System)
    requires 0 in s.calls && s.calls[0].rest != [] && s.calls[0].asked < |s.targets|
    ensures var q, i := E.Offered(s, 0, E.Answer(true, true)), s.calls[0].asked;
            && q.history == s.history && q.calls == s.calls[0 := s.calls[0].(asked := i + 1)]
            && |q.targets| == |s.targets|
              && (forall j :: 0 <= j < |s.targets| && j != i ==> q.targets[j] == s.targets[j])
            && q.targets[i].taken == s.targets[i].taken + {s.calls[0].rest[0].sequence}
            && q.targets[i].delivered == s.targets[i].delivered && q.targets[i].standing == s.targets[i].standing
  {
  }

  lemma PutWindowKeeps(c: Settings, r: Runtime)
    requires Inv(c, r) && Asking(r) && r.sending.Some?
    requires SinkStep(c, r, r.sending.value.sink, B.PutValue(r.sending.value.id))
    ensures Inv(c, WindowAnswered(c, r, B.PutValue(r.sending.value.id)))
  {
    hide B.Inv, E.Inv, IngestOk, WindowsOk, Covered, E.Offered, SinksOk, SendsOk, StageOk;
    var i, id := r.sending.value.sink, r.sending.value.id;
    var k, t := r.sinks[i], r.system.targets[i];
    OneSink(c.sinks, r.sinks, r.system.targets, i);
    NoSends(r.sinks, r.sending, i);
    B.NextKeeps(c.sinks[i], k.bus, B.PutValue(id));
    E.OfferKeeps(c.aggregate, r.system, 0, E.Answer(true, true));
    OfferOnce(r.system);
    SameCover(r.system.history.agg.pending, r.system.calls[0]);
    var r' := WindowAnswered(c, r, B.PutValue(id));
    var k' := r'.sinks[i];
    WindowsPut(k.windowOf, k.bus.gate.nextId, k.bus.lanes.enqueued, k.bus.lanes.finalised, t.taken, t.delivered,
               B.Item(id, k.bus.gate.sends[id].partition));
    SinksUpdate(c.sinks, r.sinks, r.system.targets, i, k', r'.system.targets);
    assert k'.bus.gate.sends.Keys == k.bus.gate.sends.Keys;
    SendsUpdate(r.sinks, r.sending, r.sending, i, k');
    if B.AllReturned(k.bus) { ReturnedStays(c.sinks[i], k.bus, B.PutValue(id)); }
    hide B.AllReturned;
    StageUpdate(r, i, k');
    assert Idle(r') == Idle(r) == false;
  }

  lemma SameCover(pending: map<string, AggregateWindow>, p: E.Call)
    requires Covered(pending, p)
    ensures forall asked, clean :: Covered(pending, p.(asked := asked, clean := clean))
  {
    hide Identity;
  }

  /** While an emit is in progress no window bus is closed, so no publication is refused. */
  lemma NeverRefused(c: Settings, r: Runtime)
    requires Inv(c, r) && Asking(r)
    ensures !r.sinks[r.system.calls[0].asked].bus.gate.closed
    ensures r.sending.Some? ==> !SinkStep(c, r, r.sending.value.sink, B.SeeClosing(r.sending.value.id))
  {
    hide B.Inv, E.Inv, B.AllReturned, IngestOk, SinksOk, Covered, AllAwaited;
  }

  lemma CountWindowKeeps(c: Settings, r: Runtime)
    requires Inv(c, r) && r.sending.Some? && SinkStep(c, r, r.sending.value.sink, B.CountPublished(r.sending.value.id))
    ensures Inv(c, r.(sinks := Stepped(c, r, r.sending.value.sink, B.CountPublished(r.sending.value.id))))
  {
    hide B.Inv, E.Inv, B.AllReturned, IngestOk, WindowsOk, Covered, SinksOk, SendsOk, StageOk;
    var i, id := r.sending.value.sink, r.sending.value.id;
    OneSink(c.sinks, r.sinks, r.system.targets, i);
    NoSends(r.sinks, r.sending, i);
    B.NextKeeps(c.sinks[i], r.sinks[i].bus, B.CountPublished(id));
    var k' := Stepped(c, r, i, B.CountPublished(id))[i];
    SinksUpdate(c.sinks, r.sinks, r.system.targets, i, k', r.system.targets);
    assert k'.bus.gate.sends.Keys == {id};
    SendsUpdate(r.sinks, r.sending, r.sending, i, k');
    SameReturned(r.sinks[i].bus, k'.bus);
    StageUpdate(r, i, k');
  }

  lemma LeaveWindowKeeps(c: Settings, r: Runtime)
    requires Inv(c, r) && r.sending.Some? && SinkStep(c, r, r.sending.value.sink, B.LeaveSend(r.sending.value.id))
    ensures Inv(c, r.(sinks := Stepped(c, r, r.sending.value.sink, B.LeaveSend(r.sending.value.id)), sending := None))
  {
    hide B.Inv, E.Inv, B.AllReturned, IngestOk, WindowsOk, Covered, SinksOk, SendsOk, StageOk;
    var i, id := r.sending.value.sink, r.sending.value.id;
    OneSink(c.sinks, r.sinks, r.system.targets, i);
    NoSends(r.sinks, r.sending, i);
    B.NextKeeps(c.sinks[i], r.sinks[i].bus, B.LeaveSend(id));
    var k' := Stepped(c, r, i, B.LeaveSend(id))[i];
    SinksUpdate(c.sinks, r.sinks, r.system.targets, i, k', r.system.targets);
    assert k'.bus.gate.sends.Keys == {};
    SendsUpdate(r.sinks, r.sending, None, i, k');
    SameReturned(r.sinks[i].bus, k'.bus);
    StageUpdate(r, i, k');
  }

  lemma CoveredAfterPublish(pending: map<string, AggregateWindow>, p: E.Call)
    requires p.rest != [] && Covered(pending, p)
    ensures Covered(pending, E.Call(p.rest[1..], p.published + [p.rest[0]], 0, true))
  {
    hide Identity;
    assert p.rest == [p.rest[0]] + p.rest[1..];
  }

  lemma ConcludeKeeps(c: Settings, r: Runtime)
    requires Emitting(r) && r.sending.None? && r.system.calls[0].rest != []
    requires r.system.calls[0].asked == |r.system.targets|
    requires Inv(c, r)
    ensures Inv(c, r.(system := E.Concluded(r.system, 0)))
  {
    hide B.Inv, E.Inv, B.AllReturned, IngestOk, SinksOk, SendsOk, Covered, AllAwaited, NoneClosed;
    E.ConcludeKeeps(c.aggregate, r.system, 0);
    CoveredAfterPublish(r.system.history.agg.pending, r.system.calls[0]);
    var r' := r.(system := E.Concluded(r.system, 0));
    assert r'.system.calls.Keys == r.system.calls.Keys;
    assert 0 in r'.system.calls && 0 in r.system.calls;
  }

  /** Committing everything that was listed leaves nothing pending. */
  lemma SettleClears(a: Agg, p: E.Call)
    requires p.rest == [] && Covered(a.pending, p)
    ensures Commit(a, p.published).pending == map[]
  {
    hide Identity;
    forall id | id in a.pending
      ensures id in (set w | w in p.published :: Identity(w))
    {
      var w :| w in p.published && Identity(w) == id;
    }
    assert Commit(a, p.published).pending.Keys == {};
  }

  lemma SettleKeeps(c: Settings, r: Runtime)
    requires Inv(c, r) && Emitting(r) && r.system.calls[0].rest == [] && r.sending.None?
    ensures Inv(c, Settled(r))
  {
    hide B.Inv, E.Inv, B.AllReturned, IngestOk, SinksOk, SendsOk, Covered, Identity, AllAwaited, NoneClosed;
    E.SettleKeeps(c.aggregate, r.system, 0);
    SettleClears(r.system.history.agg, r.system.calls[0]);
    assert Settled(r).system.calls.Keys == {};
    assert Ingested(Settled(r).system.history) == Ingested(r.system.history);
    assert 0 in r.system.calls;
    AwaitedBelow(c, r);
  }

  lemma AwaitedBelow(c: Settings, r: Runtime)
    requires Inv(c, r)
    ensures |r.sinks| > 0
  {
    hide B.Inv, E.Inv, SinkOk, IngestOk, Covered;
  }

  // ---- Delivering ----

  lemma SendsAlone(c: B.Config, b: B.State, a: B.Step)
    requires B.Enabled(c, b, a)
    requires a.StartConsumer? || a.Take? || a.SeeShutdown? || a.FinishDrain? || a.BeginClose? || a.FinishClose?
    ensures B.Next(c, b, a).gate.sends == b.gate.sends
  {
  }

  lemma SinkBusKeeps(c: Settings, r: Runtime, i: nat, a: B.Step)
    requires Inv(c, r) && SinkStepAllowed(r, i, a) && SinkStep(c, r, i, a)
    ensures Inv(c, r.(sinks := Stepped(c, r, i, a)))
  {
    hide B.Inv, E.Inv, B.AllReturned, IngestOk, WindowsOk, EmitterOk, SinksOk, SendsOk, StageOk, B.Next, B.Enabled;
    var k, k' := r.sinks[i], Stepped(c, r, i, a)[i];
    OneSink(c.sinks, r.sinks, r.system.targets, i);
    B.NextKeeps(c.sinks[i], k.bus, a);
    SendsAlone(c.sinks[i], k.bus, a);
    QuietStep(c.sinks[i], k.bus, a);
    NoSends(r.sinks, r.sending, i);
    SinksUpdate(c.sinks, r.sinks, r.system.targets, i, k', r.system.targets);
    SendsUpdate(r.sinks, r.sending, r.sending, i, k');
    if B.AllReturned(k.bus) { ReturnedStays(c.sinks[i], k.bus, a); }
    StageUpdate(r, i, k');
  }

  /** What a window consumer handles was taken by its target and is an emission on record. */
  lemma HandledTaken(c: Settings, r: Runtime, i: nat, p: nat)
    requires Inv(c, r) && i < |r.sinks| && B.IsConsumer(r.sinks[i].bus.lanes, p)
    requires r.sinks[i].bus.lanes.consumers[p].Handling?
    ensures var id := r.sinks[i].bus.lanes.consumers[p].item.id;
            i < |r.system.targets| && id in r.sinks[i].windowOf
              && r.sinks[i].windowOf[id].sequence in r.system.targets[i].taken
            && r.sinks[i].windowOf[id].sequence in r.system.history.emitted
  {
    hide B.Inv, E.Inv, IngestOk, EmitterOk, StageOk, SinksOk, SendsOk, AtHand;
    OneSink(c.sinks, r.sinks, r.system.targets, i);
    B.HandledKnown(c.sinks[i], r.sinks[i].bus, p);
    TakenEmitted(c.aggregate, r.system, i);
  }

  lemma TakenEmitted(c: Config, s: E.System, i: nat)
    requires E.Inv(c, s) && i < |s.targets|
    ensures s.targets[i].taken <= s.history.emitted.Keys
  {
    assert E.StoreAgrees(s.history, s.targets[i]);
    hide E.CallAgrees;
  }

  lemma AttemptHandles(c: Settings, r: Runtime, i: nat, p: nat, ok: bool)
    requires SinkStep(c, r, i, B.Attempt(p, ok))
    ensures B.IsConsumer(r.sinks[i].bus.lanes, p) && r.sinks[i].bus.lanes.consumers[p].Handling?
  {
  }

  lemma DeliveredCommands(
    commandOf: map<nat, Command>, nextId: nat, s: E.System, i: nat, sequence: int, stopped: bool,
    commandsReturned: bool)
    requires i < |s.targets| && sequence in s.history.emitted
    requires CommandsOk(commandOf, nextId, s.targets, stopped, commandsReturned)
    ensures CommandsOk(commandOf, nextId, E.DeliveredOnce(s, i, sequence).targets, stopped, commandsReturned)
  {
    hide M.Apply;
    if sequence in s.targets[i].delivered { assert s.targets[i].delivered + {sequence} == s.targets[i].delivered; }
  }

  lemma PersistKeeps(c: Settings, r: Runtime, i: nat, p: nat, ok: bool, applied: bool)
    requires SinkStep(c, r, i, B.Attempt(p, ok)) && (ok ==> applied) && i < |r.system.targets|
    requires var id := r.sinks[i].bus.lanes.consumers[p].item.id;
             id in r.sinks[i].windowOf && r.sinks[i].windowOf[id].sequence in r.system.history.emitted
    requires Inv(c, r)
    ensures Inv(c, Persisted(c, r, i, p, ok, applied))
  {
    hide B.Inv, E.Inv, B.AllReturned, IngestOk, WindowsOk, EmitterOk, SinksOk, SendsOk, StageOk, B.Next, M.Apply;
    hide CommandsOk;
    var k := r.sinks[i];
    HandledTaken(c, r, i, p);
    OneSink(c.sinks, r.sinks, r.system.targets, i);
    var item, t := k.bus.lanes.consumers[p].item, r.system.targets[i];
    B.NextKeeps(c.sinks[i], k.bus, B.Attempt(p, ok));
    AttemptStep(c.sinks[i], k.bus, p, ok);
    if applied {
      E.DeliverKeeps(c.aggregate, r.system, i, k.windowOf[item.id].sequence);
      DeliveredCommands(r.commandOf, r.commands.gate.nextId, r.system, i, k.windowOf[item.id].sequence,
                        r.stage.Stopped?, B.AllReturned(r.commands));
    }
    var r' := Persisted(c, r, i, p, ok, applied);
    var k' := r'.sinks[i];
    WindowsDelivered(k.windowOf, k.bus.gate.nextId, k.bus.lanes.enqueued, k.bus.lanes.finalised, t.taken, t.delivered,
                     k'.bus.lanes.finalised, r'.system.targets[i].delivered, B.Final(item, ok));
    SinksUpdate(c.sinks, r.sinks, r.system.targets, i, k', r'.system.targets);
    NoSends(r.sinks, r.sending, i);
    SendsUpdate(r.sinks, r.sending, r.sending, i, k');
    HandlingNotReturned(k.bus, p);
    StageUpdate(r, i, k');
  }

  // ---- Commands ----

  lemma CommandSendKeeps(c: Settings, r: Runtime, partition: nat, command: Command)
    requires Inv(c, r) && command.Valid() && B.Enabled(c.commands, r.commands, B.EnterSend(partition))
    ensures Inv(c, CommandSent(c, r, partition, command))
  {
    hide B.Inv, E.Inv, B.AllReturned, SinksOk, EmitterOk, SendsOk, AtHand, IngestOk, StageOk;
    B.NextKeeps(c.commands, r.commands, B.EnterSend(partition));
    SameReturned(r.commands, CommandSent(c, r, partition, command).commands);
  }

  lemma CommandBusKeeps(c: Settings, r: Runtime, a: B.Step)
    requires Inv(c, r) && CommandStepAllowed(r, a) && B.Enabled(c.commands, r.commands, a)
    ensures Inv(c, r.(commands := B.Next(c.commands, r.commands, a)))
  {
    hide B.Inv, E.Inv, B.AllReturned, B.Next, B.Enabled, SinksOk, EmitterOk, SendsOk, AtHand, IngestOk, StageOk;
    B.NextKeeps(c.commands, r.commands, a);
    QuietStep(c.commands, r.commands, a);
    if B.AllReturned(r.commands) { ReturnedStays(c.commands, r.commands, a); }
  }

  lemma SameSinks(cs: seq<B.Config>, sinks: seq<Sink>, targets: seq<E.Target>, targets': seq<E.Target>)
    requires SinksOk(cs, sinks, targets) && |targets'| == |targets|
    requires forall j :: 0 <= j < |targets| ==>
              targets'[j].taken == targets[j].taken && targets'[j].delivered == targets[j].delivered
    ensures SinksOk(cs, sinks, targets')
  {
    hide B.Inv, WindowsOk;
  }

  lemma HandleCommandKeeps(c: Settings, r: Runtime, p: nat, ok: bool, applied: bool)
    requires B.Enabled(c.commands, r.commands, B.Attempt(p, ok)) && r.commands.lanes.consumers[p].item.id in r.commandOf
    requires |r.system.targets| > 0 && Inv(c, r)
    ensures Inv(c, Commanded(c, r, p, ok, applied))
  {
    hide B.Inv, E.Inv, B.AllReturned, B.Next, SinksOk, EmitterOk, SendsOk, AtHand, IngestOk, StageOk, M.Reset;
    B.NextKeeps(c.commands, r.commands, B.Attempt(p, ok));
    AttemptStep(c.commands, r.commands, p, ok);
    HandlingNotReturned(r.commands, p);
    var r' := Commanded(c, r, p, ok, applied);
    if applied {
      var command := r.commandOf[r.commands.lanes.consumers[p].item.id];
      E.ResetKeeps(c.aggregate, r.system, 0, DeviceScope(command.userID, command.deviceID));
      SameSinks(c.sinks, r.sinks, r.system.targets, r'.system.targets);
    }
  }

  lemma StageKeeps(c: Settings, r: Runtime, a: Step)
    requires Inv(c, r) && Enabled(c, r, a) && Defined(c, r, a)
    requires a.StopAgents? || a.AwaitConsumers? || a.StopEmitter? || a.AwaitPersisters? || a.AwaitCommands?
    ensures Inv(c, Next(c, r, a))
  {
    hide B.Inv, E.Inv, B.AllReturned, IngestOk, SinksOk, EmitterOk, SendsOk, AtHand, NoneClosed;
  }

  // ---- Whole runs ----

  lemma InvShapes(c: Settings, r: Runtime)
    requires Inv(c, r)
    ensures ValidConfig(c.aggregate) && H.Shaped(c.aggregate, r.system.history) && 0 < |r.system.targets| == |r.sinks|
  {
    hide B.Inv, E.Inv, B.AllReturned, IngestOk, SinkOk, EmitterOk;
    SystemSound(c.aggregate, r.system);
  }

  lemma NextKeeps(c: Settings, r: Runtime, a: Step)
    requires Inv(c, r) && Enabled(c, r, a)
    ensures Defined(c, r, a) && Inv(c, Next(c, r, a))
  {
    hide Inv, B.Enabled, H.Shaped, AgentSent, Handled, Gathered, Stepped, WindowSent, WindowAnswered, Settled;
    hide Persisted, Awaited, B.Next, CommandSent, Commanded;
    InvShapes(c, r);
    match a
    case AgentSend(partition, batch) => AgentSendKeeps(c, r, partition, batch);
    case BatchBus(s) => BatchBusKeeps(c, r, s);
    case HandleBatch(p) => HandleBatchKeeps(c, r, p);
    case EmitTick(selection) => GatherKeeps(c, r, selection);
    case FinalEmit => GatherKeeps(c, r, Everything);
    case SendWindow(partition) => SendWindowKeeps(c, r, partition);
    case RefuseEntry => NeverRefused(c, r);
    case PutWindow => PutWindowKeeps(c, r);
    case RefuseWindow => NeverRefused(c, r);
    case CountWindow => CountWindowKeeps(c, r);
    case LeaveWindow => LeaveWindowKeeps(c, r);
    case ConcludeWindow => ConcludeKeeps(c, r);
    case SettleEmit => SettleKeeps(c, r);
    case SinkBus(i, s) => SinkBusKeeps(c, r, i, s);
    case Persist(i, p, ok, applied) =>
      AttemptHandles(c, r, i, p, ok);
      HandledTaken(c, r, i, p);
      PersistKeeps(c, r, i, p, ok, applied);
    case CommandSend(partition, command) => CommandSendKeeps(c, r, partition, command);
    case CommandBus(s) => CommandBusKeeps(c, r, s);
    case HandleCommand(p, ok, applied) => HandleCommandKeeps(c, r, p, ok, applied);
    case StopAgents => StageKeeps(c, r, a);
    case AwaitConsumers => StageKeeps(c, r, a);
    case StopEmitter => StageKeeps(c, r, a);
    case AwaitPersisters => StageKeeps(c, r, a);
    case AwaitCommands => StageKeeps(c, r, a);
  }

  lemma InitHolds(c: Settings, seed: int)
    requires ValidSettings(c)
    ensures Inv(c, Init(c, seed))
  {
    hide B.Inv, E.Inv;
    B.InitHolds(c.batches);
    B.InitHolds(c.commands);
    E.InitHolds(c.aggregate, seed, |c.sinks|);
    var r := Init(c, seed);
    forall i | 0 <= i < |c.sinks|
      ensures SinkOk(c.sinks[i], r.sinks[i], r.system.targets[i])
    {
      B.InitHolds(c.sinks[i]);
    }
  }

  ghost predicate IsRun(c: Settings, seed: int, run: seq<Runtime>, steps: seq<Step>) {
    && ValidSettings(c)
    && |run| == |steps| + 1
    && run[0] == Init(c, seed)
    && forall i :: 0 <= i < |steps| ==>
         Enabled(c, run[i], steps[i]) && (Defined(c, run[i], steps[i]) ==> run[i + 1] == Next(c, run[i], steps[i]))
  }

  lemma {:induction false} RunKeeps(c: Settings, seed: int, run: seq<Runtime>, steps: seq<Step>, n: nat)
    requires IsRun(c, seed, run, steps) && n < |run|
    ensures Inv(c, run[n])
  {
    hide Inv, Enabled, Defined, Next, Init;
    if n == 0 {
      InitHolds(c, seed);
    } else {
      RunKeeps(c, seed, run, steps, n - 1);
      NextKeeps(c, run[n - 1], steps[n - 1]);
    }
  }
}
