/** That `Stop` returns (internal/app/runtime.go:290-324): from every reachable state of the runtime, every
    schedule that brings only finitely many more agent sends, commands and ticks is finite and ends in the
    stopped stage. */
module Stopping {
  import opened DecimalText
  import B = Bus
  import E = ExactlyOnce
  import S = Shutdown

  /** The steps that bring new work from outside: an agent's send, a command, and the ticker. */
  predicate External(a: S.Step) { a.AgentSend? || a.CommandSend? || a.EmitTick? }

  /** A sender giving up on its context is not something `Stop` can count on. */
  predicate Voluntary(a: S.Step) {
    !External(a) && !(a.BatchBus? && a.batchStep.CancelSend?) && !(a.CommandBus? && a.commandStep.CancelSend?)
  }

  ghost predicate Moves(c: S.Settings, r: S.Runtime, a: S.Step) { Voluntary(a) && S.Enabled(c, r, a) }

  // ---- Some step is enabled ----

  /** A consumer that has not returned can move if something waits for it or the bus has shut down. */
  lemma ConsumerMoves(c: B.Config, b: B.State, p: nat)
    requires B.Inv(c, b) && p < c.partitions
    requires (b.lanes.queues[p] != [] || (b.gate.shutdown && !b.lanes.consumers[p].Returned?))
    ensures B.IsConsumer(b.lanes, p)
    ensures b.lanes.consumers[p].Handling? || B.Enabled(c, b, B.StartConsumer(p)) || B.Enabled(c, b, B.Take(p))
         || B.Enabled(c, b, B.SeeShutdown(p)) || B.Enabled(c, b, B.FinishDrain(p))
  {
    hide B.Flow, B.RecordOk, B.GateOk, B.CountsOk;
    assert B.ConsumerOk(b.lanes, b.gate.shutdown, p);
  }

  lemma BatchConsumerMoves(c: S.Settings, r: S.Runtime, p: nat)
    requires S.Inv(c, r) && p < c.batches.partitions && p < |r.batches.lanes.queues| && p < |r.batches.lanes.consumers|
    requires r.batches.lanes.queues[p] != [] || (r.batches.gate.shutdown && !r.batches.lanes.consumers[p].Returned?)
    ensures exists a :: Moves(c, r, a)
  {
    hide B.Inv, E.Inv, B.AllReturned, S.SinksOk, S.EmitterOk, S.SendsOk, S.AtHand, S.StageOk, S.DeliveredEvents;
    ConsumerMoves(c.batches, r.batches, p);
    if r.batches.lanes.consumers[p].Handling? {
      B.HandledKnown(c.batches, r.batches, p);
      assert Moves(c, r, S.HandleBatch(p));
    } else if B.Enabled(c.batches, r.batches, B.StartConsumer(p)) {
      assert Moves(c, r, S.BatchBus(B.StartConsumer(p)));
    } else if B.Enabled(c.batches, r.batches, B.Take(p)) {
      assert Moves(c, r, S.BatchBus(B.Take(p)));
    } else if B.Enabled(c.batches, r.batches, B.SeeShutdown(p)) {
      assert Moves(c, r, S.BatchBus(B.SeeShutdown(p)));
    } else {
      assert Moves(c, r, S.BatchBus(B.FinishDrain(p)));
    }
  }

  lemma SinkConsumerMoves(c: S.Settings, r: S.Runtime, i: nat, p: nat)
    requires S.Inv(c, r) && i < |r.sinks| && i < |c.sinks| && p < c.sinks[i].partitions
    requires p < |r.sinks[i].bus.lanes.queues| && p < |r.sinks[i].bus.lanes.consumers|
    requires r.sinks[i].bus.lanes.queues[p] != []
          || (r.sinks[i].bus.gate.shutdown && !r.sinks[i].bus.lanes.consumers[p].Returned?)
    ensures exists a :: Moves(c, r, a)
  {
    hide B.Inv, E.Inv, B.AllReturned, S.SinksOk, S.EmitterOk, S.SendsOk, S.AtHand, S.StageOk, S.IngestOk, S.WindowsOk;
    S.OneSink(c.sinks, r.sinks, r.system.targets, i);
    ConsumerMoves(c.sinks[i], r.sinks[i].bus, p);
    if r.sinks[i].bus.lanes.consumers[p].Handling? {
      S.HandledTaken(c, r, i, p);
      assert Moves(c, r, S.Persist(i, p, false, false));
    } else if B.Enabled(c.sinks[i], r.sinks[i].bus, B.StartConsumer(p)) {
      assert Moves(c, r, S.SinkBus(i, B.StartConsumer(p)));
    } else if B.Enabled(c.sinks[i], r.sinks[i].bus, B.Take(p)) {
      assert Moves(c, r, S.SinkBus(i, B.Take(p)));
    } else if B.Enabled(c.sinks[i], r.sinks[i].bus, B.SeeShutdown(p)) {
      assert Moves(c, r, S.SinkBus(i, B.SeeShutdown(p)));
    } else {
      assert Moves(c, r, S.SinkBus(i, B.FinishDrain(p)));
    }
  }

  lemma Shapes(c: B.Config, b: B.State)
    requires B.Inv(c, b)
    ensures B.ValidConfig(c) && |b.lanes.queues| == |b.lanes.consumers| == c.partitions
    ensures forall id :: id in b.gate.sends ==> b.gate.sends[id].partition < c.partitions
  {
    hide B.Flow, B.RecordOk, B.ConsumerOk, B.CountsOk;
  }

  /** A batch send in progress can move, or its partition is full and the consumer there can. */
  lemma BatchSendMoves(c: S.Settings, r: S.Runtime, id: nat)
    requires S.Inv(c, r) && id in r.batches.gate.sends
    ensures exists a :: Moves(c, r, a)
  {
    hide B.Inv, E.Inv, B.AllReturned, S.SinksOk, S.EmitterOk, S.SendsOk, S.AtHand, S.StageOk, S.IngestOk;
    Shapes(c.batches, r.batches);
    match r.batches.gate.sends[id].phase
    case Entered =>
      var p := r.batches.gate.sends[id].partition;
      if r.batches.lanes.queues[p] == [] {
        assert Moves(c, r, S.BatchBus(B.PutValue(id)));
      } else {
        BatchConsumerMoves(c, r, p);
      }
    case Put => assert Moves(c, r, S.BatchBus(B.CountPublished(id)));
    case Counted => assert Moves(c, r, S.BatchBus(B.LeaveSend(id)));
    case Refused => assert Moves(c, r, S.BatchBus(B.LeaveSend(id)));
  }

  lemma CloseMoves(c: S.Settings, r: S.Runtime)
    requires S.Inv(c, r) && r.stage.AgentsStopped?
    ensures exists a :: Moves(c, r, a)
  {
    hide B.Inv, E.Inv, S.SinksOk, S.EmitterOk, S.SendsOk, S.AtHand, S.StageOk, S.IngestOk;
    Shapes(c.batches, r.batches);
    if !r.batches.gate.closed {
      assert Moves(c, r, S.BatchBus(B.BeginClose));
    } else if id :| id in r.batches.gate.sends {
      BatchSendMoves(c, r, id);
    } else if !r.batches.gate.shutdown {
      B.CloseProgresses(c.batches, r.batches);
      assert Moves(c, r, S.BatchBus(B.FinishClose));
    } else if B.AllReturned(r.batches) {
      assert Moves(c, r, S.AwaitConsumers);
    } else {
      var p :| 0 <= p < |r.batches.lanes.consumers| && !r.batches.lanes.consumers[p].Returned?;
      BatchConsumerMoves(c, r, p);
    }
  }

  // ---- The command bus ----

  lemma CommandConsumerMoves(c: S.Settings, r: S.Runtime, p: nat)
    requires S.Inv(c, r) && p < c.commands.partitions && p < |r.commands.lanes.queues|
    requires p < |r.commands.lanes.consumers|
    requires r.commands.lanes.queues[p] != [] || (r.commands.gate.shutdown && !r.commands.lanes.consumers[p].Returned?)
    ensures exists a :: Moves(c, r, a)
  {
    hide B.Inv, E.Inv, B.AllReturned, S.SinksOk, S.EmitterOk, S.SendsOk, S.AtHand, S.StageOk, S.IngestOk;
    ConsumerMoves(c.commands, r.commands, p);
    if r.commands.lanes.consumers[p].Handling? {
      B.HandledKnown(c.commands, r.commands, p);
      assert Moves(c, r, S.HandleCommand(p, false, false));
    } else if B.Enabled(c.commands, r.commands, B.StartConsumer(p)) {
      assert Moves(c, r, S.CommandBus(B.StartConsumer(p)));
    } else if B.Enabled(c.commands, r.commands, B.Take(p)) {
      assert Moves(c, r, S.CommandBus(B.Take(p)));
    } else if B.Enabled(c.commands, r.commands, B.SeeShutdown(p)) {
      assert Moves(c, r, S.CommandBus(B.SeeShutdown(p)));
    } else {
      assert Moves(c, r, S.CommandBus(B.FinishDrain(p)));
    }
  }

  lemma CommandMoves(c: S.Settings, r: S.Runtime)
    requires S.Inv(c, r) && r.stage.SinksDone?
    ensures exists a :: Moves(c, r, a)
  {
    hide B.Inv, E.Inv, S.SinksOk, S.EmitterOk, S.SendsOk, S.AtHand, S.StageOk, S.IngestOk;
    Shapes(c.commands, r.commands);
    if !r.commands.gate.closed {
      assert Moves(c, r, S.CommandBus(B.BeginClose));
    } else if id :| id in r.commands.gate.sends {
      match r.commands.gate.sends[id].phase
      case Entered => assert Moves(c, r, S.CommandBus(B.SeeClosing(id)));
      case Put => assert Moves(c, r, S.CommandBus(B.CountPublished(id)));
      case Counted => assert Moves(c, r, S.CommandBus(B.LeaveSend(id)));
      case Refused => assert Moves(c, r, S.CommandBus(B.LeaveSend(id)));
    } else if !r.commands.gate.shutdown {
      B.CloseProgresses(c.commands, r.commands);
      assert Moves(c, r, S.CommandBus(B.FinishClose));
    } else if B.AllReturned(r.commands) {
      assert Moves(c, r, S.AwaitCommands);
    } else {
      var p :| 0 <= p < |r.commands.lanes.consumers| && !r.commands.lanes.consumers[p].Returned?;
      CommandConsumerMoves(c, r, p);
    }
  }

  // ---- The emitter and the window buses ----

  /** What is known of an emit in progress. */
  lemma EmitShape(c: S.Settings, r: S.Runtime)
    requires S.Inv(c, r) && S.Emitting(r)
    ensures |c.sinks| == |r.sinks| == |r.system.targets| && r.system.calls[0].asked <= |r.sinks|
    ensures S.NoneClosed(r.sinks) && r.system.calls.Keys == {0}
    ensures r.sending.Some? ==> r.sending.value.sink < |r.sinks|
  {
    hide B.Inv, B.AllReturned, S.SinkOk, S.AtHand, S.IngestOk, S.Covered, S.NoneClosed, S.AllAwaited;
    assert E.CallAgrees(r.system, r.system.calls[0]);
    hide E.Inv, E.CallAgrees;
    assert !S.Idle(r);
  }

  /** The emitter's send in progress can move, or its partition is full and the consumer there can. */
  lemma WindowSendMoves(c: S.Settings, r: S.Runtime)
    requires S.Inv(c, r) && S.Emitting(r) && r.sending.Some?
    ensures exists a :: Moves(c, r, a)
  {
    hide B.Inv, E.Inv, B.AllReturned, S.SinksOk, S.EmitterOk, S.SendsOk, S.StageOk, S.IngestOk, S.WindowsOk;
    EmitShape(c, r);
    var i, id := r.sending.value.sink, r.sending.value.id;
    S.NoSends(r.sinks, r.sending, i);
    S.OneSink(c.sinks, r.sinks, r.system.targets, i);
    Shapes(c.sinks[i], r.sinks[i].bus);
    assert id in r.sinks[i].bus.gate.sends.Keys;
    match r.sinks[i].bus.gate.sends[id].phase
    case Entered =>
      var p := r.sinks[i].bus.gate.sends[id].partition;
      if r.sinks[i].bus.lanes.queues[p] == [] {
        assert Moves(c, r, S.PutWindow);
      } else {
        SinkConsumerMoves(c, r, i, p);
      }
    case Put => assert Moves(c, r, S.CountWindow);
    case Counted => assert Moves(c, r, S.LeaveWindow);
    case Refused => assert Moves(c, r, S.LeaveWindow);
  }

  lemma EmitMoves(c: S.Settings, r: S.Runtime)
    requires S.Inv(c, r) && S.Emitting(r)
    ensures exists a :: Moves(c, r, a)
  {
    hide B.Inv, E.Inv, B.AllReturned, S.SinksOk, S.EmitterOk, S.SendsOk, S.AtHand, S.StageOk, S.IngestOk, S.WindowsOk;
    EmitShape(c, r);
    if r.sending.Some? {
      WindowSendMoves(c, r);
    } else if r.system.calls[0].rest == [] {
      assert Moves(c, r, S.SettleEmit);
    } else if r.system.calls[0].asked < |r.sinks| {
      var i := r.system.calls[0].asked;
      S.OneSink(c.sinks, r.sinks, r.system.targets, i);
      Shapes(c.sinks[i], r.sinks[i].bus);
      assert !r.sinks[i].bus.gate.closed;
      assert Moves(c, r, S.SendWindow(0));
    } else {
      assert Moves(c, r, S.ConcludeWindow);
    }
  }

  /** What is known once the final emit has been published. */
  lemma FinalShape(c: S.Settings, r: S.Runtime)
    requires S.Inv(c, r) && r.stage.FinalEmitted?
    ensures |c.sinks| == |r.sinks| == |r.system.targets| && r.awaited < |r.sinks|
    ensures r.sinks[r.awaited].bus.gate.sends == map[]
  {
    hide B.Inv, E.Inv, B.AllReturned, S.SinkOk, S.AtHand, S.IngestOk, S.Covered, S.NoneClosed;
    assert r.sinks[r.awaited].bus.gate.sends.Keys == {};
  }

  lemma DrainMoves(c: S.Settings, r: S.Runtime)
    requires S.Inv(c, r) && r.stage.FinalEmitted?
    ensures exists a :: Moves(c, r, a)
  {
    hide B.Inv, E.Inv, S.SinksOk, S.EmitterOk, S.SendsOk, S.AtHand, S.StageOk, S.IngestOk, S.WindowsOk;
    FinalShape(c, r);
    var i := r.awaited;
    var bus := r.sinks[i].bus;
    S.OneSink(c.sinks, r.sinks, r.system.targets, i);
    Shapes(c.sinks[i], bus);
    if !bus.gate.closed {
      assert Moves(c, r, S.SinkBus(i, B.BeginClose));
    } else if !bus.gate.shutdown {
      B.CloseProgresses(c.sinks[i], bus);
      assert Moves(c, r, S.SinkBus(i, B.FinishClose));
    } else if B.AllReturned(bus) {
      assert Moves(c, r, S.AwaitPersisters);
    } else {
      var p :| 0 <= p < |bus.lanes.consumers| && !bus.lanes.consumers[p].Returned?;
      SinkConsumerMoves(c, r, i, p);
    }
  }

  /** No reachable state before the last is stuck: some step that neither brings new work nor cancels a send
      is enabled. */
  lemma Progress(c: S.Settings, r: S.Runtime)
    requires S.Inv(c, r) && !r.stage.Stopped?
    ensures exists a :: Moves(c, r, a)
  {
    hide B.Inv, E.Inv, B.AllReturned, S.SinksOk, S.SendsOk, S.AtHand, S.IngestOk, S.Covered, S.AllAwaited, S.NoneClosed;
    if r.stage.Running? {
      if id :| id in r.batches.gate.sends { BatchSendMoves(c, r, id); } else { assert Moves(c, r, S.StopAgents); }
    } else if r.stage.AgentsStopped? {
      CloseMoves(c, r);
    } else if r.stage.FinalEmitted? {
      DrainMoves(c, r);
    } else if r.stage.SinksDone? {
      CommandMoves(c, r);
    } else if S.Emitting(r) {
      EmitMoves(c, r);
    } else {
      assert S.Idle(r) by { assert r.system.calls.Keys == {}; }
      if r.stage.ConsumersDone? { assert Moves(c, r, S.StopEmitter); } else { assert Moves(c, r, S.FinalEmit); }
    }
  }

  // ---- Every step leaves less to do ----

  /** What a consumer has left to do; the value in its hands may be tried as often as the bus allows. */
  function ConsumerWork(c: B.Config, k: B.Consumer): nat {
    match k
    case NotStarted => 3
    case Waiting => 2
    case Draining => 1
    case Handling(_, attempt, draining) =>
      (if attempt < c.maxAttempts then c.maxAttempts - attempt else 0) + 1 + if draining then 1 else 2
    case Returned => 0
  }

  function QueueWork(c: B.Config, n: nat): nat { if n == 0 then 0 else QueueWork(c, n - 1) + c.maxAttempts + 1 }

  function LaneWork(c: B.Config, l: B.Lanes, n: nat): nat
    requires n <= |l.queues| && n <= |l.consumers|
  {
    if n == 0 then 0 else LaneWork(c, l, n - 1) + ConsumerWork(c, l.consumers[n - 1]) + QueueWork(c, |l.queues[n - 1]|)
  }

  function GateWork(g: B.Gate): nat { (if g.closed then 0 else 1) + if g.shutdown then 0 else 1 }

  function BusWork(c: B.Config, b: B.State): nat {
    if |b.lanes.queues| == |b.lanes.consumers| then LaneWork(c, b.lanes, |b.lanes.queues|) + GateWork(b.gate) else 0
  }

  ghost function InPhases(g: B.Gate, put: bool): set<nat> {
    set id | id in g.sends && (g.sends[id].phase.Entered? || (put && g.sends[id].phase.Put?))
  }

  /** Three steps for a send that has entered, two for one that has put its value, one for one about to leave. */
  ghost function SendWork(g: B.Gate): nat { |g.sends| + |InPhases(g, true)| + |InPhases(g, false)| }

  function SinkWork(cs: seq<B.Config>, sinks: seq<S.Sink>, n: nat): nat
    requires n <= |cs| && n <= |sinks|
  {
    if n == 0 then 0 else SinkWork(cs, sinks, n - 1) + BusWork(cs[n - 1], sinks[n - 1].bus)
  }

  /** Where the emitter's send is, counted down: after the answer it has to count and leave, and then the next
      send enters. */
  function PhaseLeft(sending: Option<S.Sending>, sinks: seq<S.Sink>): nat {
    if sending.None? then 1
    else if sending.value.sink < |sinks| && sending.value.id in sinks[sending.value.sink].bus.gate.sends then
      match sinks[sending.value.sink].bus.gate.sends[sending.value.id].phase
      case Entered => 0
      case Put => 3
      case Counted => 2
      case Refused => 2
    else 0
  }

  /** What is left to do, most significant first: stages, windows to publish, targets to ask, the emitter's send,
      the other sends, and the consumers and closes of all the buses. */
  datatype Left = Left(stage: nat, rest: nat, asked: nat, phase: nat, sends: nat, work: nat)

  predicate Less(a: Left, b: Left) {
    || a.stage < b.stage
    || (a.stage == b.stage && a.rest < b.rest)
    || (a.stage == b.stage && a.rest == b.rest && a.asked < b.asked)
    || (a.stage == b.stage && a.rest == b.rest && a.asked == b.asked && a.phase < b.phase)
    || (a.stage == b.stage && a.rest == b.rest && a.asked == b.asked && a.phase == b.phase && a.sends < b.sends)
    || (a.stage == b.stage && a.rest == b.rest && a.asked == b.asked && a.phase == b.phase && a.sends == b.sends
        && a.work < b.work)
  }

  function StageLeft(stage: S.Stage, awaited: nat, sinks: nat): nat {
    7 - S.Rank(stage) + if awaited <= sinks then sinks - awaited else 0
  }

  function RestLeft(s: E.System): nat { if 0 in s.calls then |s.calls[0].rest| + 1 else 0 }

  function AskedLeft(s: E.System): nat {
    if 0 in s.calls && s.calls[0].asked <= |s.targets| then |s.targets| - s.calls[0].asked else 0
  }

  ghost function LeftOf(c: S.Settings, r: S.Runtime): Left {
    Left(StageLeft(r.stage, r.awaited, |r.sinks|), RestLeft(r.system), AskedLeft(r.system),
         PhaseLeft(r.sending, r.sinks), SendWork(r.batches.gate) + SendWork(r.commands.gate),
         BusWork(c.batches, r.batches) + BusWork(c.commands, r.commands) + SinksWork(c.sinks, r.sinks))
  }

  function SinksWork(cs: seq<B.Config>, sinks: seq<S.Sink>): nat {
    if |cs| == |sinks| then SinkWork(cs, sinks, |sinks|) else 0
  }

  lemma {:induction false} LaneWorkUpdate(c: B.Config, l: B.Lanes, l': B.Lanes, p: nat, n: nat)
    requires n <= |l.queues| == |l'.queues| && n <= |l.consumers| == |l'.consumers| && p < |l.queues|
    requires p < |l.consumers|
    requires forall q: nat :: q != p && q < |l.queues| && q < |l.consumers| ==>
               l'.queues[q] == l.queues[q] && l'.consumers[q] == l.consumers[q]
    ensures LaneWork(c, l', n) - LaneWork(c, l, n)
         == if p < n then ConsumerWork(c, l'.consumers[p]) + QueueWork(c, |l'.queues[p]|)
                          - ConsumerWork(c, l.consumers[p]) - QueueWork(c, |l.queues[p]|) else 0
  {
    hide ConsumerWork, QueueWork;
    if n > 0 { LaneWorkUpdate(c, l, l', p, n - 1); }
  }

  /** A step of a consumer leaves its bus less to do. */
  lemma ConsumerStepLess(c: B.Config, b: B.State, a: B.Step)
    requires B.Enabled(c, b, a) && |b.lanes.queues| == |b.lanes.consumers| && B.ValidConfig(c)
    requires a.StartConsumer? || a.Take? || a.SeeShutdown? || a.FinishDrain? || a.Attempt?
    ensures B.Next(c, b, a).gate == b.gate && BusWork(c, B.Next(c, b, a)) < BusWork(c, b)
  {
    hide LaneWork;
    LaneWorkUpdate(c, b.lanes, B.Next(c, b, a).lanes, a.p, |b.lanes.queues|);
  }

  lemma CloseStepLess(c: B.Config, b: B.State, a: B.Step)
    requires B.Enabled(c, b, a) && |b.lanes.queues| == |b.lanes.consumers| && (a.BeginClose? || a.FinishClose?)
    ensures B.Next(c, b, a).gate.sends == b.gate.sends && BusWork(c, B.Next(c, b, a)) < BusWork(c, b)
  {
  }

  lemma FewerIds(a: set<nat>, b: set<nat>)
    requires a <= b
    ensures |a| <= |b| && (a != b ==> |a| < |b|)
  {
    var d := b - a;
    assert b == a + d;
    if a != b { assert d != {}; }
  }

  /** A step of a send leaves the sends less to do. */
  lemma SendStepLess(c: B.Config, b: B.State, a: B.Step)
    requires B.Enabled(c, b, a)
    requires a.PutValue? || a.CountPublished? || a.SeeClosing? || a.CancelSend? || a.LeaveSend?
    ensures SendWork(B.Next(c, b, a).gate) < SendWork(b.gate)
  {
    var g, g' := b.gate, B.Next(c, b, a).gate;
    FewerIds(g'.sends.Keys, g.sends.Keys);
    FewerIds(InPhases(g', true), InPhases(g, true));
    FewerIds(InPhases(g', false), InPhases(g, false));
    if a.PutValue? {
      assert a.id in InPhases(g, false) && a.id !in InPhases(g', false);
    } else if a.LeaveSend? {
      assert a.id in g.sends.Keys && a.id !in g'.sends.Keys;
    } else {
      assert a.id in InPhases(g, true) && a.id !in InPhases(g', true);
    }
  }

  lemma {:induction false} SinkWorkUpdate(cs: seq<B.Config>, sinks: seq<S.Sink>, i: nat, k: S.Sink, n: nat)
    requires n <= |cs| && n <= |sinks| && i < |sinks| && i < |cs|
    ensures SinkWork(cs, sinks[i := k], n) - SinkWork(cs, sinks, n)
         == if i < n then BusWork(cs[i], k.bus) - BusWork(cs[i], sinks[i].bus) else 0
  {
    hide BusWork;
    if n > 0 { SinkWorkUpdate(cs, sinks, i, k, n - 1); }
  }

  lemma BatchStepLess(c: S.Settings, r: S.Runtime, a: B.Step)
    requires S.Inv(c, r) && S.BatchStepAllowed(r, a) && B.Enabled(c.batches, r.batches, a)
    ensures Less(LeftOf(c, r.(batches := B.Next(c.batches, r.batches, a))), LeftOf(c, r))
  {
    hide S.Inv, B.Inv, B.Next, B.Enabled, BusWork, SendWork, SinksWork, PhaseLeft, RestLeft, AskedLeft, StageLeft;
    InvParts(c, r);
    Shapes(c.batches, r.batches);
    if a.PutValue? || a.CountPublished? || a.SeeClosing? || a.CancelSend? || a.LeaveSend? {
      SendStepLess(c.batches, r.batches, a);
    } else if a.BeginClose? || a.FinishClose? {
      CloseStepLess(c.batches, r.batches, a);
      SameSendWork(r.batches.gate, B.Next(c.batches, r.batches, a).gate);
    } else {
      ConsumerStepLess(c.batches, r.batches, a);
    }
  }

  lemma CommandStepLess(c: S.Settings, r: S.Runtime, a: B.Step)
    requires S.Inv(c, r) && S.CommandStepAllowed(r, a) && B.Enabled(c.commands, r.commands, a)
    ensures Less(LeftOf(c, r.(commands := B.Next(c.commands, r.commands, a))), LeftOf(c, r))
  {
    hide S.Inv, B.Inv, B.Next, B.Enabled, BusWork, SendWork, SinksWork, PhaseLeft, RestLeft, AskedLeft, StageLeft;
    InvParts(c, r);
    Shapes(c.commands, r.commands);
    if a.PutValue? || a.CountPublished? || a.SeeClosing? || a.CancelSend? || a.LeaveSend? {
      SendStepLess(c.commands, r.commands, a);
    } else if a.BeginClose? || a.FinishClose? {
      CloseStepLess(c.commands, r.commands, a);
      SameSendWork(r.commands.gate, B.Next(c.commands, r.commands, a).gate);
    } else {
      ConsumerStepLess(c.commands, r.commands, a);
    }
  }

  lemma SameSendWork(g: B.Gate, g': B.Gate)
    requires g'.sends == g.sends
    ensures SendWork(g') == SendWork(g)
  {
    assert InPhases(g', true) == InPhases(g, true) && InPhases(g', false) == InPhases(g, false);
  }

  lemma InvParts(c: S.Settings, r: S.Runtime)
    requires S.Inv(c, r)
    ensures S.Parts(c, r) && |c.sinks| == |r.sinks| == |r.system.targets| && r.awaited <= |r.sinks|
    ensures forall i :: 0 <= i < |r.sinks| ==> B.Inv(c.sinks[i], r.sinks[i].bus)
  {
    hide B.Inv, E.Inv, B.AllReturned, S.WindowsOk, S.EmitterOk, S.SendsOk, S.AtHand, S.IngestOk;
  }

  lemma HandleLess(c: S.Settings, r: S.Runtime, p: nat)
    requires S.Inv(c, r) && S.Enabled(c, r, S.HandleBatch(p))
    ensures Less(LeftOf(c, S.Handled(c, r, p)), LeftOf(c, r))
  {
    hide S.Inv, B.Inv, E.Inv, B.Next, BusWork, SendWork, SinksWork, PhaseLeft, StageLeft;
    InvParts(c, r);
    Shapes(c.batches, r.batches);
    var ok := S.AllValid(r.batchOf[r.batches.lanes.consumers[p].item.id].events);
    ConsumerStepLess(c.batches, r.batches, B.Attempt(p, ok));
  }

  lemma HandleCommandLess(c: S.Settings, r: S.Runtime, p: nat, ok: bool, applied: bool)
    requires B.Enabled(c.commands, r.commands, B.Attempt(p, ok)) && r.commands.lanes.consumers[p].item.id in r.commandOf
    requires |r.system.targets| > 0 && S.Inv(c, r)
    ensures Less(LeftOf(c, S.Commanded(c, r, p, ok, applied)), LeftOf(c, r))
  {
    hide S.Inv, B.Inv, E.Inv, B.Next, BusWork, SendWork, SinksWork, PhaseLeft, StageLeft;
    InvParts(c, r);
    Shapes(c.commands, r.commands);
    ConsumerStepLess(c.commands, r.commands, B.Attempt(p, ok));
  }

  /** A step of a window consumer, or of a window bus closing. */
  lemma SinkStepLess(c: S.Settings, r: S.Runtime, i: nat, a: B.Step, s: E.System)
    requires S.Inv(c, r) && S.SinkStep(c, r, i, a) && s.calls == r.system.calls && |s.targets| == |r.system.targets|
    requires a.StartConsumer? || a.Take? || a.SeeShutdown? || a.FinishDrain? || a.Attempt? || a.BeginClose?
          || a.FinishClose?
    ensures Less(LeftOf(c, r.(sinks := S.Stepped(c, r, i, a), system := s)), LeftOf(c, r))
  {
    hide S.Inv, B.Inv, E.Inv, B.Next, B.Enabled, BusWork, SendWork, SinkWork;
    InvParts(c, r);
    Shapes(c.sinks[i], r.sinks[i].bus);
    if a.BeginClose? || a.FinishClose? {
      CloseStepLess(c.sinks[i], r.sinks[i].bus, a);
    } else {
      ConsumerStepLess(c.sinks[i], r.sinks[i].bus, a);
    }
    SinkWorkUpdate(c.sinks, r.sinks, i, S.Stepped(c, r, i, a)[i], |r.sinks|);
  }

  /** The emitter's send moves on, with the target's answer when there is one. */
  lemma SendingLess(c: S.Settings, r: S.Runtime, a: S.Step)
    requires S.Inv(c, r) && S.Enabled(c, r, a) && S.Defined(c, r, a)
    requires a.SendWindow? || a.CountWindow? || a.LeaveWindow?
    ensures Less(LeftOf(c, S.Next(c, r, a)), LeftOf(c, r))
  {
    hide S.Inv, B.Inv, E.Inv, BusWork, SendWork, SinksWork, StageLeft, RestLeft, AskedLeft;
    InvParts(c, r);
  }

  lemma AnswerLess(c: S.Settings, r: S.Runtime, a: S.Step)
    requires S.Inv(c, r) && S.Enabled(c, r, a) && S.Defined(c, r, a)
    requires a.RefuseEntry? || a.PutWindow? || a.RefuseWindow?
    ensures Less(LeftOf(c, S.Next(c, r, a)), LeftOf(c, r))
  {
    hide S.Inv, B.Inv, E.Inv, BusWork, SendWork, SinksWork, StageLeft, PhaseLeft, B.Next, B.Enabled;
    InvParts(c, r);
  }

  lemma ConcludeLess(c: S.Settings, r: S.Runtime)
    requires S.Emitting(r) && r.system.calls[0].rest != []
    ensures Less(LeftOf(c, r.(system := E.Concluded(r.system, 0))), LeftOf(c, r))
  {
    hide BusWork, SendWork, SinksWork, PhaseLeft, AskedLeft, StageLeft;
  }

  lemma SettleLess(c: S.Settings, r: S.Runtime)
    requires S.Emitting(r)
    ensures Less(LeftOf(c, S.Settled(r)), LeftOf(c, r))
  {
    hide BusWork, SendWork, SinksWork, PhaseLeft, AskedLeft, E.Settled;
    NoCallAfter(r.system);
  }

  lemma NoCallAfter(s: E.System)
    requires 0 in s.calls
    ensures 0 !in E.Settled(s, 0).calls
  {
  }

  lemma StageStepLess(c: S.Settings, r: S.Runtime, a: S.Step)
    requires S.Inv(c, r) && S.Enabled(c, r, a) && S.Defined(c, r, a)
    requires a.FinalEmit? || a.StopAgents? || a.AwaitConsumers? || a.StopEmitter? || a.AwaitPersisters?
          || a.AwaitCommands?
    ensures Less(LeftOf(c, S.Next(c, r, a)), LeftOf(c, r))
  {
    hide S.Inv, B.Inv, E.Inv, BusWork, SendWork, SinksWork, B.AllReturned, E.Gathered;
    InvParts(c, r);
  }

  /** Every step that brings no new work from outside leaves less to do. */
  lemma StepLess(c: S.Settings, r: S.Runtime, a: S.Step)
    requires S.Inv(c, r) && S.Enabled(c, r, a) && S.Defined(c, r, a) && !External(a)
    ensures Less(LeftOf(c, S.Next(c, r, a)), LeftOf(c, r))
  {
    hide S.Inv, B.Enabled, B.Next, LeftOf, Less;
    match a
    case BatchBus(s) => BatchStepLess(c, r, s);
    case HandleBatch(p) => HandleLess(c, r, p);
    case SinkBus(i, s) => SinkStepLess(c, r, i, s, r.system);
    case Persist(i, p, ok, applied) =>
      SinkStepLess(c, r, i, B.Attempt(p, ok), S.Persisted(c, r, i, p, ok, applied).system);
    case CommandBus(s) => CommandStepLess(c, r, s);
    case HandleCommand(p, ok, applied) => HandleCommandLess(c, r, p, ok, applied);
    case ConcludeWindow => ConcludeLess(c, r);
    case SettleEmit => SettleLess(c, r);
    case _ =>
      if a.FinalEmit? || a.StopAgents? || a.AwaitConsumers? || a.StopEmitter? || a.AwaitPersisters?
         || a.AwaitCommands? {
        StageStepLess(c, r, a);
      } else if a.SendWindow? || a.CountWindow? || a.LeaveWindow? {
        SendingLess(c, r, a);
      } else {
        AnswerLess(c, r, a);
      }
  }

  // ---- Stop returns ----

  /** Whatever is scheduled, with at most `more` further steps of work from outside, the stopped stage is
      reached: it has been, or some step can be taken and it is reached after each that can. */
  least predicate Stops(c: S.Settings, r: S.Runtime, more: nat) {
    || r.stage.Stopped?
    || (&& (exists a :: Moves(c, r, a))
        && (forall a :: S.Enabled(c, r, a) && !External(a) ==> S.Defined(c, r, a) && Stops(c, S.Next(c, r, a), more))
        && (forall a :: S.Enabled(c, r, a) && External(a) && more > 0 ==>
              S.Defined(c, r, a) && Stops(c, S.Next(c, r, a), more - 1)))
  }

  lemma {:induction false} StopReturns(c: S.Settings, r: S.Runtime, more: nat)
    requires S.Inv(c, r)
    ensures Stops(c, r, more)
    decreases more, LeftOf(c, r).stage, LeftOf(c, r).rest, LeftOf(c, r).asked, LeftOf(c, r).phase, LeftOf(c, r).sends,
              LeftOf(c, r).work
  {
    hide S.Inv, S.Enabled, S.Defined, S.Next, LeftOf, Moves, External;
    if !r.stage.Stopped? {
      Progress(c, r);
      forall a | S.Enabled(c, r, a) && !External(a)
        ensures S.Defined(c, r, a) && Stops(c, S.Next(c, r, a), more)
      {
        S.NextKeeps(c, r, a);
        StepLess(c, r, a);
        StopReturns(c, S.Next(c, r, a), more);
      }
      forall a | S.Enabled(c, r, a) && External(a) && more > 0
        ensures S.Defined(c, r, a) && Stops(c, S.Next(c, r, a), more - 1)
      {
        S.NextKeeps(c, r, a);
        StopReturns(c, S.Next(c, r, a), more - 1);
      }
    }
  }

  /** From every state of every run. */
  lemma RunStops(c: S.Settings, seed: int, run: seq<S.Runtime>, steps: seq<S.Step>, n: nat, more: nat)
    requires S.IsRun(c, seed, run, steps) && n < |run|
    ensures Stops(c, run[n], more)
    ensures !run[n].stage.Stopped? ==> exists a :: Moves(c, run[n], a)
  {
    hide S.Inv, S.IsRun, Moves;
    S.RunKeeps(c, seed, run, steps, n);
    StopReturns(c, run[n], more);
    if !run[n].stage.Stopped? { Progress(c, run[n]); }
  }
}
