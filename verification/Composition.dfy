/** Every run of the runtime is a run of the counting machine (internal/app/runtime.go:214-324 against
    internal/aggregator/service.go:54-119): each step makes one of its moves or none. So what holds of every run
    of `ExactlyOnce` holds of the runtime. */
module Composition {
  import opened Aggregation
  import opened DecimalText
  import opened Domain
  import opened Tallies
  import B = Bus
  import E = ExactlyOnce
  import H = AggregatorHistory
  import M = MemoryStore
  import S = Shutdown

  /** The move a step makes. */
  function MoveOf(c: S.Settings, r: S.Runtime, a: S.Step): Option<E.Move> {
    match a
    case HandleBatch(p) =>
      if B.IsConsumer(r.batches.lanes, p) && r.batches.lanes.consumers[p].Handling?
         && r.batches.lanes.consumers[p].item.id in r.batchOf then
        var events := r.batchOf[r.batches.lanes.consumers[p].item.id].events;
        if S.AllValid(events) then Some(E.Accept(events, S.Always(|events|))) else None
      else None
    case EmitTick(selection) => Some(E.Gather(0, selection))
    case FinalEmit => Some(E.Gather(0, Everything))
    case RefuseEntry => Some(E.Offer(0, E.Answer(false, false)))
    case PutWindow => Some(E.Offer(0, E.Answer(true, true)))
    case RefuseWindow => Some(E.Offer(0, E.Answer(false, false)))
    case ConcludeWindow => Some(E.Conclude(0))
    case SettleEmit => Some(E.Settle(0))
    case Persist(i, p, _, applied) =>
      if applied && i < |r.sinks| && B.IsConsumer(r.sinks[i].bus.lanes, p)
        && r.sinks[i].bus.lanes.consumers[p].Handling?
         && r.sinks[i].bus.lanes.consumers[p].item.id in r.sinks[i].windowOf then
        Some(E.DeliverTo(i, r.sinks[i].windowOf[r.sinks[i].bus.lanes.consumers[p].item.id].sequence))
      else None
    case HandleCommand(p, _, applied) =>
      if applied && B.IsConsumer(r.commands.lanes, p) && r.commands.lanes.consumers[p].Handling?
         && r.commands.lanes.consumers[p].item.id in r.commandOf then
        var command := r.commandOf[r.commands.lanes.consumers[p].item.id];
        Some(E.ResetAt(0, DeviceScope(command.userID, command.deviceID)))
      else None
    case _ => None
  }

  /** A step of the runtime as a step of the machine. */
  ghost predicate Makes(c: S.Settings, s: E.System, move: Option<E.Move>, s': E.System) {
    match move
    case None => s' == s
    case Some(m) =>
      && H.Shaped(c.aggregate, s.history) && E.Enabled(s, m) && (m.DeliverTo? ==> m.sequence in s.history.emitted)
      && s' == E.Next(c.aggregate, s, m)
  }

  lemma HandlerMakes(c: S.Settings, r: S.Runtime, a: S.Step)
    requires S.Inv(c, r) && S.Enabled(c, r, a) && S.Defined(c, r, a) && (a.HandleBatch? || a.HandleCommand?)
    ensures Makes(c, r.system, MoveOf(c, r, a), S.Next(c, r, a).system)
  {
    hide S.Inv, H.Shaped, H.AdmitBatch, E.ResetOnce, B.Next;
  }

  lemma PersistMakes(c: S.Settings, r: S.Runtime, a: S.Step)
    requires S.Inv(c, r) && S.Enabled(c, r, a) && S.Defined(c, r, a) && a.Persist?
    ensures Makes(c, r.system, MoveOf(c, r, a), S.Next(c, r, a).system)
  {
    hide S.Inv, H.Shaped, E.DeliveredOnce, B.Next;
    S.HandledTaken(c, r, a.sink, a.consumer);
  }

  lemma EmitterMakes(c: S.Settings, r: S.Runtime, a: S.Step)
    requires S.Enabled(c, r, a) && S.Defined(c, r, a) && !a.HandleBatch? && !a.HandleCommand? && !a.Persist?
    ensures Makes(c, r.system, MoveOf(c, r, a), S.Next(c, r, a).system)
  {
    hide H.Shaped, E.Gathered, E.Offered, E.Concluded, E.Settled, B.Next, B.Enabled;
  }

  lemma StepMakes(c: S.Settings, r: S.Runtime, a: S.Step)
    requires S.Inv(c, r) && S.Enabled(c, r, a) && S.Defined(c, r, a)
    ensures Makes(c, r.system, MoveOf(c, r, a), S.Next(c, r, a).system)
  {
    hide S.Inv, S.Enabled, S.Defined, S.Next, Makes, MoveOf;
    if a.HandleBatch? || a.HandleCommand? {
      HandlerMakes(c, r, a);
    } else if a.Persist? {
      PersistMakes(c, r, a);
    } else {
      EmitterMakes(c, r, a);
    }
  }

  // ---- Whole runs ----

  /** The moves made in the first `n` steps. */
  function MovesOf(c: S.Settings, run: seq<S.Runtime>, steps: seq<S.Step>, n: nat): seq<E.Move>
    requires n <= |steps| && |steps| <= |run|
  {
    if n == 0 then []
    else
      var m := MoveOf(c, run[n - 1], steps[n - 1]);
      MovesOf(c, run, steps, n - 1) + if m.Some? then [m.value] else []
  }

  /** The states of the machine they lead through. */
  function SystemsOf(c: S.Settings, run: seq<S.Runtime>, steps: seq<S.Step>, n: nat): seq<E.System>
    requires n <= |steps| < |run|
  {
    if n == 0 then [run[0].system]
    else
      SystemsOf(c, run, steps, n - 1) + if MoveOf(c, run[n - 1], steps[n - 1]).Some? then [run[n].system] else []
  }

  lemma OneMore(c: Config, seed: int, targets: nat, run: seq<E.System>, moves: seq<E.Move>, m: E.Move)
    requires E.IsRun(c, seed, targets, run, moves)
    requires var s := run[|moves|];
             H.Shaped(c, s.history) && E.Enabled(s, m) && (m.DeliverTo? ==> m.sequence in s.history.emitted)
    ensures E.IsRun(c, seed, targets, run + [E.Next(c, run[|moves|], m)], moves + [m])
  {
    hide E.Next, E.Enabled, H.Shaped, E.Init;
    var run', moves' := run + [E.Next(c, run[|moves|], m)], moves + [m];
    forall i | 0 <= i < |moves'|
      ensures H.Shaped(c, run'[i].history) && E.Enabled(run'[i], moves'[i])
      ensures moves'[i].DeliverTo? ==> moves'[i].sequence in run'[i].history.emitted
      ensures run'[i + 1] == E.Next(c, run'[i], moves'[i])
    {
      if i < |moves| { assert run'[i] == run[i] && run'[i + 1] == run[i + 1] && moves'[i] == moves[i]; }
    }
  }

  /** The refinement: after every step of every run, the moves made are a run of the counting machine that leads
      to the runtime's own counting state. */
  lemma {:induction false} RunRefines(c: S.Settings, seed: int, run: seq<S.Runtime>, steps: seq<S.Step>, n: nat)
    requires S.IsRun(c, seed, run, steps) && n < |run|
    ensures E.IsRun(c.aggregate, seed, |c.sinks|, SystemsOf(c, run, steps, n), MovesOf(c, run, steps, n))
    ensures SystemsOf(c, run, steps, n)[|MovesOf(c, run, steps, n)|] == run[n].system
  {
    hide S.Inv, S.Enabled, S.Defined, S.Next, MoveOf, E.IsRun;
    if n == 0 {
      FirstSystem(c, seed, run[0].system);
    } else {
      RunRefines(c, seed, run, steps, n - 1);
      S.RunKeeps(c, seed, run, steps, n - 1);
      S.NextKeeps(c, run[n - 1], steps[n - 1]);
      StepMakes(c, run[n - 1], steps[n - 1]);
      var before, moves := SystemsOf(c, run, steps, n - 1), MovesOf(c, run, steps, n - 1);
      Extended(c, seed, before, moves, MoveOf(c, run[n - 1], steps[n - 1]), run[n - 1].system, run[n].system);
    }
  }

  lemma FirstSystem(c: S.Settings, seed: int, s: E.System)
    requires S.ValidSettings(c) && s == E.Init(seed, |c.sinks|)
    ensures E.IsRun(c.aggregate, seed, |c.sinks|, [s], [])
  {
  }

  lemma Extended(
    c: S.Settings, seed: int, run: seq<E.System>, moves: seq<E.Move>, move: Option<E.Move>, s: E.System, s': E.System)
    requires E.IsRun(c.aggregate, seed, |c.sinks|, run, moves) && run[|moves|] == s && Makes(c, s, move, s')
    ensures var run' := run + if move.Some? then [s'] else [];
            var moves' := moves + if move.Some? then [move.value] else [];
            E.IsRun(c.aggregate, seed, |c.sinks|, run', moves') && run'[|moves'|] == s'
  {
    var length := |run|;
    assert length == |moves| + 1;
    hide E.IsRun, E.Next, E.Enabled, H.Shaped;
    if move.Some? {
      OneMore(c.aggregate, seed, |c.sinks|, run, moves, move.value);
    } else {
      assert run + [] == run && moves + [] == moves;
    }
  }

  // ---- What resets what ----

  /** Only the live store is ever reset. */
  lemma {:induction false} OnlyLiveReset(c: S.Settings, run: seq<S.Runtime>, steps: seq<S.Step>, n: nat, i: nat)
    requires n <= |steps| <= |run| && i < |MovesOf(c, run, steps, n)| && MovesOf(c, run, steps, n)[i].ResetAt?
    ensures MovesOf(c, run, steps, n)[i].target == 0
  {
    if i < |MovesOf(c, run, steps, n - 1)| {
      hide MoveOf;
      OnlyLiveReset(c, run, steps, n - 1, i);
    }
  }

  // ---- The device law of the runtime ----

  /** In every run, whenever a store has received all it was to receive, each device of each user reads there the
      sums over its admitted events, apart from those that had reached it before the device was reset; in every
      store but the live one, over all of them. */
  lemma DeviceReading(
    c: S.Settings, seed: int, run: seq<S.Runtime>, steps: seq<S.Step>, n: nat, t: nat, userID: string, deviceID: string)
    requires S.IsRun(c, seed, run, steps) && n < |run| && t < |c.sinks|
    requires forall e :: e in run[n].system.history.admitted ==> UsersApart(e.userID, userID)
    ensures var s := run[n].system;
            && t < |s.targets| && |s.history.places| == |s.history.admitted|
            && (E.Drained(s, t) ==>
                  var shown := M.Counters(s.targets[t].store, DeviceScope(userID, deviceID));
                  && shown == Tally(s.history.admitted,
                                    E.OwnSinceReset(s.history, MovesOf(c, run, steps, n), t, userID, deviceID))
                  && (t > 0 ==> shown == Tally(s.history.admitted, E.OwnIds(s.history, userID, deviceID))))
  {
    RunRefines(c, seed, run, steps, n);
    var systems, moves := SystemsOf(c, run, steps, n), MovesOf(c, run, steps, n);
    RunLength(c.aggregate, seed, |c.sinks|, systems, moves);
    hide S.IsRun, E.IsRun, DeviceScope, UsersApart, Tally, M.Counters, E.Drained, SystemsOf, MovesOf, E.OwnSinceReset;
    assert moves[..|moves|] == moves;
    E.EndToEnd(c.aggregate, seed, |c.sinks|, systems, moves, |moves|, t, userID, deviceID);
    if t > 0 {
      forall i | 0 <= i < |moves| ensures moves[i] != E.ResetAt(t, DeviceScope(userID, deviceID)) {
        if moves[i].ResetAt? { OnlyLiveReset(c, run, steps, n, i); }
      }
      E.NeverResetReadsAll(c.aggregate, seed, |c.sinks|, systems, moves, |moves|, t, userID, deviceID);
    }
  }

  lemma RunLength(c: Config, seed: int, targets: nat, run: seq<E.System>, moves: seq<E.Move>)
    requires E.IsRun(c, seed, targets, run, moves)
    ensures |run| == |moves| + 1
  {
  }
}
