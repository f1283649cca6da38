/** The agent's batcher and sender (internal/pipeline) as a machine of atomic steps: the collect loop, one
    step per channel operation of each overflow strategy, and the sender. A batch is named by its place in
    the order of flushing. */
module Pipeline {
  import opened Domain

  datatype Policy = DropOldest | DropNewest | Block

  datatype Config = Config(deviceID: string, maxEvents: nat, queueDepth: nat, policy: Policy)

  predicate ValidConfig(c: Config) { c.deviceID != "" && c.maxEvents > 0 && c.queueDepth > 0 }

  datatype Flush = Flush(ordinal: nat, events: seq<Event>)

  /** Where the collect loop is. */
  datatype Phase =
    | Collecting
    | Offering(batch: Flush)
    | Evicting(batch: Flush)
    | Replacing(batch: Flush, evicted: Flush)
    | Counting(enqueued: bool, lost: seq<Flush>)
    | Returned

  datatype Stats = Stats(
    accepted: nat, rejected: nat, eventsDropped: nat, enqueued: nat, batchesDropped: nat, sent: nat, failures: nat)

  /** The collect loop: what it holds, and everything it accepted and flushed, in order. */
  datatype Loop = Loop(pending: seq<Event>, phase: Phase, closing: bool, accepted: seq<Event>, flushed: seq<seq<Event>>)

  /** The queue and its two ends; what was handed to the transport and what was dropped, in order. */
  datatype Pipe = Pipe(queue: seq<Flush>, closed: bool, sending: bool, handed: seq<Flush>, dropped: seq<Flush>)

  datatype State = State(loop: Loop, pipe: Pipe, stats: Stats, cancelled: bool, done: bool)

  const START :=
    State(Loop([], Collecting, false, [], []), Pipe([], false, false, [], []), Stats(0, 0, 0, 0, 0, 0, 0), false, false)

  datatype Step =
    | Receive(event: Event)
    | Tick
    | Cancel
    | Finish
    | Put
    | FindFull
    | Evict
    | FindEmpty
    | Replace
    | GiveUp
    | Account
    | CloseQueue
    | Take
    | Answer(ok: bool)
    | EndSender

  predicate Acceptable(c: Config, e: Event) { e.Valid() && e.deviceID == c.deviceID }

  predicate Room(c: Config, p: Pipe) { |p.queue| < c.queueDepth }

  predicate Enabled(c: Config, s: State, a: Step) {
    match a
    case Receive(_) => s.loop.phase.Collecting?
    case Tick => s.loop.phase.Collecting?
    case Cancel => !s.cancelled
    case Finish => s.loop.phase.Collecting?
    case Put => s.loop.phase.Offering? && Room(c, s.pipe)
    case FindFull => s.loop.phase.Offering? && !Room(c, s.pipe) && !c.policy.Block?
    case Evict => s.loop.phase.Evicting? && s.pipe.queue != []
    case FindEmpty => s.loop.phase.Evicting? && s.pipe.queue == []
    case Replace => s.loop.phase.Replacing?
    case GiveUp => s.loop.phase.Offering? && c.policy.Block? && s.cancelled
    case Account => s.loop.phase.Counting?
    case CloseQueue => s.loop.phase.Returned? && !s.pipe.closed
    case Take => s.pipe.queue != [] && !s.pipe.sending && !s.done
    case Answer(_) => s.pipe.sending
    case EndSender => s.pipe.closed && s.pipe.queue == [] && !s.pipe.sending && !s.done
  }

  // ---- The collect loop ----

  /** `flush`: an empty batch is not flushed. */
  function BeginFlush(l: Loop): Loop {
    if l.pending == [] then l.(phase := if l.closing then Returned else Collecting)
    else l.(pending := [], phase := Offering(Flush(|l.flushed|, l.pending)), flushed := l.flushed + [l.pending])
  }

  function Accepted(c: Config, l: Loop, e: Event): Loop {
    var more := l.(pending := l.pending + [e], accepted := l.accepted + [e]);
    if |more.pending| >= c.maxEvents then BeginFlush(more) else more
  }

  /** What the strategy reports once it has decided. */
  function Decide(l: Loop, enqueued: bool, lost: seq<Flush>): Loop { l.(phase := Counting(enqueued, lost)) }

  function Enqueue(p: Pipe, batch: Flush): Pipe { p.(queue := p.queue + [batch]) }

  function Lose(p: Pipe, lost: seq<Flush>): Pipe { p.(dropped := p.dropped + lost) }

  function SizeOf(batches: seq<Flush>): nat {
    if batches == [] then 0 else SizeOf(batches[..|batches| - 1]) + |batches[|batches| - 1].events|
  }

  function Tally(t: Stats, enqueued: bool, lost: seq<Flush>): Stats {
    t.(enqueued := t.enqueued + (if enqueued then 1 else 0), batchesDropped := t.batchesDropped + |lost|,
       eventsDropped := t.eventsDropped + SizeOf(lost))
  }

  /** A full queue, as each strategy sees it. */
  function Full(c: Config, s: State): State
    requires s.loop.phase.Offering?
  {
    var batch := s.loop.phase.batch;
    if c.policy.DropOldest? then s.(loop := s.loop.(phase := Evicting(batch)))
    else s.(loop := Decide(s.loop, false, [batch]), pipe := Lose(s.pipe, [batch]))
  }

  /** The second try after an eviction. */
  function Replaced(c: Config, s: State): State
    requires s.loop.phase.Replacing?
  {
    var batch, evicted := s.loop.phase.batch, s.loop.phase.evicted;
    if Room(c, s.pipe) then s.(loop := Decide(s.loop, true, [evicted]), pipe := Lose(Enqueue(s.pipe, batch), [evicted]))
    else s.(loop := Decide(s.loop, false, [evicted, batch]), pipe := Lose(s.pipe, [evicted, batch]))
  }

  function Next(c: Config, s: State, a: Step): State
    requires Enabled(c, s, a)
  {
    match a
    case Receive(e) =>
      if Acceptable(c, e) then s.(loop := Accepted(c, s.loop, e), stats := s.stats.(accepted := s.stats.accepted + 1))
      else s.(stats := s.stats.(rejected := s.stats.rejected + 1))
    case Tick => s.(loop := BeginFlush(s.loop))
    case Cancel => s.(cancelled := true)
    case Finish => s.(loop := BeginFlush(s.loop.(closing := true)))
    case Put => s.(loop := Decide(s.loop, true, []), pipe := Enqueue(s.pipe, s.loop.phase.batch))
    case FindFull => Full(c, s)
    case Evict =>
      s.(loop := s.loop.(phase := Replacing(s.loop.phase.batch, s.pipe.queue[0])),
         pipe := s.pipe.(queue := s.pipe.queue[1..]))
    case FindEmpty =>
      s.(loop := Decide(s.loop, false, [s.loop.phase.batch]), pipe := Lose(s.pipe, [s.loop.phase.batch]))
    case Replace => Replaced(c, s)
    case GiveUp => s.(loop := Decide(s.loop, false, [s.loop.phase.batch]), pipe := Lose(s.pipe, [s.loop.phase.batch]))
    case Account =>
      s.(loop := s.loop.(phase := if s.loop.closing then Returned else Collecting),
         stats := Tally(s.stats, s.loop.phase.enqueued, s.loop.phase.lost))
    case CloseQueue => s.(pipe := s.pipe.(closed := true))
    case Take =>
      s.(pipe := s.pipe.(queue := s.pipe.queue[1..], handed := s.pipe.handed + [s.pipe.queue[0]], sending := true))
    case Answer(ok) =>
      s.(pipe := s.pipe.(sending := false),
         stats := if ok then s.stats.(sent := s.stats.sent + 1) else s.stats.(failures := s.stats.failures + 1))
    case EndSender => s.(done := true)
  }

  // ---- The invariant ----

  function Flat(batches: seq<seq<Event>>): seq<Event> {
    if batches == [] then [] else Flat(batches[..|batches| - 1]) + batches[|batches| - 1]
  }

  /** The batch on its way to the queue, and the one taken out to make room. */
  function Incoming(p: Phase): seq<Flush> {
    match p
    case Offering(batch) => [batch]
    case Evicting(batch) => [batch]
    case Replacing(batch, _) => [batch]
    case _ => []
  }

  function Outgoing(p: Phase): seq<Flush> { if p.Replacing? then [p.evicted] else [] }

  function Uncounted(p: Phase): seq<Flush> { if p.Counting? then p.lost else [] }

  /** The batches not lost, in order of flushing. */
  function Kept(s: State): seq<Flush> { s.pipe.handed + s.pipe.queue + Incoming(s.loop.phase) }

  /** The loop: what was accepted is what was flushed, then what is pending; batches hold 1 to the maximum. */
  ghost predicate LoopOk(c: Config, l: Loop) {
    && Held(c, l.accepted, l.flushed, l.pending)
    && |l.pending| < c.maxEvents
    && (!l.phase.Collecting? ==> l.pending == [])
    && (l.phase.Collecting? ==> !l.closing)
    && (l.phase.Returned? ==> l.closing)
  }

  ghost predicate Held(c: Config, accepted: seq<Event>, flushed: seq<seq<Event>>, pending: seq<Event>) {
    && accepted == Flat(flushed) + pending
    && (forall i :: 0 <= i < |accepted| ==> Acceptable(c, accepted[i]))
    && (forall i :: 0 <= i < |flushed| ==> 1 <= |flushed[i]| <= c.maxEvents)
  }

  function AllOf(flushed: seq<seq<Event>>): (bs: seq<Flush>)
    ensures |bs| == |flushed| && forall k :: 0 <= k < |bs| ==> bs[k] == Flush(k, flushed[k])
  {
    seq(|flushed|, k requires 0 <= k < |flushed| => Flush(k, flushed[k]))
  }

  ghost predicate Ascending(bs: seq<Flush>) { forall i, j :: 0 <= i < j < |bs| ==> bs[i].ordinal < bs[j].ordinal }

  /** Each flushed batch is in exactly one place, and those kept are in order. */
  ghost predicate OrderOk(flushed: seq<seq<Event>>, kept: seq<Flush>, outgoing: seq<Flush>, dropped: seq<Flush>) {
    && multiset(kept) + multiset(outgoing) + multiset(dropped) == multiset(AllOf(flushed))
    && Ascending(kept)
    && SizeOf(kept) + SizeOf(outgoing) + SizeOf(dropped) == |Flat(flushed)|
  }

  ghost predicate StatsOk(c: Config, s: State) {
    && s.stats.accepted == |s.loop.accepted|
    && s.stats.eventsDropped + SizeOf(Uncounted(s.loop.phase)) == SizeOf(s.pipe.dropped)
    && s.stats.batchesDropped + |Uncounted(s.loop.phase)| == |s.pipe.dropped|
    && s.stats.sent + s.stats.failures + (if s.pipe.sending then 1 else 0) == |s.pipe.handed|
  }

  predicate Older(e: Flush, bs: seq<Flush>) { forall i :: 0 <= i < |bs| ==> e.ordinal < bs[i].ordinal }

  /** Room is made, by evicting the oldest, before it is used; only a cancelled run loses anything while
      blocking. */
  ghost predicate PolicyOk(c: Config, s: State) {
    && |s.pipe.queue| <= c.queueDepth
    && (s.loop.phase.Evicting? || s.loop.phase.Replacing? ==> c.policy.DropOldest?)
    && (s.loop.phase.Replacing? ==>
          |s.pipe.queue| < c.queueDepth && Older(s.loop.phase.evicted, s.pipe.queue + [s.loop.phase.batch]))
    && (c.policy.Block? && !s.cancelled ==> s.pipe.dropped == [])
    && (s.pipe.closed ==> s.loop.phase.Returned?)
    && (s.done ==> s.pipe.closed && s.pipe.queue == [] && !s.pipe.sending)
  }

  ghost predicate Inv(c: Config, s: State) {
    && ValidConfig(c) && LoopOk(c, s.loop) && StatsOk(c, s) && PolicyOk(c, s)
    && OrderOk(s.loop.flushed, Kept(s), Outgoing(s.loop.phase), s.pipe.dropped)
  }

  // ---- Order and conservation ----

  lemma {:induction false} SizeOfConcat(a: seq<Flush>, b: seq<Flush>)
    ensures SizeOf(a + b) == SizeOf(a) + SizeOf(b)
  {
    if b == [] {
      assert a + b == a;
    } else {
      assert (a + b)[..|a + b| - 1] == a + b[..|b| - 1];
      SizeOfConcat(a, b[..|b| - 1]);
    }
  }

  lemma SizeOfOne(b: Flush)
    ensures SizeOf([b]) == |b.events|
  {
    assert [b][..0] == [];
  }

  lemma KeptBelow(flushed: seq<seq<Event>>, kept: seq<Flush>, outgoing: seq<Flush>, dropped: seq<Flush>, b: Flush)
    requires OrderOk(flushed, kept, outgoing, dropped) && (b in kept || b in outgoing || b in dropped)
    ensures b.ordinal < |flushed| && flushed[b.ordinal] == b.events
  {
    hide SizeOf, Flat;
    assert b in multiset(kept) || b in multiset(outgoing) || b in multiset(dropped);
    assert b in multiset(AllOf(flushed));
    var k :| 0 <= k < |AllOf(flushed)| && AllOf(flushed)[k] == b;
  }

  /** A new batch goes to the end. */
  lemma OrderAppend(flushed: seq<seq<Event>>, kept: seq<Flush>, dropped: seq<Flush>, events: seq<Event>)
    requires OrderOk(flushed, kept, [], dropped)
    ensures OrderOk(flushed + [events], kept + [Flush(|flushed|, events)], [], dropped)
  {
    hide SizeOf, Flat;
    var b, more := Flush(|flushed|, events), flushed + [events];
    assert AllOf(more) == AllOf(flushed) + [b];
    FlatAppend(flushed, events);
    SizeOfConcat(kept, [b]);
    SizeOfOne(b);
    forall i | 0 <= i < |kept| ensures kept[i].ordinal < |flushed| { KeptBelow(flushed, kept, [], dropped, kept[i]); }
    AscendingAppend(kept, b);
    hide Ascending;
  }

  lemma AscendingAppend(kept: seq<Flush>, b: Flush)
    requires Ascending(kept) && forall i :: 0 <= i < |kept| ==> kept[i].ordinal < b.ordinal
    ensures Ascending(kept + [b])
  {
  }

  lemma AscendingWithout(kept: seq<Flush>, i: nat)
    requires i < |kept| && Ascending(kept)
    ensures Ascending(kept[..i] + kept[i + 1..])
  {
    var rest := kept[..i] + kept[i + 1..];
    assert forall j :: 0 <= j < |rest| ==> rest[j] == kept[if j < i then j else j + 1];
  }

  lemma Without(kept: seq<Flush>, i: nat)
    requires i < |kept|
    ensures var rest := kept[..i] + kept[i + 1..];
            multiset(kept) == multiset(rest) + multiset([kept[i]]) && SizeOf(kept) == SizeOf(rest) + SizeOf([kept[i]])
  {
    hide SizeOf;
    assert kept == kept[..i] + [kept[i]] + kept[i + 1..];
    SizeOfConcat(kept[..i], kept[i + 1..]);
    SizeOfConcat(kept[..i] + [kept[i]], kept[i + 1..]);
    SizeOfConcat(kept[..i], [kept[i]]);
  }

  /** A kept batch is taken out. */
  lemma OrderRemove(flushed: seq<seq<Event>>, kept: seq<Flush>, dropped: seq<Flush>, i: nat)
    requires OrderOk(flushed, kept, [], dropped) && i < |kept|
    ensures OrderOk(flushed, kept[..i] + kept[i + 1..], [kept[i]], dropped)
  {
    assert SizeOf([]) == 0;
    hide Flat, AllOf, SizeOf, Ascending;
    Without(kept, i);
    AscendingWithout(kept, i);
    assert multiset(kept) + multiset([]) + multiset(dropped) == multiset(kept) + multiset(dropped);
  }

  /** What was taken out is dropped. */
  lemma OrderDrop(flushed: seq<seq<Event>>, kept: seq<Flush>, outgoing: seq<Flush>, dropped: seq<Flush>)
    requires OrderOk(flushed, kept, outgoing, dropped)
    ensures OrderOk(flushed, kept, [], dropped + outgoing)
  {
    hide Flat, AllOf;
    SizeOfConcat(dropped, outgoing);
  }

  /** The last batch is dropped. */
  lemma OrderDropLast(flushed: seq<seq<Event>>, kept: seq<Flush>, dropped: seq<Flush>, b: Flush)
    requires OrderOk(flushed, kept + [b], [], dropped)
    ensures OrderOk(flushed, kept, [], dropped + [b])
  {
    hide OrderOk;
    var all := kept + [b];
    OrderRemove(flushed, all, dropped, |kept|);
    assert all[..|kept|] + all[|kept| + 1..] == kept;
    OrderDrop(flushed, kept, [b], dropped);
  }

  // ---- Each step keeps the invariant ----

  lemma FlushHolds(c: Config, l: Loop)
    requires Held(c, l.accepted, l.flushed, l.pending) && l.phase.Collecting? && |l.pending| <= c.maxEvents
    requires c.maxEvents > 0
    ensures LoopOk(c, BeginFlush(l))
  {
    hide Acceptable;
    var l' := BeginFlush(l);
    if l.pending != [] {
      assert l'.flushed[..|l.flushed|] == l.flushed;
      assert Flat(l'.flushed) == Flat(l.flushed) + l.pending;
      assert l'.accepted == Flat(l'.flushed) + l'.pending;
    }
  }

  lemma FlushInOrder(l: Loop, p: Pipe)
    requires OrderOk(l.flushed, p.handed + p.queue + Incoming(l.phase), Outgoing(l.phase), p.dropped)
    requires l.phase.Collecting?
    ensures var l' := BeginFlush(l);
            OrderOk(l'.flushed, p.handed + p.queue + Incoming(l'.phase), Outgoing(l'.phase), p.dropped)
  {
    hide OrderOk;
    assert p.handed + p.queue + [] == p.handed + p.queue;
    if l.pending != [] { OrderAppend(l.flushed, p.handed + p.queue, p.dropped, l.pending); }
  }

  lemma FlushKeeps(c: Config, s: State, l: Loop)
    requires Inv(c, s) && s.loop.phase.Collecting? && l.phase.Collecting?
    requires Held(c, l.accepted, l.flushed, l.pending) && |l.pending| <= c.maxEvents
    requires l.flushed == s.loop.flushed && l.accepted == s.loop.accepted
    ensures Inv(c, s.(loop := BeginFlush(l)))
  {
    hide OrderOk, SizeOf, Held;
    FlushHolds(c, l);
    FlushInOrder(l, s.pipe);
  }

  lemma ReceiveKeeps(c: Config, s: State, e: Event)
    requires Inv(c, s) && s.loop.phase.Collecting?
    ensures Inv(c, Next(c, s, Receive(e)))
  {
    hide OrderOk, SizeOf, Flat, Acceptable;
    if Acceptable(c, e) {
      var l := s.loop.(pending := s.loop.pending + [e], accepted := s.loop.accepted + [e]);
      assert Flat(l.flushed) + s.loop.pending + [e] == Flat(l.flushed) + l.pending;
      assert Held(c, l.accepted, l.flushed, l.pending);
      FlushHolds(c, l);
      FlushInOrder(l, s.pipe);
    }
  }

  lemma LoseLastKeeps(c: Config, s: State, batch: Flush)
    requires Inv(c, s) && Incoming(s.loop.phase) == [batch] && Outgoing(s.loop.phase) == []
    requires s.loop.phase.Offering? || s.loop.phase.Evicting?
    requires c.policy.Block? ==> s.cancelled
    ensures Inv(c, s.(loop := Decide(s.loop, false, [batch]), pipe := Lose(s.pipe, [batch])))
  {
    hide OrderOk, SizeOf, Held;
    OrderDropLast(s.loop.flushed, s.pipe.handed + s.pipe.queue, s.pipe.dropped, batch);
    SizeOfConcat(s.pipe.dropped, [batch]);
    assert s.pipe.handed + s.pipe.queue + [] == s.pipe.handed + s.pipe.queue;
    NoneUncounted();
  }

  lemma NoneUncounted()
    ensures SizeOf([]) == 0
  {
  }

  lemma PutKeeps(c: Config, s: State)
    requires Inv(c, s) && Enabled(c, s, Put)
    ensures Inv(c, Next(c, s, Put))
  {
    hide OrderOk, SizeOf, Held;
    assert Kept(Next(c, s, Put)) == Kept(s);
  }

  lemma EvictKeeps(c: Config, s: State)
    requires Inv(c, s) && Enabled(c, s, Evict)
    ensures Inv(c, Next(c, s, Evict))
  {
    hide OrderOk, SizeOf, Held;
    var n := |s.pipe.handed|;
    OrderRemove(s.loop.flushed, Kept(s), s.pipe.dropped, n);
    assert Kept(s)[n] == s.pipe.queue[0];
    assert Kept(s)[..n] + Kept(s)[n + 1..] == Kept(Next(c, s, Evict));
    HeadIsOldest(s);
  }

  /** The queue is in order, so its head is older than the rest and than the batch on its way. */
  lemma HeadIsOldest(s: State)
    requires OrderOk(s.loop.flushed, Kept(s), Outgoing(s.loop.phase), s.pipe.dropped)
    requires s.loop.phase.Evicting? && s.pipe.queue != []
    ensures Older(s.pipe.queue[0], s.pipe.queue[1..] + [s.loop.phase.batch])
  {
    hide SizeOf, Flat, AllOf;
    var rest, n := s.pipe.queue[1..] + [s.loop.phase.batch], |s.pipe.handed|;
    assert Kept(s)[n] == s.pipe.queue[0];
    assert forall i :: 0 <= i < |rest| ==> rest[i] == Kept(s)[n + 1 + i];
  }

  lemma ReplaceKeeps(c: Config, s: State)
    requires Inv(c, s) && Enabled(c, s, Replace)
    ensures Inv(c, Next(c, s, Replace))
  {
    hide OrderOk, SizeOf, Held;
    var s', evicted := Next(c, s, Replace), s.loop.phase.evicted;
    OrderDrop(s.loop.flushed, Kept(s), [evicted], s.pipe.dropped);
    assert Kept(s') == Kept(s);
    SizeOfConcat(s.pipe.dropped, [evicted]);
    NoneUncounted();
  }

  lemma TakeKeeps(c: Config, s: State)
    requires Inv(c, s) && Enabled(c, s, Take)
    ensures Inv(c, Next(c, s, Take))
  {
    hide OrderOk, SizeOf, Held;
    SameKept(s.pipe.handed, s.pipe.queue, Incoming(s.loop.phase));
    if s.loop.phase.Replacing? { OlderTail(s.loop.phase.evicted, s.pipe.queue, s.loop.phase.batch); }
    hide Older;
  }

  lemma SameKept(handed: seq<Flush>, queue: seq<Flush>, incoming: seq<Flush>)
    requires queue != []
    ensures (handed + [queue[0]]) + queue[1..] + incoming == handed + queue + incoming
  {
    assert queue == [queue[0]] + queue[1..];
  }

  lemma OlderTail(e: Flush, queue: seq<Flush>, b: Flush)
    requires queue != [] && Older(e, queue + [b])
    ensures Older(e, queue[1..] + [b])
  {
    var rest := queue[1..] + [b];
    assert forall i :: 0 <= i < |rest| ==> rest[i] == (queue + [b])[i + 1];
  }

  lemma AccountKeeps(c: Config, s: State)
    requires Inv(c, s) && Enabled(c, s, Account)
    ensures Inv(c, Next(c, s, Account))
  {
    hide OrderOk, SizeOf, Held;
    NoneUncounted();
    assert Kept(Next(c, s, Account)) == Kept(s);
  }

  lemma NextKeeps(c: Config, s: State, a: Step)
    requires Inv(c, s) && Enabled(c, s, a)
    ensures Inv(c, Next(c, s, a))
  {
    hide OrderOk, SizeOf, Held, Acceptable;
    match a
    case Receive(e) => ReceiveKeeps(c, s, e);
    case Tick => FlushKeeps(c, s, s.loop);
    case Finish => FlushKeeps(c, s, s.loop.(closing := true));
    case Put => PutKeeps(c, s);
    case FindFull => if !c.policy.DropOldest? { LoseLastKeeps(c, s, s.loop.phase.batch); }
    case Evict => EvictKeeps(c, s);
    case FindEmpty => LoseLastKeeps(c, s, s.loop.phase.batch);
    case Replace => ReplaceKeeps(c, s);
    case GiveUp => LoseLastKeeps(c, s, s.loop.phase.batch);
    case Account => AccountKeeps(c, s);
    case Take => TakeKeeps(c, s);
    case _ =>
  }

  lemma StartHolds(c: Config)
    requires ValidConfig(c)
    ensures Inv(c, START)
  {
  }

  // ---- Whole runs ----

  ghost predicate IsRun(c: Config, run: seq<State>, steps: seq<Step>) {
    && ValidConfig(c) && |run| == |steps| + 1 && run[0] == START
    && forall i :: 0 <= i < |steps| ==> Enabled(c, run[i], steps[i]) && run[i + 1] == Next(c, run[i], steps[i])
  }

  lemma {:induction false} RunKeeps(c: Config, run: seq<State>, steps: seq<Step>, n: nat)
    requires IsRun(c, run, steps) && n < |run|
    ensures Inv(c, run[n])
  {
    hide Inv, Next, Enabled;
    if n == 0 {
      StartHolds(c);
    } else {
      RunKeeps(c, run, steps, n - 1);
      NextKeeps(c, run[n - 1], steps[n - 1]);
    }
  }

  /** At every moment of every run: accepted events are pending, on their way, queued, dropped or handed
      over. */
  lemma Conservation(c: Config, run: seq<State>, steps: seq<Step>, n: nat)
    requires IsRun(c, run, steps) && n < |run|
    ensures var s := run[n];
            s.stats.accepted == |s.loop.pending| + SizeOf(Incoming(s.loop.phase)) + SizeOf(Outgoing(s.loop.phase))
              + SizeOf(s.pipe.queue) + SizeOf(s.pipe.dropped) + SizeOf(s.pipe.handed)
    ensures var s := run[n];
            multiset(s.pipe.handed) + multiset(s.pipe.queue) + multiset(Incoming(s.loop.phase))
              + multiset(Outgoing(s.loop.phase)) + multiset(s.pipe.dropped) == multiset(AllOf(s.loop.flushed))
  {
    RunKeeps(c, run, steps, n);
    hide IsRun, SizeOf, AllOf, Acceptable;
    var s := run[n];
    SizeOfConcat(s.pipe.handed + s.pipe.queue, Incoming(s.loop.phase));
    SizeOfConcat(s.pipe.handed, s.pipe.queue);
  }

  /** In every run, what is handed over: batches flushed from the accepted stream, in order, each of 1 to
      the maximum number of valid events of this device. */
  lemma HandedInOrder(c: Config, run: seq<State>, steps: seq<Step>, n: nat, i: nat)
    requires IsRun(c, run, steps) && n < |run| && i < |run[n].pipe.handed|
    ensures var s := run[n]; var b := s.pipe.handed[i];
            && s.loop.accepted == Flat(s.loop.flushed) + s.loop.pending
            && b.ordinal < |s.loop.flushed| && s.loop.flushed[b.ordinal] == b.events
            && 1 <= |b.events| <= c.maxEvents
            && (forall j :: 0 <= j < i ==> s.pipe.handed[j].ordinal < b.ordinal)
            && (forall k :: 0 <= k < |b.events| ==> Acceptable(c, b.events[k]))
  {
    RunKeeps(c, run, steps, n);
    hide IsRun, SizeOf, AllOf, Acceptable;
    var s := run[n];
    var b := s.pipe.handed[i];
    assert Kept(s)[i] == b;
    assert forall j :: 0 <= j < i ==> Kept(s)[j] == s.pipe.handed[j];
    KeptBelow(s.loop.flushed, Kept(s), Outgoing(s.loop.phase), s.pipe.dropped, b);
    forall k | 0 <= k < |b.events| ensures Acceptable(c, b.events[k]) {
      var at := InFlat(s.loop.flushed, b.ordinal, k);
      assert s.loop.accepted[at] == b.events[k];
    }
  }

  /** Where an event of a batch stands in the stream. */
  lemma {:induction false} InFlat(batches: seq<seq<Event>>, i: nat, k: nat) returns (at: nat)
    requires i < |batches| && k < |batches[i]|
    ensures at < |Flat(batches)| && Flat(batches)[at] == batches[i][k]
  {
    var last := |batches| - 1;
    if i == last { at := |Flat(batches[..last])| + k; } else { at := InFlat(batches[..last], i, k); }
  }

  lemma SameCount(a: seq<Flush>, b: seq<Flush>, all: seq<Flush>)
    requires multiset(a) + multiset([]) + multiset([]) + multiset([]) + multiset(b) == multiset(all)
    ensures |a| + |b| == |all|
  {
    assert multiset(a) + multiset([]) + multiset([]) + multiset([]) + multiset(b) == multiset(a + b);
    assert |a + b| == |multiset(a + b)| == |multiset(all)| == |all|;
  }

  /** When `Run` returns: accepted is dropped plus handed over, and every batch handed over was sent or
      counted as a failure. */
  lemma RunAccounts(c: Config, run: seq<State>, steps: seq<Step>, n: nat)
    requires IsRun(c, run, steps) && n < |run| && run[n].done
    ensures var s := run[n];
            && s.stats.accepted == s.stats.eventsDropped + SizeOf(s.pipe.handed)
            && s.stats.sent + s.stats.failures == |s.pipe.handed|
            && |s.loop.flushed| == s.stats.batchesDropped + |s.pipe.handed|
  {
    hide IsRun, AllOf, Acceptable, Held, OrderOk, Flat;
    RunKeeps(c, run, steps, n);
    Conservation(c, run, steps, n);
    var s := run[n];
    SameCount(s.pipe.handed, s.pipe.dropped, AllOf(s.loop.flushed));
  }

  /** A blocking batcher that is not cancelled loses nothing. */
  lemma BlockingLosesNothing(c: Config, run: seq<State>, steps: seq<Step>, n: nat)
    requires IsRun(c, run, steps) && n < |run| && c.policy.Block? && !run[n].cancelled
    ensures run[n].pipe.dropped == [] && run[n].stats.eventsDropped == 0
    ensures run[n].done ==> run[n].stats.accepted == SizeOf(run[n].pipe.handed)
  {
    RunKeeps(c, run, steps, n);
    if run[n].done { RunAccounts(c, run, steps, n); }
    hide IsRun, OrderOk, Held;
  }

  /** A blocking batcher loses a batch in exactly those steps in which it gives up on a cancelled run, and may
      do so whenever it has a batch to offer, room in the queue or not. */
  lemma BlockingLosesByGivingUp(c: Config, run: seq<State>, steps: seq<Step>, n: nat)
    requires IsRun(c, run, steps) && n < |steps| && c.policy.Block?
    ensures run[n + 1].pipe.dropped != run[n].pipe.dropped <==> steps[n].GiveUp?
    ensures Enabled(c, run[n], GiveUp) <==> run[n].cancelled && run[n].loop.phase.Offering?
  {
    RunKeeps(c, run, steps, n);
    BlockingPhases(c, run[n]);
    hide Inv;
    LosesByGivingUp(c, run[n], steps[n]);
  }

  lemma BlockingPhases(c: Config, s: State)
    requires Inv(c, s) && c.policy.Block?
    ensures !s.loop.phase.Evicting? && !s.loop.phase.Replacing?
  {
    hide OrderOk, Held;
  }

  lemma LosesByGivingUp(c: Config, s: State, a: Step)
    requires Enabled(c, s, a) && c.policy.Block? && !s.loop.phase.Evicting? && !s.loop.phase.Replacing?
    ensures Next(c, s, a).pipe.dropped != s.pipe.dropped <==> a.GiveUp?
    ensures Enabled(c, s, GiveUp) <==> s.cancelled && s.loop.phase.Offering?
  {
    hide Tally, Acceptable, BeginFlush, Accepted;
    if a.GiveUp? { assert |Next(c, s, a).pipe.dropped| == |s.pipe.dropped| + 1; }
  }

  /** A run that ends with a lost batch, and cancelled or not. */
  ghost predicate LosingRun(c: Config, run: seq<State>, steps: seq<Step>, cancelled: bool) {
    IsRun(c, run, steps) && run[|steps|].cancelled == cancelled && run[|steps|].pipe.dropped != []
  }

  ghost predicate CanLose(c: Config, cancelled: bool) { exists run, steps :: LosingRun(c, run, steps, cancelled) }

  /** The shortest ways to lose a batch, with the queue empty throughout. */
  function LosingSteps(c: Config, e: Event): seq<Step> {
    if c.maxEvents == 1 then [Cancel, Receive(e), GiveUp] else [Receive(e), Cancel, Finish, GiveUp]
  }

  lemma CancelledLoses(c: Config, e: Event) returns (run: seq<State>)
    requires ValidConfig(c) && c.policy.Block? && Acceptable(c, e)
    ensures LosingRun(c, run, LosingSteps(c, e), true)
    ensures forall i :: 0 <= i < |run| ==> run[i].pipe.queue == [] && Room(c, run[i].pipe)
    ensures run[|run| - 1].pipe.dropped == [Flush(0, [e])] && run[|run| - 1].loop.accepted == [e]
  {
    var steps := LosingSteps(c, e);
    var s1 := Next(c, START, steps[0]);
    var s2 := Next(c, s1, steps[1]);
    var s3 := Next(c, s2, steps[2]);
    run := if c.maxEvents == 1 then [START, s1, s2, s3] else [START, s1, s2, s3, Next(c, s3, GiveUp)];
    var last := run[|run| - 1];
    assert last.loop.accepted == [] + [e] == [e];
    assert last.pipe.dropped == [] + [Flush(0, [] + [e])] && [] + [e] == [e];
  }

  /** For every blocking configuration a batch can be lost in a run that has been cancelled, and in no other. */
  lemma BlockingLosesIffCancelled(c: Config, cancelled: bool)
    requires ValidConfig(c) && c.policy.Block?
    ensures CanLose(c, cancelled) <==> cancelled
  {
    hide LosingRun;
    if CanLose(c, cancelled) {
      var run, steps :| LosingRun(c, run, steps, cancelled);
      LosersAreCancelled(c, run, steps, cancelled);
    }
    var e := Event(c.deviceID, "user", 0, "", 0, At(0), 0, 0, false);
    var run := CancelledLoses(c, e);
  }

  lemma LosersAreCancelled(c: Config, run: seq<State>, steps: seq<Step>, cancelled: bool)
    requires LosingRun(c, run, steps, cancelled) && c.policy.Block?
    ensures cancelled
  {
    hide Next, Enabled;
    if !cancelled { BlockingLosesNothing(c, run, steps, |steps|); }
  }

  /** What one step of each policy loses. Drop-newest loses the batch on offer, to a full queue only. Drop-oldest
      loses the oldest of the queue, in the very step that puts the batch on offer behind the rest; it loses the
      batch on offer only if the queue has emptied meanwhile. */
  ghost predicate LosesAsMeant(c: Config, s: State, a: Step, s': State) {
    match c.policy
    case DropNewest =>
      if s'.pipe.dropped == s.pipe.dropped then true
      else
        && a.FindFull? && |s.pipe.queue| >= c.queueDepth
        && Lost(s, s', Incoming(s.loop.phase)) && s'.pipe.queue == s.pipe.queue
    case DropOldest =>
      if s'.pipe.dropped == s.pipe.dropped then true
      else if a.Replace? then
        Lost(s, s', Outgoing(s.loop.phase)) && s'.pipe.queue == s.pipe.queue + Incoming(s.loop.phase)
      else a.FindEmpty? && s.pipe.queue == [] && Lost(s, s', Incoming(s.loop.phase))
    case Block => s'.pipe.dropped == s.pipe.dropped || (a.GiveUp? && s.cancelled && Lost(s, s', Incoming(s.loop.phase)))
  }

  predicate Lost(s: State, s': State, lost: seq<Flush>) { |lost| == 1 && s'.pipe.dropped == s.pipe.dropped + lost }

  lemma LossByPolicy(c: Config, run: seq<State>, steps: seq<Step>, n: nat)
    requires IsRun(c, run, steps) && n < |steps|
    ensures LosesAsMeant(c, run[n], steps[n], run[n + 1])
    ensures c.policy.DropOldest? && steps[n].FindFull? ==> run[n + 1].loop.phase == Evicting(run[n].loop.phase.batch)
    ensures steps[n].Evict? ==>
              run[n].pipe.queue != [] && Outgoing(run[n + 1].loop.phase) == [run[n].pipe.queue[0]]
              && Incoming(run[n + 1].loop.phase) == Incoming(run[n].loop.phase)
  {
    RunKeeps(c, run, steps, n);
    PolicyPhases(c, run[n]);
    hide Inv;
    StepLoses(c, run[n], steps[n]);
  }

  lemma PolicyPhases(c: Config, s: State)
    requires Inv(c, s)
    ensures s.loop.phase.Evicting? || s.loop.phase.Replacing? ==> c.policy.DropOldest?
    ensures s.loop.phase.Replacing? ==> Room(c, s.pipe)
  {
    hide OrderOk, Held;
  }

  lemma StepLoses(c: Config, s: State, a: Step)
    requires Enabled(c, s, a)
    requires s.loop.phase.Evicting? || s.loop.phase.Replacing? ==> c.policy.DropOldest?
    requires s.loop.phase.Replacing? ==> Room(c, s.pipe)
    ensures LosesAsMeant(c, s, a, Next(c, s, a))
    ensures c.policy.DropOldest? && a.FindFull? ==> Next(c, s, a).loop.phase == Evicting(s.loop.phase.batch)
    ensures a.Evict? ==>
              s.pipe.queue != [] && Outgoing(Next(c, s, a).loop.phase) == [s.pipe.queue[0]]
              && Incoming(Next(c, s, a).loop.phase) == Incoming(s.loop.phase)
  {
    hide Tally, Acceptable, BeginFlush, Accepted;
  }

  /** What drop-oldest evicts is older than all that stays; and with one producer an eviction always makes
      room for the new batch. */
  lemma EvictsTheOldest(c: Config, run: seq<State>, steps: seq<Step>, n: nat)
    requires IsRun(c, run, steps) && n < |run| && run[n].loop.phase.Replacing?
    ensures c.policy.DropOldest? && Room(c, run[n].pipe)
    ensures Older(run[n].loop.phase.evicted, run[n].pipe.queue + [run[n].loop.phase.batch])
  {
    RunKeeps(c, run, steps, n);
  }

  // ---- The object ----

  /** What the collect loop's `select` can yield before the source closes. */
  datatype Input = Arrival(event: Event) | FlushTick

  function Admitted(c: Config, inputs: seq<Input>): seq<Event> {
    if inputs == [] then []
    else
      var last := |inputs| - 1;
      Admitted(c, inputs[..last])
        + if inputs[last].Arrival? && Acceptable(c, inputs[last].event) then [inputs[last].event] else []
  }

  function Arrivals(inputs: seq<Input>): nat {
    if inputs == [] then 0 else Arrivals(inputs[..|inputs| - 1]) + if inputs[|inputs| - 1].Arrival? then 1 else 0
  }

  /** The batches cut so far, and what is pending. */
  datatype Cut = Cut(flushes: seq<seq<Event>>, pending: seq<Event>)

  function CutHere(cut: Cut): Cut {
    if cut.pending == [] then cut else Cut(cut.flushes + [cut.pending], [])
  }

  /** How the accepted events are cut into batches: at the maximum, and at every tick. */
  function Batched(c: Config, inputs: seq<Input>): Cut {
    if inputs == [] then Cut([], [])
    else
      var cut, input := Batched(c, inputs[..|inputs| - 1]), inputs[|inputs| - 1];
      if input.FlushTick? then CutHere(cut)
      else if !Acceptable(c, input.event) then cut
      else if |cut.pending| + 1 < c.maxEvents then cut.(pending := cut.pending + [input.event])
      else Cut(cut.flushes + [cut.pending + [input.event]], [])
  }

  /** What the loop has read in a run. */
  function InputsOf(steps: seq<Step>): seq<Input> {
    if steps == [] then []
    else
      var a := steps[|steps| - 1];
      InputsOf(steps[..|steps| - 1])
        + match a case Receive(e) => [Arrival(e)] case Tick => [FlushTick] case _ => []
  }

  /** The loop has cut what it read at the maximum and at every tick, and at the end the rest. */
  ghost predicate CutAsRead(c: Config, l: Loop, inputs: seq<Input>) {
    var cut := Batched(c, inputs);
    if l.closing then l.flushed == CutHere(cut).flushes && l.pending == []
    else l.flushed == cut.flushes && l.pending == cut.pending
  }

  lemma CutStep(c: Config, s: State, a: Step, inputs: seq<Input>)
    requires ValidConfig(c) && LoopOk(c, s.loop) && Enabled(c, s, a) && CutAsRead(c, s.loop, inputs)
    ensures CutAsRead(c, Next(c, s, a).loop,
                      inputs + match a case Receive(e) => [Arrival(e)] case Tick => [FlushTick] case _ => [])
  {
    hide Acceptable, Tally, Held;
    if a.Receive? || a.Tick? {
      var input := if a.Tick? then FlushTick else Arrival(a.event);
      assert (inputs + [input])[..|inputs|] == inputs;
    } else {
      assert inputs + [] == inputs;
    }
  }

  /** So in every run: what was flushed and what is pending are the cut of what was read. */
  lemma {:induction false} RunBatches(c: Config, run: seq<State>, steps: seq<Step>, n: nat)
    requires IsRun(c, run, steps) && n < |run|
    ensures CutAsRead(c, run[n].loop, InputsOf(steps[..n]))
  {
    if n > 0 {
      RunBatches(c, run, steps, n - 1);
      RunKeeps(c, run, steps, n - 1);
      LoopHolds(c, run[n - 1]);
      hide Inv, LoopOk, CutAsRead, Next, Enabled;
      assert steps[..n][..n - 1] == steps[..n - 1];
      CutStep(c, run[n - 1], steps[n - 1], InputsOf(steps[..n - 1]));
    } else {
      assert steps[..0] == [];
    }
  }

  lemma LoopHolds(c: Config, s: State)
    requires Inv(c, s)
    ensures LoopOk(c, s.loop)
  {
    hide OrderOk, Held;
  }

  class Batcher {
    const config: Config
    var accepted: nat
    var rejected: nat

    constructor (config: Config)
      requires ValidConfig(config)
      ensures this.config == config && accepted == 0 && rejected == 0
    {
      this.config, accepted, rejected := config, 0, 0;
    }

    method Accept(event: Event) returns (ok: bool)
      modifies this
      ensures ok == Acceptable(config, event)
      ensures accepted == old(accepted) + (if ok then 1 else 0) && rejected == old(rejected) + (if ok then 0 else 1)
    {
      if !event.Valid() {
        rejected := rejected + 1;
        return false;
      }
      if event.deviceID != config.deviceID {
        rejected := rejected + 1;
        return false;
      }
      accepted := accepted + 1;
      return true;
    }

    /** The collect loop up to the close of the source, and the batches it flushes: all that was accepted,
        in order, in batches of 1 to the maximum. */
    method Collect(inputs: seq<Input>) returns (flushes: seq<seq<Event>>)
      requires ValidConfig(config)
      modifies this
      ensures flushes == CutHere(Batched(config, inputs)).flushes
      ensures Flat(flushes) == Admitted(config, inputs)
      ensures forall i :: 0 <= i < |flushes| ==> 1 <= |flushes[i]| <= config.maxEvents
      ensures accepted == old(accepted) + |Admitted(config, inputs)|
      ensures accepted + rejected == old(accepted) + old(rejected) + Arrivals(inputs)
    {
      hide Acceptable, Flat, Admitted, Arrivals;
      NothingRead(config);
      flushes := [];
      var pending: seq<Event> := [];
      assert inputs[..0] == [];
      for n := 0 to |inputs|
        invariant Batched(config, inputs[..n]) == Cut(flushes, pending)
        invariant Flat(flushes) + pending == Admitted(config, inputs[..n]) && |pending| < config.maxEvents
        invariant forall i :: 0 <= i < |flushes| ==> 1 <= |flushes[i]| <= config.maxEvents
        invariant accepted == old(accepted) + |Admitted(config, inputs[..n])|
        invariant accepted + rejected == old(accepted) + old(rejected) + Arrivals(inputs[..n])
      {
        OneRead(config, inputs, n);
        assert inputs[..n + 1][..n] == inputs[..n];
        var due := inputs[n].FlushTick?;
        if inputs[n].Arrival? {
          var ok := Accept(inputs[n].event);
          if ok { pending := pending + [inputs[n].event]; }
          due := ok && |pending| >= config.maxEvents;
        }
        assert Flat(flushes) + pending == Admitted(config, inputs[..n + 1]);
        if due && |pending| > 0 {
          FlatAppend(flushes, pending);
          flushes, pending := flushes + [pending], [];
        }
      }
      assert inputs[..|inputs|] == inputs;
      if pending != [] {
        FlatAppend(flushes, pending);
        flushes := flushes + [pending];
      }
    }
  }

  lemma NothingRead(c: Config)
    ensures Flat([]) == [] && Admitted(c, []) == [] && Arrivals([]) == 0
  {
  }

  lemma OneRead(c: Config, inputs: seq<Input>, n: nat)
    requires n < |inputs|
    ensures Admitted(c, inputs[..n + 1])
         == Admitted(c, inputs[..n])
            + (if inputs[n].Arrival? && Acceptable(c, inputs[n].event) then [inputs[n].event] else [])
    ensures Arrivals(inputs[..n + 1]) == Arrivals(inputs[..n]) + if inputs[n].Arrival? then 1 else 0
  {
    assert inputs[..n + 1][..n] == inputs[..n];
  }

  lemma FlatAppend(batches: seq<seq<Event>>, events: seq<Event>)
    ensures Flat(batches + [events]) == Flat(batches) + events
  {
    assert (batches + [events])[..|batches|] == batches;
  }
}
