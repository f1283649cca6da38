/** The HTTPS transport object (internal/transport/https.go) over the disk spool: one send, and one turn of
    the drain loop, with the edge's answer and the file faults as arguments. */
module Https {
  import opened DecimalText
  import opened SpoolIndex
  import opened SpoolNames
  import opened Transport
  import S = Spool

  class HTTPS {
    const queue: S.Spool?
    var sent: nat
    var spooled: nat
    var drained: nat
    var refused: nat
    var releaseFailed: nat
    var spoolDropped: nat
    var lastDropped: nat

    ghost predicate Ready()
      reads this, queue
    {
      queue != null ==> queue.Valid() && queue.Budgeted()
    }

    constructor (queue: S.Spool?)
      ensures this.queue == queue
      ensures sent == spooled == drained == refused == releaseFailed == spoolDropped == lastDropped == 0
    {
      this.queue := queue;
      sent, spooled, drained, refused, releaseFailed, spoolDropped, lastDropped := 0, 0, 0, 0, 0, 0, 0;
    }

    /** `recordSpoolDrops`. */
    method RecordSpoolDrops()
      requires queue != null
      modifies `spoolDropped, `lastDropped
      ensures lastDropped == queue.dropped && spoolDropped == old(spoolDropped) + Rise(old(lastDropped), queue.dropped)
    {
      var dropped := queue.dropped;
      var delta := dropped - lastDropped;
      lastDropped := dropped;
      if delta > 0 { spoolDropped := spoolDropped + delta; }
    }

    /** `Send`. An accepted batch is sent and a batch refused for good is not spooled; any other goes to the spool,
        if there is one, and the send returns nil exactly when the spool has stored it: behind what is left after
        the fewest evictions that make room. */
    method Send(payload: Payload, status: Option<int>, faults: S.Faults)
      returns (ok: bool, ghost r: S.Result, ghost k: nat)
      requires Ready() && (queue != null ==> queue.InRange())
      modifies this, queue
      ensures Ready() && drained == old(drained) && releaseFailed == old(releaseFailed)
      ensures sent == old(sent) + (if Judge(status).Accepted? then 1 else 0)
      ensures refused == old(refused) + (if Judge(status).Refused? then 1 else 0)
      ensures spooled == old(spooled) + (if Judge(status).Retry? && queue != null then 1 else 0)
      ensures Judge(status).Accepted? ==> ok
      ensures Judge(status).Refused? ==> !ok
      ensures queue == null && Judge(status).Retry? ==> !ok
      ensures !Judge(status).Retry? && queue != null ==>
                && queue.View() == old(queue.View()) && queue.disk == old(queue.disk)
                && queue.dropped == old(queue.dropped) && queue.dropFailures == old(queue.dropFailures)
                && lastDropped == old(lastDropped) && spoolDropped == old(spoolDropped)
      ensures queue != null && Judge(status).Retry? ==>
                && ok == r.Stored? && k <= |old(queue.order)|
                && SpoolAnswers(payload, faults, queue.maxBytes, |old(queue.order)| - k, r)
                && Enqueued(old(queue.View()), queue.View(), payload, k, S.Added(r))
                && (S.Added(r) ==> NewestHolds(queue.order, queue.disk, payload))
                && queue.sequence
                   == old(queue.sequence) + (if r.EmptyPayload? || r.TooLarge? || r.TooMany? then 0 else 1)
                && (k > 0 ==> Total(old(queue.order)[k - 1..], old(queue.sizes)) + |payload| > queue.maxBytes)
                && (r.EmptyPayload? || r.TooLarge? || (r.TooMany? && queue.dropFailures == 0) ==> k == 0)
                && (0 < |payload| <= queue.maxBytes && queue.dropFailures == old(queue.dropFailures) ==>
                      Total(old(queue.order)[k..], old(queue.sizes)) + |payload| <= queue.maxBytes)
                && (faults.stuck == {} ==> queue.dropFailures == old(queue.dropFailures))
                && queue.dropped == old(queue.dropped) + k + (if r.TooLarge? || r.TooMany? then 1 else 0)
                && lastDropped == queue.dropped
                && spoolDropped == old(spoolDropped) + Rise(old(lastDropped), queue.dropped)
    {
      hide IndexOk, Mirrors, Unambiguous, IsEntry, ParseName, Name, Precedes, Total;
      hide S.Stowed, S.SameSizes, S.MaxEntries;
      r, k := S.EmptyPayload, 0;
      match Judge(status) {
        case Accepted =>
          sent := sent + 1;
          return true, r, k;
        case Refused =>
          refused := refused + 1;
          return false, r, k;
        case Retry =>
          if queue == null { return false, r, k; }
          spooled := spooled + 1;
          var result;
          ghost var name;
          result, k, name := queue.Enqueue(payload, faults);
          RecordSpoolDrops();
          return result.Stored?, result, k;
      }
    }

    /** One turn of `Drain`. The oldest entry leaves the spool exactly if it was read, the edge accepted it or
        refused it for good, and its file is not stuck; or if its file had vanished. */
    method DrainOnce(status: Option<int>, readOk: bool, stuck: set<string>)
      requires Ready() && queue != null
      modifies this, queue
      ensures Ready() && queue.dropped == old(queue.dropped)
      ensures var head := old(queue.order) != [] && old(queue.order)[0] in old(queue.disk);
              var done := head && readOk && !Judge(status).Retry?;
              var gone := done && old(queue.order)[0] !in stuck;
              && drained == old(drained) + (if done && Judge(status).Accepted? then 1 else 0)
              && refused == old(refused) + (if done && Judge(status).Refused? then 1 else 0)
              && releaseFailed == old(releaseFailed) + (if done && !gone then 1 else 0)
              && (gone ==>
                    && Dequeued(old(queue.View()), queue.View())
                    && queue.disk == old(queue.disk) - {old(queue.order)[0]})
              && ((old(queue.order) == [] || head) && !gone ==>
                    queue.View() == old(queue.View()) && queue.disk == old(queue.disk))
              && (old(queue.order) != [] && !head ==>
                    queue.order == old(queue.order)[1..] && queue.disk == old(queue.disk))
      ensures sent == old(sent) && spooled == old(spooled)
      ensures lastDropped == old(lastDropped) && spoolDropped == old(spoolDropped)
    {
      hide IndexOk, Mirrors, Holds, Unambiguous, IsEntry, ParseName, Precedes, Total;
      var found := queue.Peek(readOk, stuck);
      if found.None? { return; }
      var verdict := Judge(status);
      if verdict.Retry? { return; }
      var name := found.value.1;
      S.HeadPlain(queue.View());
      var ok := queue.Release(name, stuck);
      if !ok { releaseFailed := releaseFailed + 1; }
      if verdict.Accepted? { drained := drained + 1; } else { refused := refused + 1; }
    }
  }

  /** What an enqueue of a payload answers, `left` entries having stayed. */
  predicate SpoolAnswers(payload: Payload, faults: S.Faults, maxBytes: nat, left: nat, r: S.Result) {
    if payload == [] then r.EmptyPayload?
    else if |payload| > maxBytes then r.TooLarge?
    else if left >= S.MaxEntries(maxBytes) then r.TooMany?
    else r == S.Written(faults)
  }

  /** The first `k` entries have left and the payload, if it was added, has come last under the next numbers. */
  ghost predicate Enqueued(x: Index, x': Index, payload: Payload, k: nat, added: bool) {
    var name := Name(x.enqueued + 1, x.sequence + 1);
    && k <= |x.order| && x'.order == x.order[k..] + (if added then [name] else [])
    && S.SameSizes(x.order[k..], x.sizes, x'.sizes)
    && (added ==> SizeIn(x'.sizes, name) == |payload| && x'.enqueued == x.enqueued + 1 && x'.sequence == x.sequence + 1)
    && (!added ==> x'.enqueued == x.enqueued)
  }

  predicate NewestHolds(order: seq<string>, disk: Disk, payload: Payload) {
    order != [] && order[|order| - 1] in disk && disk[order[|order| - 1]] == payload
  }

  /** The first entry has left. */
  ghost predicate Dequeued(x: Index, x': Index) {
    && x.order != [] && x'.order == x.order[1..] && x'.sizes == x.sizes - {x.order[0]}
    && x'.enqueued == x.enqueued && x'.sequence == x.sequence
  }

  // ---- From an opened spool to a run of the transport ----

  /** The transport's view of a spool just opened: the `i`-th entry carries batch `i`. */
  function QueueOf(x: Index, dropped: nat): Queue {
    var entries := seq(|x.order|, i requires 0 <= i < |x.order| => Entry(x.order[i], i, SizeIn(x.sizes, x.order[i])));
    Queue(entries, x.enqueued, x.sequence, dropped, entries)
  }

  /** Whatever `Open` recovers, a run of the transport can start from it. */
  lemma OpenedSpoolStarts(x: Index, dropped: nat)
    requires IndexOk(x)
    ensures Opened(QueueOf(x, dropped))
  {
    hide IsEntry, ParseName, Total, Precedes, Numbered;
    var q := QueueOf(x, dropped);
    assert forall i :: 0 <= i < |q.entries| ==> q.entries[i].name == x.order[i] && q.entries[i].batch == i;
    forall e | e in q.taken ensures Numbered(e.name, q.enqueued, q.sequence) {
      var i :| 0 <= i < |q.taken| && q.taken[i] == e;
      assert x.order[i] in x.order;
    }
  }

  // ---- The spool takes the transport's steps ----

  ghost predicate Matching(entries: seq<Entry>, order: seq<string>, sizes: map<string, nat>) {
    && |entries| == |order|
    && forall i :: 0 <= i < |order| ==> entries[i].name == order[i] && entries[i].size == SizeIn(sizes, order[i])
  }

  /** The transport's queue is what the spool holds. */
  ghost predicate Shows(q: Queue, x: Index, dropped: nat) {
    && Matching(q.entries, x.order, x.sizes)
    && q.enqueued == x.enqueued && q.sequence == x.sequence && q.dropped == dropped
  }

  lemma {:induction false} BytesAreTotal(entries: seq<Entry>, order: seq<string>, sizes: map<string, nat>)
    requires Matching(entries, order, sizes)
    ensures Bytes(entries) == Total(order, sizes)
  {
    if entries != [] {
      var n := |entries| - 1;
      BytesAreTotal(entries[..n], order[..n], sizes);
      TotalConcat(order[..n], [order[n]], sizes);
      assert order == order[..n] + [order[n]];
      assert Total([order[n]], sizes) == SizeIn(sizes, order[n]) by { assert [order[n]][1..] == []; }
    }
  }

  lemma EvictsAlike(c: Config, entries: seq<Entry>, order: seq<string>, sizes: map<string, nat>, size: nat, k: nat)
    requires Matching(entries, order, sizes) && k <= |order|
    ensures Evicts(c, entries, size, k)
       <==> (&& Total(order[k..], sizes) + size <= c.maxBytes
             && (k > 0 ==> Total(order[k - 1..], sizes) + size > c.maxBytes))
  {
    BytesAreTotal(entries[k..], order[k..], sizes);
    if k > 0 { BytesAreTotal(entries[k - 1..], order[k - 1..], sizes); }
  }

  lemma PutMatches(
    q: Queue, order: seq<string>, sizes: map<string, nat>, sizes': map<string, nat>, k: nat, batch: nat, size: nat)
    requires Matching(q.entries, order, sizes) && k <= |order| && S.SameSizes(order[k..], sizes, sizes')
    requires SizeIn(sizes', Name(q.enqueued + 1, q.sequence + 1)) == size
    ensures Matching(PutIn(q, NewEntry(q, batch, size), k).entries, order[k..] + [Name(q.enqueued + 1, q.sequence + 1)],
                     sizes')
  {
    hide Name, SizeIn;
    forall i | 0 <= i < |order| - k ensures SizeIn(sizes', order[k..][i]) == q.entries[k..][i].size {
      assert order[k..][i] in order[k..];
    }
  }

  lemma SameMatching(entries: seq<Entry>, order: seq<string>, sizes: map<string, nat>, sizes': map<string, nat>)
    requires Matching(entries, order, sizes) && S.SameSizes(order, sizes, sizes')
    ensures Matching(entries, order, sizes')
  {
    hide SizeIn;
    assert forall i :: 0 <= i < |order| ==> order[i] in order;
  }

  function Limits(maxBytes: nat): Config { Config(maxBytes, S.MaxEntries(maxBytes)) }

  const NO_FAULTS := S.Faults({}, None, true, true)

  lemma PutEffect(c: Config, state: State, batch: nat, k: nat, x: Index, x': Index, dropped: nat)
    requires Shows(state.queue, x, dropped) && batch in state.spooling && 0 < state.spooling[batch] <= c.maxBytes
    requires k <= |x.order| && |x.order| - k < c.maxEntries && InRange(state.queue)
    requires Total(x.order[k..], x.sizes) + state.spooling[batch] <= c.maxBytes
    requires k > 0 ==> Total(x.order[k - 1..], x.sizes) + state.spooling[batch] > c.maxBytes
    requires x'.order == x.order[k..] + [Name(x.enqueued + 1, x.sequence + 1)]
    requires S.SameSizes(x.order[k..], x.sizes, x'.sizes)
    requires SizeIn(x'.sizes, Name(x.enqueued + 1, x.sequence + 1)) == state.spooling[batch]
    requires x'.enqueued == x.enqueued + 1 && x'.sequence == x.sequence + 1
    ensures Enabled(c, state, Put(batch, k)) && Shows(Next(c, state, Put(batch, k)).queue, x', dropped + k)
  {
    Lengths(state.queue.entries, x.order, x.sizes);
    EvictsAlike(c, state.queue.entries, x.order, x.sizes, state.spooling[batch], k);
    PutMatches(state.queue, x.order, x.sizes, x'.sizes, k, batch, state.spooling[batch]);
    hide Matching, Evicts, S.SameSizes, SizeIn, Total, Name;
  }

  lemma TurnAwayEffect(c: Config, state: State, batch: nat, x: Index, x': Index, dropped: nat)
    requires Shows(state.queue, x, dropped) && batch in state.spooling
    requires || state.spooling[batch] == 0 || state.spooling[batch] > c.maxBytes
             || (Total(x.order, x.sizes) + state.spooling[batch] <= c.maxBytes && |x.order| >= c.maxEntries)
    requires x'.order == x.order && S.SameSizes(x.order, x.sizes, x'.sizes)
    requires x'.enqueued == x.enqueued && x'.sequence == x.sequence
    ensures Enabled(c, state, TurnAway(batch))
    ensures Shows(Next(c, state, TurnAway(batch)).queue, x', dropped + if state.spooling[batch] == 0 then 0 else 1)
  {
    Lengths(state.queue.entries, x.order, x.sizes);
    EvictsAlike(c, state.queue.entries, x.order, x.sizes, state.spooling[batch], 0);
    SameMatching(state.queue.entries, x.order, x.sizes, x'.sizes);
    assert x.order[0..] == x.order;
    hide Matching, Evicts, S.SameSizes, SizeIn, Total;
  }

  lemma Lengths(entries: seq<Entry>, order: seq<string>, sizes: map<string, nat>)
    requires Matching(entries, order, sizes)
    ensures |entries| == |order|
  {
  }

  /** An enqueue with no fault is the transport's `Put`, with as many evictions, or its `TurnAway`. */
  method TakePut(s: S.Spool, payload: Payload, ghost state: State, ghost batch: nat)
    returns (r: S.Result, ghost step: Step)
    requires s.Valid() && s.Budgeted() && s.InRange() && s.dropFailures == 0
    requires Shows(state.queue, s.View(), s.dropped) && batch in state.spooling && state.spooling[batch] == |payload|
    modifies s
    ensures s.Valid() && s.Budgeted() && s.dropFailures == 0
    ensures s.dropped >= old(s.dropped)
    ensures step == if r.Stored? then Put(batch, s.dropped - old(s.dropped)) else TurnAway(batch)
    ensures Enabled(Limits(s.maxBytes), state, step)
    ensures Shows(Next(Limits(s.maxBytes), state, step).queue, s.View(), s.dropped)
  {
    hide IndexOk, Mirrors, Unambiguous, S.Stowed, IsEntry, ParseName, Name, Precedes, Total, Matching, S.SameSizes;
    hide S.MaxEntries;
    hide SizeIn, Enabled, Next;
    ghost var x, dropped, c := s.View(), s.dropped, Limits(s.maxBytes);
    ghost var k, name;
    r, k, name := s.Enqueue(payload, NO_FAULTS);
    assert x.order[0..] == x.order;
    if r.Stored? {
      step := Put(batch, k);
      PutEffect(c, state, batch, k, x, s.View(), dropped);
    } else {
      step := TurnAway(batch);
      TurnAwayEffect(c, state, batch, x, s.View(), dropped);
    }
  }

  lemma FindIsPosition(entries: seq<Entry>, order: seq<string>, sizes: map<string, nat>, name: string)
    requires Matching(entries, order, sizes)
    ensures Find(entries, name, 0) == if name in order then S.Position(order, name) else |entries|
  {
    hide S.Position, Find, SizeIn;
    var i := Find(entries, name, 0);
    if name in order {
      var p := S.Position(order, name);
      assert entries[p].name == name;
    } else {
      assert forall j :: 0 <= j < |order| ==> order[j] in order;
    }
  }

  lemma CutMatches(entries: seq<Entry>, order: seq<string>, sizes: map<string, nat>, p: nat)
    requires Matching(entries, order, sizes) && Distinct(order) && p < |order|
    ensures Matching(entries[..p] + entries[p + 1..], Without(order, p), sizes - {order[p]})
  {
    var left, rest := Without(order, p), entries[..p] + entries[p + 1..];
    forall j | 0 <= j < |left| ensures rest[j].name == left[j] && rest[j].size == SizeIn(sizes - {order[p]}, left[j]) {
      var at := if j < p then j else j + 1;
      assert left[j] == order[at] && rest[j] == entries[at];
    }
  }

  lemma ReleaseMatches(q: Queue, order: seq<string>, sizes: map<string, nat>, name: string)
    requires Matching(q.entries, order, sizes) && Distinct(order)
    ensures name !in order ==> Released(q, name) == q
    ensures name in order ==>
              Matching(Released(q, name).entries, Without(order, S.Position(order, name)), sizes - {name})
  {
    FindIsPosition(q.entries, order, sizes, name);
    hide S.Position, Find, Matching, Distinct, Without;
    Lengths(q.entries, order, sizes);
    if name in order { CutMatches(q.entries, order, sizes, S.Position(order, name)); }
  }

  lemma DistinctOrder(x: Index)
    requires IndexOk(x)
    ensures Distinct(x.order)
  {
  }

  /** A release with no fault is the transport's, of the same entry. */
  method TakeRelease(s: S.Spool, ghost state: State, name: string) returns (ok: bool)
    requires s.Valid() && s.Budgeted() && Shows(state.queue, s.View(), s.dropped)
    requires state.drainer.Answered? && state.drainer.entry.name == name
    modifies s
    ensures s.Valid() && s.Budgeted() && ok && Enabled(Limits(s.maxBytes), state, Release)
    ensures Shows(Next(Limits(s.maxBytes), state, Release).queue, s.View(), s.dropped)
  {
    hide IndexOk, Mirrors, Holds, Unambiguous, IsEntry, ParseName, Precedes, Total, Matching, S.Position, S.MaxEntries;
    DistinctOrder(s.View());
    ReleaseMatches(state.queue, s.order, s.sizes, name);
    ok := s.Release(name, {});
  }

  // ---- Whole calls as steps of the transport ----

  /** The steps lead from one state to the other. */
  ghost predicate Walks(c: Config, s: State, steps: seq<Step>, s': State)
    decreases |steps|
  {
    if steps == [] then s' == s
    else Enabled(c, s, steps[0]) && Walks(c, Next(c, s, steps[0]), steps[1..], s')
  }

  lemma WalkOn(c: Config, s: State, a: Step, steps: seq<Step>, s': State)
    requires Enabled(c, s, a) && Walks(c, Next(c, s, a), steps, s')
    ensures Walks(c, s, [a] + steps, s')
  {
    assert ([a] + steps)[1..] == steps;
  }

  /** The drop metric and the last reading are the transport's. */
  predicate SameMeter(m: Meter, metric: nat, last: nat) { m.metric == metric && m.last == last }

  /** A batch that has been to the spool reports its drops and returns. */
  lemma ReportSteps(c: Config, s: State, batch: nat)
    requires batch in s.recording && s.recording[batch].reading.None?
    ensures var s1 := Next(c, s, ReadDrops(batch));
            var s2 := Next(c, s1, RecordDrops(batch));
            && Enabled(c, s, ReadDrops(batch)) && Enabled(c, s1, RecordDrops(batch))
            && Walks(c, s, [ReadDrops(batch), RecordDrops(batch)], s2)
            && s2.queue == s.queue
            && SameMeter(s2.meter, s.meter.metric + Rise(s.meter.last, s.queue.dropped), s.queue.dropped)
            && (batch !in s.returned ==> (batch in s2.returned <==> s.recording[batch].ok))
  {
    var s1 := Next(c, s, ReadDrops(batch));
    var s2 := Next(c, s1, RecordDrops(batch));
    assert Walks(c, s2, [], s2);
    WalkOn(c, s1, RecordDrops(batch), [], s2);
    WalkOn(c, s, ReadDrops(batch), [RecordDrops(batch)], s2);
  }

  /** A send the edge has not settled, through the spool and back. */
  lemma SpooledSteps(c: Config, s: State, step: Step, batch: nat, size: nat, status: Option<int>) returns (s': State)
    requires batch !in s.started && batch !in s.returned && Judge(status).Retry?
    requires step.Put? || step.TurnAway?
    requires step.batch == batch && Enabled(c, Posted(s, batch, size, Retry), step)
    ensures Walks(c, s, [Send(batch, size, status), step, ReadDrops(batch), RecordDrops(batch)], s')
    ensures s'.queue == Next(c, Posted(s, batch, size, Retry), step).queue
    ensures SameMeter(s'.meter, s.meter.metric + Rise(s.meter.last, s'.queue.dropped), s'.queue.dropped)
    ensures batch in s'.returned <==> step.Put?
  {
    hide Evicts, Batches;
    var s1 := Posted(s, batch, size, Retry);
    assert Enabled(c, s, Send(batch, size, status)) && Next(c, s, Send(batch, size, status)) == s1;
    var s2 := Next(c, s1, step);
    ReportSteps(c, s2, batch);
    s' := Next(c, Next(c, s2, ReadDrops(batch)), RecordDrops(batch));
    WalkOn(c, s1, step, [ReadDrops(batch), RecordDrops(batch)], s');
    WalkOn(c, s, Send(batch, size, status), [step] + [ReadDrops(batch), RecordDrops(batch)], s');
    assert [Send(batch, size, status)] + ([step] + [ReadDrops(batch), RecordDrops(batch)])
        == [Send(batch, size, status), step, ReadDrops(batch), RecordDrops(batch)];
  }

  /** `Send` with no fault is the transport's `Send`; when the edge has not settled the batch, then its `Put`, with
      as many evictions, or its `TurnAway`, and the report of the drops. It returns nil when the transport does. */
  method TakeSend(h: HTTPS, payload: Payload, status: Option<int>, ghost state: State, ghost batch: nat)
    returns (ok: bool, ghost steps: seq<Step>, ghost state': State)
    requires h.Ready() && h.queue != null && h.queue.InRange() && h.queue.dropFailures == 0
    requires Shows(state.queue, h.queue.View(), h.queue.dropped)
    requires SameMeter(state.meter, h.spoolDropped, h.lastDropped)
    requires batch !in state.started && batch !in state.returned && batch !in state.spooling
    modifies h, h.queue
    ensures h.Ready() && h.queue.dropFailures == 0
    ensures Walks(Limits(h.queue.maxBytes), state, steps, state')
    ensures steps != [] && steps[0] == Send(batch, |payload|, status)
    ensures |steps| == (if Judge(status).Retry? then 4 else 1)
    ensures ok <==> batch in state'.returned
    ensures Shows(state'.queue, h.queue.View(), h.queue.dropped)
    ensures SameMeter(state'.meter, h.spoolDropped, h.lastDropped)
  {
    hide IndexOk, Mirrors, Unambiguous, IsEntry, ParseName, Name, Precedes, Total, Matching, S.SameSizes, S.MaxEntries;
    hide SizeIn, Walks, Judge;
    ghost var x, dropped, c := h.queue.View(), h.queue.dropped, Limits(h.queue.maxBytes);
    ghost var s1 := Posted(state, batch, |payload|, Judge(status));
    ghost var r, k;
    ok, r, k := h.Send(payload, status, NO_FAULTS);
    if Judge(status).Retry? {
      assert x.order[0..] == x.order;
      ghost var step := if ok then Put(batch, k) else TurnAway(batch);
      if ok {
        PutEffect(c, s1, batch, k, x, h.queue.View(), dropped);
      } else {
        TurnAwayEffect(c, s1, batch, x, h.queue.View(), dropped);
      }
      state' := SpooledSteps(c, state, step, batch, |payload|, status);
      steps := [Send(batch, |payload|, status), step, ReadDrops(batch), RecordDrops(batch)];
    } else {
      steps, state' := [Send(batch, |payload|, status)], s1;
      PostedWalks(c, state, batch, |payload|, status);
    }
  }

  lemma PostedWalks(c: Config, s: State, batch: nat, size: nat, status: Option<int>)
    requires batch !in s.started
    ensures Walks(c, s, [Send(batch, size, status)], Posted(s, batch, size, Judge(status)))
  {
    var s1 := Posted(s, batch, size, Judge(status));
    assert Walks(c, s1, [], s1);
    WalkOn(c, s, Send(batch, size, status), [], s1);
    assert [Send(batch, size, status)] + [] == [Send(batch, size, status)];
  }

  /** One turn of the drain with no fault is the transport's `Peek` and `DrainPost`, and its `Release` when the edge
      has settled the batch; on an empty spool it is nothing. */
  method TakeDrain(h: HTTPS, status: Option<int>, ghost state: State)
    returns (ghost steps: seq<Step>, ghost state': State)
    requires h.Ready() && h.queue != null
    requires h.queue.order == [] || h.queue.order[0] in h.queue.disk
    requires Shows(state.queue, h.queue.View(), h.queue.dropped) && state.drainer.Idle?
    modifies h, h.queue
    ensures h.Ready()
    ensures Walks(Limits(h.queue.maxBytes), state, steps, state') && state'.drainer.Idle?
    ensures |steps| == (if old(h.queue.order) == [] then 0 else if Judge(status).Retry? then 2 else 3)
    ensures Shows(state'.queue, h.queue.View(), h.queue.dropped) && state'.meter == state.meter
  {
    hide IndexOk, Mirrors, Unambiguous, IsEntry, ParseName, Name, Precedes, Total, Matching, S.MaxEntries;
    hide SizeIn, Walks, Judge, S.Position, Find;
    ghost var x, c := h.queue.View(), Limits(h.queue.maxBytes);
    Lengths(state.queue.entries, x.order, x.sizes);
    DistinctOrder(x);
    h.DrainOnce(status, true, {});
    if x.order == [] {
      steps, state' := [], state;
      WalkNone(c, state);
    } else {
      ghost var name := x.order[0];
      HeadName(state.queue.entries, x.order, x.sizes);
      ReleaseMatches(state.queue, x.order, x.sizes, name);
      HeadGoes(x.order);
      steps, state' := DrainSteps(c, state, status);
    }
  }

  lemma WalkNone(c: Config, s: State)
    ensures Walks(c, s, [], s)
  {
  }

  lemma HeadName(entries: seq<Entry>, order: seq<string>, sizes: map<string, nat>)
    requires Matching(entries, order, sizes) && order != []
    ensures entries != [] && entries[0].name == order[0]
  {
  }

  lemma HeadGoes(order: seq<string>)
    requires order != []
    ensures Without(order, S.Position(order, order[0])) == order[1..]
  {
  }

  lemma DrainSteps(c: Config, s: State, status: Option<int>) returns (steps: seq<Step>, s': State)
    requires s.drainer.Idle? && s.queue.entries != []
    ensures Walks(c, s, steps, s') && s'.drainer.Idle? && s'.meter == s.meter
    ensures |steps| == (if Judge(status).Retry? then 2 else 3)
    ensures s'.queue == if Judge(status).Retry? then s.queue else Released(s.queue, s.queue.entries[0].name)
  {
    hide Released;
    var s1 := Next(c, s, Peek);
    var s2 := Next(c, s1, DrainPost(status));
    if Judge(status).Retry? {
      WalkNone(c, s2);
      WalkOn(c, s1, DrainPost(status), [], s2);
      WalkOn(c, s, Peek, [DrainPost(status)], s2);
      steps, s' := [Peek] + [DrainPost(status)], s2;
    } else {
      s' := Next(c, s2, Release);
      WalkNone(c, s');
      WalkOn(c, s2, Release, [], s');
      WalkOn(c, s1, DrainPost(status), [Release], s');
      WalkOn(c, s, Peek, [DrainPost(status)] + [Release], s');
      steps := [Peek] + ([DrainPost(status)] + [Release]);
    }
  }
}
