/** How often the bus tries a value (internal/bus/bus.go:285-304), in every run of its machine: a value is
    dead-lettered after exactly the allowed number of failed calls of its handler, and delivered after fewer; and
    no partition ever holds more than its capacity. */
module BusAttempts {
  import opened Bus
  import Ordering

  // ---- Capacity ----

  ghost predicate WithinCapacity(c: Config, l: Lanes) {
    forall p: nat :: p < |l.queues| ==> |l.queues[p]| <= c.capacity
  }

  lemma StepWithin(c: Config, b: State, a: Step)
    requires Enabled(c, b, a) && WithinCapacity(c, b.lanes)
    ensures WithinCapacity(c, Next(c, b, a).lanes)
  {
  }

  lemma {:induction false} CapacityHolds(c: Config, run: seq<State>, steps: seq<Step>, n: nat)
    requires IsRun(c, run, steps) && n < |run|
    ensures WithinCapacity(c, run[n].lanes)
  {
    hide Next, Enabled;
    if n == 0 {
      NothingQueued(c);
    } else {
      CapacityHolds(c, run, steps, n - 1);
      StepWithin(c, run[n - 1], steps[n - 1]);
    }
  }

  lemma NothingQueued(c: Config)
    ensures WithinCapacity(c, Init(c).lanes)
  {
  }

  // ---- A value is in one place ----

  lemma ValueOnce(c: Config, b: State, x: Item)
    requires Inv(c, b)
    ensures multiset(b.lanes.enqueued)[x] <= 1
  {
    hide GateOk, LanesOk;
    Ordering.DistinctMultiplicity(b.lanes.enqueued, x);
  }

  lemma SameIdSameValue(c: Config, b: State, x: Item, y: Item)
    requires Inv(c, b) && x in b.lanes.enqueued && y in b.lanes.enqueued
    ensures x.id == y.id ==> x == y
  {
    hide GateOk, LanesOk;
    var i :| 0 <= i < |b.lanes.enqueued| && b.lanes.enqueued[i] == x;
    var j :| 0 <= j < |b.lanes.enqueued| && b.lanes.enqueued[j] == y;
    assert x.id == y.id ==> !(i < j) && !(j < i);
  }

  lemma InPartition(c: Config, b: State, p: nat)
    requires Inv(c, b) && p < c.partitions
    ensures IsConsumer(b.lanes, p) && Flow(b.lanes, p) && ConsumerOk(b.lanes, b.gate.shutdown, p)
  {
    hide GateOk, RecordOk, Flow, CountsOk;
  }

  /** The value in a consumer's hands is not among those finalised, nor waiting on its partition. */
  lemma HandApart(c: Config, b: State, p: nat)
    requires Inv(c, b) && p < c.partitions && IsConsumer(b.lanes, p) && b.lanes.consumers[p].Handling?
    ensures b.lanes.consumers[p].item !in ItemsOf(b.lanes.finalised) && b.lanes.consumers[p].item !in b.lanes.queues[p]
  {
    var x := b.lanes.consumers[p].item;
    InPartition(c, b, p);
    ValueOnce(c, b, x);
    hide Inv, Project;
    ProjectedCount(b.lanes.enqueued, x);
    ProjectedCount(ItemsOf(b.lanes.finalised), x);
    var done, waiting := Project(ItemsOf(b.lanes.finalised), p), b.lanes.queues[p];
    assert Project(b.lanes.enqueued, p) == done + [x] + waiting;
    assert multiset(done + [x] + waiting)[x] == multiset(done)[x] + 1 + multiset(waiting)[x];
    assert x in ItemsOf(b.lanes.finalised) <==> x in multiset(ItemsOf(b.lanes.finalised));
    assert x in waiting <==> x in multiset(waiting);
  }

  lemma WaitingKnown(c: Config, b: State, q: nat, i: nat)
    requires Inv(c, b) && q < c.partitions && q < |b.lanes.queues| && i < |b.lanes.queues[q]|
    ensures b.lanes.queues[q][i] in b.lanes.enqueued && b.lanes.queues[q][i].partition == q
  {
    InPartition(c, b, q);
    hide Inv, Project;
    var all, x := Project(b.lanes.enqueued, q), b.lanes.queues[q][i];
    var k := |all| - |b.lanes.queues[q]| + i;
    assert all[k] == x;
    ProjectedPartition(b.lanes.enqueued, q, k);
    ProjectMembers(b.lanes.enqueued, x);
  }

  /** No other value on the bus has the id of the one in a consumer's hands. */
  lemma IdApart(c: Config, b: State, p: nat)
    requires Inv(c, b) && p < c.partitions && IsConsumer(b.lanes, p) && b.lanes.consumers[p].Handling?
    ensures var id := b.lanes.consumers[p].item.id;
            && (forall i :: 0 <= i < |b.lanes.finalised| ==> b.lanes.finalised[i].item.id != id)
            && (forall q: nat, i: nat :: q < |b.lanes.queues| && i < |b.lanes.queues[q]| ==>
                  b.lanes.queues[q][i].id != id)
            && (forall q: nat :: q < |b.lanes.consumers| && q != p && b.lanes.consumers[q].Handling? ==>
                  b.lanes.consumers[q].item.id != id)
            && Has(b.lanes.enqueued, id)
  {
    var x := b.lanes.consumers[p].item;
    HandledKnown(c, b, p);
    HandApart(c, b, p);
    InPartition(c, b, p);
    OnRecord(c, b, x);
    assert |b.lanes.queues| == |b.lanes.consumers| == c.partitions;
    hide Inv, Flow, Has;
    forall i | 0 <= i < |b.lanes.finalised|
      ensures b.lanes.finalised[i].item.id != x.id
    {
      FinalKnown(c, b, i);
      assert ItemsOf(b.lanes.finalised)[i] == b.lanes.finalised[i].item;
      SameIdSameValue(c, b, x, b.lanes.finalised[i].item);
    }
    forall q: nat, i: nat | q < |b.lanes.queues| && i < |b.lanes.queues[q]|
      ensures b.lanes.queues[q][i].id != x.id
    {
      WaitingKnown(c, b, q, i);
      SameIdSameValue(c, b, x, b.lanes.queues[q][i]);
    }
    forall q: nat | q < |b.lanes.consumers| && q != p && b.lanes.consumers[q].Handling?
      ensures b.lanes.consumers[q].item.id != x.id
    {
      HandledKnown(c, b, q);
      InPartition(c, b, q);
      SameIdSameValue(c, b, x, b.lanes.consumers[q].item);
    }
  }

  // ---- Failed calls ----

  /** The values whose handler call fails in the step. */
  function FailsIn(b: State, a: Step): multiset<nat> {
    if a.Attempt? && !a.ok && IsConsumer(b.lanes, a.p) && b.lanes.consumers[a.p].Handling?
    then multiset{b.lanes.consumers[a.p].item.id} else multiset{}
  }

  /** The failed calls in the first `n` steps, by value. */
  function Fails(run: seq<State>, steps: seq<Step>, n: nat): multiset<nat>
    requires n <= |steps| <= |run|
  {
    if n == 0 then multiset{} else Fails(run, steps, n - 1) + FailsIn(run[n - 1], steps[n - 1])
  }

  /** A value not yet tried has no failed call, one in hand one less than its attempt, a delivered one fewer than
      allowed, and a dead letter all that are allowed. */
  ghost predicate AttemptsOk(c: Config, l: Lanes, fails: multiset<nat>) {
    && (forall id: nat :: !Has(l.enqueued, id) ==> fails[id] == 0)
    && (forall q: nat, i: nat :: q < |l.queues| && i < |l.queues[q]| ==> fails[l.queues[q][i].id] == 0)
    && (forall q: nat :: q < |l.consumers| && l.consumers[q].Handling? ==>
          fails[l.consumers[q].item.id] + 1 == l.consumers[q].attempt <= c.maxAttempts)
    && (forall i :: 0 <= i < |l.finalised| ==> FinalOk(c, l.finalised[i], fails))
  }

  ghost predicate FinalOk(c: Config, f: Final, fails: multiset<nat>) {
    if f.delivered then fails[f.item.id] < c.maxAttempts else fails[f.item.id] == c.maxAttempts
  }

  lemma NotYetPut(c: Config, b: State, id: nat)
    requires Inv(c, b) && InPhase(b.gate, id, Entered)
    ensures !Has(b.lanes.enqueued, id)
  {
    hide LanesOk;
  }

  lemma PutAttempts(c: Config, b: State, id: nat, fails: multiset<nat>)
    requires Inv(c, b) && Enabled(c, b, PutValue(id)) && AttemptsOk(c, b.lanes, fails)
    ensures AttemptsOk(c, Next(c, b, PutValue(id)).lanes, fails)
  {
    NotYetPut(c, b, id);
    hide Inv;
    var item := Item(id, b.gate.sends[id].partition);
    forall x: nat | !Has(b.lanes.enqueued + [item], x)
      ensures fails[x] == 0
    {
      assert forall i :: 0 <= i < |b.lanes.enqueued| ==> (b.lanes.enqueued + [item])[i] == b.lanes.enqueued[i];
    }
  }

  lemma TakeAttempts(c: Config, l: Lanes, p: nat, fails: multiset<nat>)
    requires p < |l.consumers| && p < |l.queues| && l.queues[p] != [] && c.maxAttempts > 0 && AttemptsOk(c, l, fails)
    ensures AttemptsOk(c, TakeOne(l, p), fails)
  {
    hide Has;
  }

  /** One more failed call of the value in hand changes nothing for the others. */
  lemma OthersSame(c: Config, b: State, p: nat, fails: multiset<nat>)
    requires Inv(c, b) && p < c.partitions && IsConsumer(b.lanes, p) && b.lanes.consumers[p].Handling?
    requires AttemptsOk(c, b.lanes, fails)
    ensures var l, more := b.lanes, fails + multiset{b.lanes.consumers[p].item.id};
            && (forall id: nat :: !Has(l.enqueued, id) ==> more[id] == 0)
            && (forall q: nat, i: nat :: q < |l.queues| && i < |l.queues[q]| ==> more[l.queues[q][i].id] == 0)
            && (forall q: nat :: q < |l.consumers| && q != p && l.consumers[q].Handling? ==>
                  more[l.consumers[q].item.id] + 1 == l.consumers[q].attempt <= c.maxAttempts)
            && (forall i :: 0 <= i < |l.finalised| ==> FinalOk(c, l.finalised[i], more))
            && more[l.consumers[p].item.id] == l.consumers[p].attempt <= c.maxAttempts
  {
    IdApart(c, b, p);
    hide Inv, Has;
    var l, id := b.lanes, b.lanes.consumers[p].item.id;
    var more := fails + multiset{id};
    assert forall x: nat :: x != id ==> more[x] == fails[x];
  }

  lemma FailAttempts(c: Config, b: State, p: nat, fails: multiset<nat>)
    requires Inv(c, b) && Enabled(c, b, Attempt(p, false)) && p < c.partitions && AttemptsOk(c, b.lanes, fails)
    ensures AttemptsOk(c, Next(c, b, Attempt(p, false)).lanes, fails + multiset{b.lanes.consumers[p].item.id})
  {
    OthersSame(c, b, p, fails);
    hide Inv, Has;
    assert AttemptsOk(c, b.lanes, fails);
  }

  lemma TryAttempts(c: Config, b: State, p: nat, ok: bool, fails: multiset<nat>)
    requires Inv(c, b) && Enabled(c, b, Attempt(p, ok)) && AttemptsOk(c, b.lanes, fails)
    ensures AttemptsOk(c, Next(c, b, Attempt(p, ok)).lanes, fails + FailsIn(b, Attempt(p, ok)))
  {
    assert p < c.partitions;
    hide Inv, Has;
    if ok {
      assert fails + FailsIn(b, Attempt(p, ok)) == fails;
    } else {
      hide AttemptsOk, Next;
      FailAttempts(c, b, p, fails);
    }
  }

  lemma StepAttempts(c: Config, b: State, a: Step, fails: multiset<nat>)
    requires Inv(c, b) && Enabled(c, b, a) && AttemptsOk(c, b.lanes, fails)
    ensures AttemptsOk(c, Next(c, b, a).lanes, fails + FailsIn(b, a))
  {
    assert c.maxAttempts > 0;
    hide Inv, Has;
    if !a.Attempt? { assert fails + FailsIn(b, a) == fails; }
    if a.PutValue? {
      PutAttempts(c, b, a.id, fails);
    } else if a.Take? {
      TakeAttempts(c, b.lanes, a.p, fails);
    } else if a.Attempt? {
      TryAttempts(c, b, a.p, a.ok, fails);
    }
  }

  /** In every run a value is dead-lettered exactly after all its allowed calls failed, and delivered only before
      that. */
  lemma {:induction false} DeadAfterAllAttempts(c: Config, run: seq<State>, steps: seq<Step>, n: nat)
    requires IsRun(c, run, steps) && n < |run|
    ensures AttemptsOk(c, run[n].lanes, Fails(run, steps, n))
  {
    hide Inv, Next, Enabled, AttemptsOk;
    if n == 0 {
      NothingTried(c);
    } else {
      DeadAfterAllAttempts(c, run, steps, n - 1);
      RunKeeps(c, run, steps, n - 1);
      StepAttempts(c, run[n - 1], steps[n - 1], Fails(run, steps, n - 1));
    }
  }

  lemma NothingTried(c: Config)
    ensures AttemptsOk(c, Init(c).lanes, multiset{})
  {
  }
}
