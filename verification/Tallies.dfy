/** Sums over chosen events. Every accounting law of the pipeline is stated with these: what a window or a
    device record shows is the tally of a set of admitted events, named by their position. */
module Tallies {
  import opened Domain

  datatype Totals = Totals(count: int, errors: int, bytes: int)

  const ZERO := Totals(0, 0, 0)

  function Plus(a: Totals, b: Totals): Totals {
    Totals(a.count + b.count, a.errors + b.errors, a.bytes + b.bytes)
  }

  predicate AtMost(a: Totals, b: Totals) {
    a.count <= b.count && a.errors <= b.errors && a.bytes <= b.bytes
  }

  function AmountOf(e: Event): Totals { Totals(1, if e.failed then 1 else 0, e.bytes) }

  function TotalsOf(w: AggregateWindow): Totals { Totals(w.count, w.errorCount, w.bytes) }

  /** The totals of the events at the given positions. */
  function Tally(events: seq<Event>, ids: set<nat>): Totals {
    if events == [] then ZERO
    else
      var last := |events| - 1;
      if last in ids then Plus(Tally(events[..last], ids), AmountOf(events[last])) else Tally(events[..last], ids)
  }

  /** The latencies of the events at the given positions, in order of admission. */
  function Latencies(events: seq<Event>, ids: set<nat>): seq<int> {
    if events == [] then []
    else
      var last := |events| - 1;
      var before := Latencies(events[..last], ids);
      if last in ids then before + [events[last].latencyNanos] else before
  }

  /** Only the positions within the sequence matter. */
  lemma {:induction false} TallySameIds(events: seq<Event>, ids: set<nat>, ids': set<nat>)
    requires forall i: nat :: i < |events| ==> (i in ids <==> i in ids')
    ensures Tally(events, ids) == Tally(events, ids')
    ensures Latencies(events, ids) == Latencies(events, ids')
  {
    if events != [] { TallySameIds(events[..|events| - 1], ids, ids'); }
  }

  lemma TallyAppend(events: seq<Event>, e: Event, ids: set<nat>)
    ensures Tally(events + [e], ids) ==
            if |events| in ids then Plus(Tally(events, ids), AmountOf(e)) else Tally(events, ids)
    ensures Latencies(events + [e], ids) ==
            if |events| in ids then Latencies(events, ids) + [e.latencyNanos] else Latencies(events, ids)
  {
    assert (events + [e])[..|events|] == events;
  }

  lemma {:induction false} TallyExtend(events: seq<Event>, more: seq<Event>, ids: set<nat>)
    requires forall i :: i in ids ==> i < |events|
    ensures Tally(events + more, ids) == Tally(events, ids)
  {
    if more == [] {
      assert events + more == events;
    } else {
      assert (events + more)[..|events + more| - 1] == events + more[..|more| - 1];
      TallyExtend(events, more[..|more| - 1], ids);
    }
  }

  /** Tallies of disjoint sets of events add up. */
  lemma {:induction false} TallyDisjoint(events: seq<Event>, ids: set<nat>, ids': set<nat>)
    requires ids !! ids'
    ensures Tally(events, ids + ids') == Plus(Tally(events, ids), Tally(events, ids'))
  {
    if events != [] { TallyDisjoint(events[..|events| - 1], ids, ids'); }
  }

  /** More events never tally to less. */
  lemma {:induction false} TallyMonotone(events: seq<Event>, ids: set<nat>, ids': set<nat>)
    requires forall e :: e in events ==> e.bytes >= 0
    requires ids <= ids'
    ensures AtMost(Tally(events, ids), Tally(events, ids'))
  {
    if events != [] {
      assert events == events[..|events| - 1] + [events[|events| - 1]];
      TallyMonotone(events[..|events| - 1], ids, ids');
    }
  }

  /** An empty choice tallies to nothing. */
  lemma {:induction false} TallyNone(events: seq<Event>, ids: set<nat>)
    requires forall i: nat :: i < |events| ==> i !in ids
    ensures Tally(events, ids) == ZERO && Latencies(events, ids) == []
  {
    if events != [] { TallyNone(events[..|events| - 1], ids); }
  }

  /** A tally of events counts them. */
  lemma {:induction false} TallyPositive(events: seq<Event>, ids: set<nat>, i: nat)
    requires i in ids && i < |events|
    ensures Tally(events, ids).count >= 1
  {
    if i < |events| - 1 { TallyPositive(events[..|events| - 1], ids, i); }
    TallyNonNegative(events[..|events| - 1], ids);
  }

  lemma {:induction false} TallyNonNegative(events: seq<Event>, ids: set<nat>)
    ensures Tally(events, ids).count >= 0
  {
    if events != [] { TallyNonNegative(events[..|events| - 1], ids); }
  }
}
