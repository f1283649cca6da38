/** The sequential parts of the bus object (internal/bus/bus.go): claiming partitions, and the delivery loop
    of one value. */
module Broker {
  import opened DecimalText

  /** How one handler call ended: its error, and whether the context was cancelled by then. */
  datatype HandlerResult = HandlerResult(ok: bool, cancelled: bool)

  datatype Fate = Delivered | Abandoned | DeadLettered

  /** What becomes of a value whose attempts go as given, starting at `attempt`: how many calls are made
      and how it ends. */
  function FateFrom(results: seq<HandlerResult>, attempt: nat): (r: (nat, Fate))
    requires 1 <= attempt <= |results|
    ensures 1 <= r.0 <= |results| - attempt + 1
    decreases |results| - attempt
  {
    var h := results[attempt - 1];
    if h.ok then (1, Delivered)
    else if h.cancelled then (1, Abandoned)
    else if attempt == |results| then (1, DeadLettered)
    else var rest := FateFrom(results, attempt + 1); (rest.0 + 1, rest.1)
  }

  /** A value is dead-lettered exactly when every attempt failed and none saw a cancellation; it is
      delivered exactly when some attempt succeeded after failures only. */
  lemma {:induction false} FateMeaning(results: seq<HandlerResult>, attempt: nat)
    requires 1 <= attempt <= |results|
    ensures FateFrom(results, attempt).1.DeadLettered? <==>
            forall i :: attempt - 1 <= i < |results| ==> !results[i].ok && !results[i].cancelled
    ensures FateFrom(results, attempt).1.Delivered? <==>
            exists k :: attempt - 1 <= k < |results| && results[k].ok
                        && forall i :: attempt - 1 <= i < k ==> !results[i].ok && !results[i].cancelled
    ensures FateFrom(results, attempt).1.DeadLettered? ==> FateFrom(results, attempt).0 == |results| - attempt + 1
    decreases |results| - attempt
  {
    var h := results[attempt - 1];
    if !h.ok && !h.cancelled && attempt < |results| { FateMeaning(results, attempt + 1); }
  }

  class Broker<T> {
    const maxAttempts: nat
    const claimed: array<bool>
    var deadLetter: seq<T>
    var delivered: int
    var retried: int
    var dead: int
    var abandoned: int

    constructor (partitions: nat, maxAttempts: nat)
      requires partitions > 0 && maxAttempts > 0
      ensures this.maxAttempts == maxAttempts && fresh(claimed) && claimed.Length == partitions
      ensures forall i :: 0 <= i < partitions ==> !claimed[i]
      ensures deadLetter == [] && delivered == retried == dead == abandoned == 0
    {
      this.maxAttempts := maxAttempts;
      claimed := new bool[partitions](_ => false);
      deadLetter, delivered, retried, dead, abandoned := [], 0, 0, 0, 0;
    }

    /** Claims the first free partition, if there is one. */
    method Claim() returns (partition: Option<nat>)
      modifies claimed
      ensures partition.None? <==> forall i :: 0 <= i < claimed.Length ==> old(claimed[i])
      ensures partition.None? ==> claimed[..] == old(claimed[..])
      ensures partition.Some? ==>
                && partition.value < claimed.Length && !old(claimed[partition.value])
                && (forall i :: 0 <= i < partition.value ==> old(claimed[i]))
                && claimed[..] == old(claimed[..])[partition.value := true]
    {
      for i := 0 to claimed.Length
        invariant claimed[..] == old(claimed[..])
        invariant forall k :: 0 <= k < i ==> old(claimed[k])
      {
        if !claimed[i] {
          claimed[i] := true;
          return Some(i);
        }
      }
      return None;
    }

    /** Claims every partition, or none if any is taken. */
    method ClaimAll() returns (ok: bool)
      modifies claimed
      ensures ok <==> forall i :: 0 <= i < claimed.Length ==> !old(claimed[i])
      ensures ok ==> forall i :: 0 <= i < claimed.Length ==> claimed[i]
      ensures !ok ==> claimed[..] == old(claimed[..])
    {
      for i := 0 to claimed.Length
        invariant claimed[..] == old(claimed[..])
        invariant forall k :: 0 <= k < i ==> !old(claimed[k])
      {
        if claimed[i] { return false; }
      }
      for i := 0 to claimed.Length
        invariant forall k :: 0 <= k < i ==> claimed[k]
      {
        claimed[i] := true;
      }
      return true;
    }

    /** Frees a partition; a number outside the range is ignored. */
    method Release(partition: int)
      modifies claimed
      ensures claimed[..]
           == if 0 <= partition < claimed.Length then old(claimed[..])[partition := false] else old(claimed[..])
    {
      if partition >= 0 && partition < claimed.Length { claimed[partition] := false; }
    }

    /** Calls the handler until it succeeds, the context is cancelled or the attempts run out. Every call
        shows in exactly one counter. */
    method Deliver(value: T, results: seq<HandlerResult>) returns (calls: nat)
      requires maxAttempts > 0 && |results| == maxAttempts
      modifies this
      ensures var r := FateFrom(results, 1);
              && calls == r.0
              && delivered == old(delivered) + (if r.1.Delivered? then 1 else 0)
              && abandoned == old(abandoned) + (if r.1.Abandoned? then 1 else 0)
              && dead == old(dead) + (if r.1.DeadLettered? then 1 else 0)
              && retried == old(retried) + calls - 1
              && deadLetter == old(deadLetter) + (if r.1.DeadLettered? then [value] else [])
    {
      calls := 0;
      for attempt := 1 to maxAttempts + 1
        invariant calls == attempt - 1
        invariant attempt <= maxAttempts ==>
                  FateFrom(results, 1) == (calls + FateFrom(results, attempt).0, FateFrom(results, attempt).1)
        invariant attempt > maxAttempts ==> FateFrom(results, 1) == (calls, DeadLettered)
        invariant retried == old(retried) + if attempt <= maxAttempts then calls else calls - 1
        invariant delivered == old(delivered) && abandoned == old(abandoned) && dead == old(dead)
        invariant deadLetter == old(deadLetter)
      {
        var h := results[attempt - 1];
        calls := calls + 1;
        if h.ok {
          delivered := delivered + 1;
          return;
        }
        if h.cancelled {
          abandoned := abandoned + 1;
          return;
        }
        if attempt < maxAttempts { retried := retried + 1; }
      }
      dead := dead + 1;
      deadLetter := deadLetter + [value];
    }
  }
}
