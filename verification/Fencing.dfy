/** What the in-memory locker (internal/store/lock.go) guarantees over whole runs: tokens, lifetimes and the
    guard. */
module Fencing {
  import opened Locks

  /** A granted lease: when it was granted, and when it was given back, if it was. */
  datatype Issue = Issue(lease: Lease, grantedAt: int, releasedAt: int, released: bool)

  function Lapse(x: Issue): int {
    if x.released && x.releasedAt < x.lease.expiresAt then x.releasedAt else x.lease.expiresAt
  }

  datatype Ledger = Ledger(locks: State, issues: seq<Issue>)

  function GiveBack(x: Issue, lease: Lease, now: int): Issue {
    if x.lease.resource == lease.resource && x.lease.token == lease.token && !x.released
    then x.(releasedAt := now, released := true) else x
  }

  /** One call, and what it does to the ledger of leases. */
  function Next(l: Ledger, c: Call): Ledger {
    var r := LocalStep(l.locks, c.op, c.now);
    match c.op
    case Acquire(_, _) =>
      Ledger(r.state, if r.answer.Granted? then l.issues + [Issue(r.answer.lease, c.now, 0, false)] else l.issues)
    case Release(lease) =>
      Ledger(r.state, if lease.resource in l.locks.held && l.locks.held[lease.resource].token == lease.token
                      then seq(|l.issues|, i requires 0 <= i < |l.issues| => GiveBack(l.issues[i], lease, c.now))
                        else l.issues)
    case Guard(_) => l
  }

  function After(calls: seq<Call>): Ledger {
    if calls == [] then Ledger(NOTHING, []) else Next(After(calls[..|calls| - 1]), calls[|calls| - 1])
  }

  predicate Same(x: Issue, y: Issue) { x.lease.resource == y.lease.resource }

  /** An issue is current, or over by now. */
  ghost predicate IssueOk(s: State, x: Issue, now: int) {
    var r := x.lease.resource;
    && x.grantedAt <= now && (x.released ==> x.releasedAt <= now) && x.grantedAt < x.lease.expiresAt
    && 1 <= x.lease.token <= Fence(s, r)
    && (r in s.held && s.held[r].token == x.lease.token ==> !x.released && s.held[r].expiresAt == x.lease.expiresAt)
    && (!(r in s.held && s.held[r].token == x.lease.token) ==> Lapse(x) <= now)
  }

  ghost predicate Ordered(x: Issue, y: Issue) {
    Same(x, y) ==> x.lease.token < y.lease.token && Lapse(x) <= y.grantedAt
  }

  ghost predicate Inv(l: Ledger, now: int) {
    && (forall r :: r in l.locks.fences ==> l.locks.fences[r] >= 0)
    && (forall r :: r in l.locks.held ==> l.locks.held[r].token == Fence(l.locks, r))
    && (forall i :: 0 <= i < |l.issues| ==> IssueOk(l.locks, l.issues[i], now))
    && (forall i, j :: 0 <= i < j < |l.issues| ==> Ordered(l.issues[i], l.issues[j]))
  }

  lemma AcquireKeeps(l: Ledger, c: Call, was: int)
    requires Inv(l, was) && was <= c.now && c.op.Acquire?
    ensures Inv(Next(l, c), c.now)
  {
    var l' := Next(l, c);
    if LocalStep(l.locks, c.op, c.now).answer.Granted? {
      var n := |l.issues|;
      forall i | 0 <= i < |l'.issues| ensures IssueOk(l'.locks, l'.issues[i], c.now) {
        if i < n { assert IssueOk(l.locks, l.issues[i], was); }
      }
      forall i, j | 0 <= i < j < |l'.issues| ensures Ordered(l'.issues[i], l'.issues[j]) {
        assert IssueOk(l.locks, l.issues[i], was);
        if j < n { assert Ordered(l.issues[i], l.issues[j]); }
      }
    } else {
      forall i | 0 <= i < |l.issues| ensures IssueOk(l.locks, l.issues[i], c.now) {
        assert IssueOk(l.locks, l.issues[i], was);
      }
    }
  }

  lemma ReleaseKeeps(l: Ledger, c: Call, was: int)
    requires Inv(l, was) && was <= c.now && c.op.Release?
    ensures Inv(Next(l, c), c.now)
  {
    var l' := Next(l, c);
    forall i | 0 <= i < |l'.issues| ensures IssueOk(l'.locks, l'.issues[i], c.now) {
      assert IssueOk(l.locks, l.issues[i], was);
    }
    forall i, j | 0 <= i < j < |l'.issues| ensures Ordered(l'.issues[i], l'.issues[j]) {
      assert Ordered(l.issues[i], l.issues[j]);
      assert IssueOk(l.locks, l.issues[i], was) && IssueOk(l.locks, l.issues[j], was);
    }
  }

  lemma Wait(l: Ledger, was: int, now: int)
    requires Inv(l, was) && was <= now
    ensures Inv(l, now)
  {
    forall i | 0 <= i < |l.issues|
      ensures IssueOk(l.locks, l.issues[i], now)
    {
      assert IssueOk(l.locks, l.issues[i], was);
    }
  }

  lemma {:induction false} RunKeeps(calls: seq<Call>, now: int)
    requires Monotone(calls) && forall i :: 0 <= i < |calls| ==> calls[i].now <= now
    ensures Inv(After(calls), now) && After(calls).locks == LocalRun(calls)
  {
    if calls != [] {
      hide Inv, LocalAcquire, LocalRelease, LocalPasses;
      var front, c := calls[..|calls| - 1], calls[|calls| - 1];
      RunKeeps(front, c.now);
      match c.op {
        case Acquire(_, _) => AcquireKeeps(After(front), c, c.now);
        case Release(_) => ReleaseKeeps(After(front), c, c.now);
        case Guard(_) =>
      }
      Wait(After(calls), c.now, now);
    } else {
      assert Inv(After([]), now);
    }
  }

  // ---- The guarantees ----

  /** Per resource, tokens strictly increase in the order of granting, and no two lifetimes overlap. */
  lemma LeasesInTurn(calls: seq<Call>, i: nat, j: nat)
    requires Monotone(calls) && i < j < |After(calls).issues|
    requires Same(After(calls).issues[i], After(calls).issues[j])
    ensures After(calls).issues[i].lease.token < After(calls).issues[j].lease.token
    ensures Lapse(After(calls).issues[i]) <= After(calls).issues[j].grantedAt
  {
    RunKeeps(calls, if calls == [] then 0 else calls[|calls| - 1].now);
    assert Ordered(After(calls).issues[i], After(calls).issues[j]);
  }

  /** A held token is the fence. */
  lemma HeldIsFence(calls: seq<Call>, resource: string)
    requires Monotone(calls) && resource in LocalRun(calls).held
    ensures LocalRun(calls).held[resource].token == Fence(LocalRun(calls), resource)
  {
    RunKeeps(calls, calls[|calls| - 1].now);
  }

  /** At any instant at most one issued lease of a resource passes the guard, it is within its lifetime,
      and it is the lease granted last. */
  lemma OnePasses(calls: seq<Call>, now: int, i: nat, j: nat)
    requires Monotone(calls) && forall k :: 0 <= k < |calls| ==> calls[k].now <= now
    requires i < |After(calls).issues| && j < |After(calls).issues|
    requires Same(After(calls).issues[i], After(calls).issues[j])
    requires LocalPasses(LocalRun(calls), After(calls).issues[i].lease, now)
    ensures j <= i
    ensures After(calls).issues[i].grantedAt <= now < Lapse(After(calls).issues[i])
    ensures j != i ==> !LocalPasses(LocalRun(calls), After(calls).issues[j].lease, now)
  {
    RunKeeps(calls, now);
    var xs := After(calls).issues;
    assert IssueOk(LocalRun(calls), xs[i], now) && IssueOk(LocalRun(calls), xs[j], now);
  }

  /** No step gives a lease that does not pass its token back. */
  lemma RefusedStep(s: State, lease: Lease, c: Call, now: int)
    requires lease.token <= Fence(s, lease.resource) && now <= c.now
    requires !(lease.resource in s.held && s.held[lease.resource].token == lease.token
               && now < s.held[lease.resource].expiresAt)
    ensures var s' := LocalStep(s, c.op, c.now).state;
            && Fence(s, lease.resource) <= Fence(s', lease.resource)
            && !(lease.resource in s'.held && s'.held[lease.resource].token == lease.token
                 && c.now < s'.held[lease.resource].expiresAt)
  {
  }

  /** An issued lease the guard has refused is refused by every later guard. */
  lemma {:induction false} RefusedForever(calls: seq<Call>, n: nat, lease: Lease, at: int, now: int)
    requires Monotone(calls) && n <= |calls|
    requires forall k :: 0 <= k < n ==> calls[k].now <= at
    requires forall k :: n <= k < |calls| ==> at <= calls[k].now <= now
    requires at <= now && exists x :: x in After(calls[..n]).issues && x.lease == lease
    requires !LocalPasses(LocalRun(calls[..n]), lease, at)
    ensures !LocalPasses(LocalRun(calls), lease, now)
    ensures lease.token <= Fence(LocalRun(calls), lease.resource)
  {
    if n == |calls| {
      assert calls[..n] == calls;
      RunKeeps(calls, at);
      var i :| 0 <= i < |After(calls).issues| && After(calls).issues[i].lease == lease;
      assert IssueOk(LocalRun(calls), After(calls).issues[i], at);
    } else {
      var front, c := calls[..|calls| - 1], calls[|calls| - 1];
      assert front[..n] == calls[..n];
      RefusedForever(front, n, lease, at, c.now);
      HeldAtFence(front, c.now, lease.resource);
      RefusedStep(LocalRun(front), lease, c, c.now);
    }
  }

  lemma HeldAtFence(calls: seq<Call>, now: int, resource: string)
    requires Monotone(calls) && forall i :: 0 <= i < |calls| ==> calls[i].now <= now
    ensures resource in LocalRun(calls).held ==>
              LocalRun(calls).held[resource].token == Fence(LocalRun(calls), resource)
  {
    RunKeeps(calls, now);
  }

  /** Releasing an issued lease other than the resource's latest changes nothing. */
  lemma StaleReleaseFreesNothing(calls: seq<Call>, i: nat, j: nat)
    requires Monotone(calls) && i < j < |After(calls).issues| && Same(After(calls).issues[i], After(calls).issues[j])
    ensures LocalRelease(LocalRun(calls), After(calls).issues[i].lease).state == LocalRun(calls)
  {
    RunKeeps(calls, if calls == [] then 0 else calls[|calls| - 1].now);
    var s, xs := LocalRun(calls), After(calls).issues;
    assert Ordered(xs[i], xs[j]);
    assert exists now :: IssueOk(s, xs[j], now);
  }
}
