/** The fencing lock: the in-memory locker (internal/store/lock.go), which forgets an expired lock only when
    it is next acquired or released, and the Redis scripts (internal/redisstore/lock.go), whose keys vanish
    at their deadline. Times and durations are in nanoseconds; a Redis key is visible strictly before its
    deadline. */
module Locks {

  const MILLISECOND := 1_000_000
  const DEFAULT_LEASE_TTL := 15_000 * MILLISECOND

  datatype Held = Held(token: int, expiresAt: int)

  /** The lock entries and the fence counters, by resource. */
  datatype State = State(held: map<string, Held>, fences: map<string, int>)

  const NOTHING := State(map[], map[])

  datatype Lease = Lease(resource: string, token: int, expiresAt: int)

  datatype Op = Acquire(resource: string, ttl: int) | Release(lease: Lease) | Guard(lease: Lease)

  datatype Answer = Granted(lease: Lease) | Ok | LockHeld | Superseded | EmptyResource | BadExpiry

  datatype Reply = Reply(state: State, answer: Answer)

  function Fence(s: State, resource: string): int { if resource in s.fences then s.fences[resource] else 0 }

  function EffectiveTtl(ttl: int): int { if ttl <= 0 then DEFAULT_LEASE_TTL else ttl }

  /** A lock entry still in force. */
  predicate Live(s: State, resource: string, now: int) { resource in s.held && s.held[resource].expiresAt > now }

  function Grant(s: State, resource: string, lifetime: int, now: int): State {
    var token := Fence(s, resource) + 1;
    State(s.held[resource := Held(token, now + lifetime)], s.fences[resource := token])
  }

  // ---- The in-memory locker ----

  function LocalAcquire(s: State, resource: string, ttl: int, now: int): Reply {
    if resource == "" then Reply(s, EmptyResource)
    else if Live(s, resource, now) then Reply(s, LockHeld)
    else
      var lifetime := EffectiveTtl(ttl);
      Reply(Grant(s, resource, lifetime, now), Granted(Lease(resource, Fence(s, resource) + 1, now + lifetime)))
  }

  function LocalRelease(s: State, lease: Lease): Reply {
    if lease.resource !in s.held then Reply(s, Ok)
    else if s.held[lease.resource].token != lease.token then Reply(s, Superseded)
    else Reply(s.(held := s.held - {lease.resource}), Ok)
  }

  predicate LocalPasses(s: State, lease: Lease, now: int) {
    && lease.resource in s.held && s.held[lease.resource].token == lease.token
    && Fence(s, lease.resource) <= lease.token
    && now < s.held[lease.resource].expiresAt
  }

  function LocalStep(s: State, op: Op, now: int): Reply {
    match op
    case Acquire(resource, ttl) => LocalAcquire(s, resource, ttl, now)
    case Release(lease) => LocalRelease(s, lease)
    case Guard(lease) => Reply(s, if LocalPasses(s, lease, now) then Ok else Superseded)
  }

  // ---- The Redis scripts ----

  /** The acquire script. `PX` takes whole milliseconds and refuses zero, after the counter has moved. */
  function RedisAcquire(s: State, resource: string, ttl: int, now: int): Reply {
    if resource == "" then Reply(s, EmptyResource)
    else if Live(s, resource, now) then Reply(s, LockHeld)
    else
      var px, token := EffectiveTtl(ttl) / MILLISECOND, Fence(s, resource) + 1;
      if px == 0 then Reply(State(s.held - {resource}, s.fences[resource := token]), BadExpiry)
      else Reply(Grant(s, resource, px * MILLISECOND, now), Granted(Lease(resource, token, now + EffectiveTtl(ttl))))
  }

  function RedisRelease(s: State, lease: Lease, now: int): Reply {
    if !Live(s, lease.resource, now) then Reply(s, Ok)
    else if s.held[lease.resource].token != lease.token then Reply(s, Superseded)
    else Reply(s.(held := s.held - {lease.resource}), Ok)
  }

  predicate RedisPasses(s: State, lease: Lease, now: int) {
    && Fence(s, lease.resource) <= lease.token
    && Live(s, lease.resource, now) && s.held[lease.resource].token == lease.token
  }

  function RedisStep(s: State, op: Op, now: int): Reply {
    match op
    case Acquire(resource, ttl) => RedisAcquire(s, resource, ttl, now)
    case Release(lease) => RedisRelease(s, lease, now)
    case Guard(lease) => Reply(s, if RedisPasses(s, lease, now) then Ok else Superseded)
  }

  // ---- What an acquire grants ----

  /** How long a lease is asked to last: 15 s when no time to live is given. */
  predicate Asked(ttl: int, lifetime: int) { lifetime == if ttl > 0 then ttl else 15_000_000_000 }

  /** One resource is held under a new token, one above its fence, which moves to it; nothing else changes. */
  predicate Grants(s: State, s': State, resource: string, token: int, deadline: int) {
    && token == Fence(s, resource) + 1
    && s'.held == s.held[resource := Held(token, deadline)] && s'.fences == s.fences[resource := token]
  }

  /** The in-memory locker grants exactly a named resource that is free, for the time asked. */
  lemma LocalGrant(s: State, resource: string, ttl: int, now: int)
    ensures var r := LocalAcquire(s, resource, ttl, now);
            && (r.answer.EmptyResource? <==> resource == "")
            && (r.answer.LockHeld? <==> resource != "" && resource in s.held && s.held[resource].expiresAt > now)
            && (!r.answer.Granted? ==> r.state == s && (r.answer.EmptyResource? || r.answer.LockHeld?))
            && (r.answer.Granted? ==>
                  && r.answer.lease.resource == resource && Asked(ttl, r.answer.lease.expiresAt - now)
                  && Grants(s, r.state, resource, r.answer.lease.token, r.answer.lease.expiresAt))
  {
  }

  /** The Redis locker does too, but its key lasts whole milliseconds, rounded down; for less than one it grants
      nothing and has moved the fence. */
  lemma RedisGrant(s: State, resource: string, ttl: int, now: int)
    ensures var r := RedisAcquire(s, resource, ttl, now);
            && (r.answer.EmptyResource? <==> resource == "")
            && (r.answer.LockHeld? <==> resource != "" && resource in s.held && s.held[resource].expiresAt > now)
            && (r.answer.BadExpiry? <==> resource != "" && !r.answer.LockHeld? && 0 < ttl < 1_000_000)
            && (r.answer.EmptyResource? || r.answer.LockHeld? ==> r.state == s)
            && (r.answer.BadExpiry? ==>
                  && r.state.fences == s.fences[resource := Fence(s, resource) + 1]
                  && r.state.held == s.held - {resource})
            && (r.answer.Granted? ==>
                  && r.answer.lease.resource == resource && Asked(ttl, r.answer.lease.expiresAt - now)
                  && resource in r.state.held
                  && var deadline := r.state.held[resource].expiresAt;
                     && Grants(s, r.state, resource, r.answer.lease.token, deadline)
                     && (deadline - now) % 1_000_000 == 0 && 0 <= r.answer.lease.expiresAt - deadline < 1_000_000)
  {
  }

  // ---- Agreement ----

  /** The same fences, and the same locks in force. */
  ghost predicate Agree(a: State, b: State, now: int) {
    && a.fences == b.fences
    && forall r :: Live(a, r, now) == Live(b, r, now) && (Live(a, r, now) ==> a.held[r] == b.held[r])
  }

  predicate WholeMillis(ttl: int) { EffectiveTtl(ttl) % MILLISECOND == 0 }

  /** Agreement lasts as the clock moves on. */
  lemma AgreeLater(a: State, b: State, now: int, later: int)
    requires Agree(a, b, now) && now <= later
    ensures Agree(a, b, later)
  {
    forall r ensures Live(a, r, later) == Live(b, r, later) && (Live(a, r, later) ==> a.held[r] == b.held[r]) {
      assert Live(a, r, now) == Live(b, r, now);
    }
  }

  /** Both implementations give the same lease and agree from then on exactly when the lock is not free or
      its time to live is a whole number of milliseconds. */
  lemma AcquireAgrees(a: State, b: State, resource: string, ttl: int, now: int)
    requires Agree(a, b, now)
    ensures var x, y := LocalAcquire(a, resource, ttl, now), RedisAcquire(b, resource, ttl, now);
            (resource == "" || Live(a, resource, now) || WholeMillis(ttl))
            <==> (x.answer == y.answer && forall t :: t >= now ==> Agree(x.state, y.state, t))
  {
    var x, y := LocalAcquire(a, resource, ttl, now), RedisAcquire(b, resource, ttl, now);
    assert Live(a, resource, now) == Live(b, resource, now);
    var lifetime := EffectiveTtl(ttl);
    var rounded := lifetime / MILLISECOND * MILLISECOND;
    if resource == "" || Live(a, resource, now) || WholeMillis(ttl) {
      assert Agree(x.state, y.state, now);
      forall t | t >= now ensures Agree(x.state, y.state, t) { AgreeLater(x.state, y.state, now, t); }
    } else if lifetime >= MILLISECOND {
      assert x.state.held[resource].expiresAt == now + lifetime && y.state.held[resource].expiresAt == now + rounded;
      assert Live(x.state, resource, now + rounded) && !Live(y.state, resource, now + rounded);
      assert !Agree(x.state, y.state, now + rounded);
    }
  }

  /** A release has the same effect on what is in force; the answers differ exactly for a stale token on a
      lock that has expired but not been forgotten. */
  lemma ReleaseAgrees(a: State, b: State, lease: Lease, now: int)
    requires Agree(a, b, now)
    ensures Agree(LocalRelease(a, lease).state, RedisRelease(b, lease, now).state, now)
    ensures LocalRelease(a, lease).answer != RedisRelease(b, lease, now).answer
       <==> lease.resource in a.held && !Live(a, lease.resource, now) && a.held[lease.resource].token != lease.token
  {
    assert Live(a, lease.resource, now) == Live(b, lease.resource, now);
    var x, y := LocalRelease(a, lease).state, RedisRelease(b, lease, now).state;
    forall r ensures Live(x, r, now) == Live(y, r, now) && (Live(x, r, now) ==> x.held[r] == y.held[r]) {
      assert Live(a, r, now) == Live(b, r, now);
    }
  }

  lemma GuardAgrees(a: State, b: State, lease: Lease, now: int)
    requires Agree(a, b, now)
    ensures LocalPasses(a, lease, now) == RedisPasses(b, lease, now)
  {
    assert Live(a, lease.resource, now) == Live(b, lease.resource, now);
  }

  // ---- Runs under one clock ----

  datatype Call = Call(op: Op, now: int)

  ghost predicate Monotone(calls: seq<Call>) { forall i, j :: 0 <= i < j < |calls| ==> calls[i].now <= calls[j].now }

  function LocalRun(calls: seq<Call>): State {
    if calls == [] then NOTHING
    else var c := calls[|calls| - 1]; LocalStep(LocalRun(calls[..|calls| - 1]), c.op, c.now).state
  }

  function RedisRun(calls: seq<Call>): State {
    if calls == [] then NOTHING
    else var c := calls[|calls| - 1]; RedisStep(RedisRun(calls[..|calls| - 1]), c.op, c.now).state
  }

  function LocalAnswer(calls: seq<Call>, i: nat): Answer
    requires i < |calls|
  {
    LocalStep(LocalRun(calls[..i]), calls[i].op, calls[i].now).answer
  }

  function RedisAnswer(calls: seq<Call>, i: nat): Answer
    requires i < |calls|
  {
    RedisStep(RedisRun(calls[..i]), calls[i].op, calls[i].now).answer
  }

  ghost predicate AllWhole(calls: seq<Call>) {
    forall i :: 0 <= i < |calls| && calls[i].op.Acquire? ==> WholeMillis(calls[i].op.ttl)
  }

  /** After every operation of every run the two agree on what is in force and on the fences. */
  lemma {:induction false} RunsAgree(calls: seq<Call>, now: int)
    requires Monotone(calls) && AllWhole(calls)
    requires forall i :: 0 <= i < |calls| ==> calls[i].now <= now
    ensures Agree(LocalRun(calls), RedisRun(calls), now)
  {
    if calls != [] {
      var front, c := calls[..|calls| - 1], calls[|calls| - 1];
      RunsAgree(front, c.now);
      StepAgrees(LocalRun(front), RedisRun(front), c.op, c.now);
      AgreeLater(LocalRun(calls), RedisRun(calls), c.now, now);
    }
  }

  lemma StepAgrees(a: State, b: State, op: Op, now: int)
    requires Agree(a, b, now) && (op.Acquire? ==> WholeMillis(op.ttl))
    ensures Agree(LocalStep(a, op, now).state, RedisStep(b, op, now).state, now)
    ensures !op.Release? ==> LocalStep(a, op, now).answer == RedisStep(b, op, now).answer
  {
    hide Agree, LocalAcquire, RedisAcquire, LocalRelease, RedisRelease, LocalPasses, RedisPasses;
    match op
    case Acquire(resource, ttl) => AcquireAgrees(a, b, resource, ttl, now);
    case Release(lease) => ReleaseAgrees(a, b, lease, now);
    case Guard(lease) => GuardAgrees(a, b, lease, now);
  }

  /** Every acquire and every guard of every run has the same outcome in both. */
  lemma AnswersAgree(calls: seq<Call>, i: nat)
    requires Monotone(calls) && AllWhole(calls) && i < |calls| && !calls[i].op.Release?
    ensures LocalAnswer(calls, i) == RedisAnswer(calls, i)
  {
    RunsAgree(calls[..i], calls[i].now);
    StepAgrees(LocalRun(calls[..i]), RedisRun(calls[..i]), calls[i].op, calls[i].now);
  }

  // ---- The objects ----

  class Locker {
    var held: map<string, Held>
    var fences: map<string, int>

    function Contents(): State reads this { State(held, fences) }

    constructor ()
      ensures Contents() == NOTHING
    {
      held, fences := map[], map[];
    }

    method AcquireLock(resource: string, ttl: int, now: int) returns (answer: Answer)
      modifies this
      ensures Reply(Contents(), answer) == LocalStep(old(Contents()), Acquire(resource, ttl), now)
    {
      if resource == "" { return EmptyResource; }
      var lifetime := ttl;
      if lifetime <= 0 { lifetime := DEFAULT_LEASE_TTL; }
      if resource in held && held[resource].expiresAt > now { return LockHeld; }
      fences := fences[resource := (if resource in fences then fences[resource] else 0) + 1];
      var lease := Lease(resource, fences[resource], now + lifetime);
      held := held[resource := Held(lease.token, lease.expiresAt)];
      return Granted(lease);
    }

    method ReleaseLock(lease: Lease, now: int) returns (answer: Answer)
      modifies `held
      ensures Reply(Contents(), answer) == LocalStep(old(Contents()), Release(lease), now)
    {
      if lease.resource !in held { return Ok; }
      if held[lease.resource].token != lease.token { return Superseded; }
      held := held - {lease.resource};
      return Ok;
    }

    method GuardLock(lease: Lease, now: int) returns (answer: Answer)
      ensures Reply(Contents(), answer) == LocalStep(Contents(), Guard(lease), now)
    {
      if lease.resource !in held || held[lease.resource].token != lease.token { return Superseded; }
      if (if lease.resource in fences then fences[lease.resource] else 0) > lease.token { return Superseded; }
      if !(now < held[lease.resource].expiresAt) { return Superseded; }
      return Ok;
    }
  }

  /** The Redis keys the scripts touch: a visible lock key is one whose deadline has not come. */
  class RedisLocks {
    var locks: map<string, Held>
    var fences: map<string, int>

    function Contents(): State reads this { State(locks, fences) }

    constructor ()
      ensures Contents() == NOTHING
    {
      locks, fences := map[], map[];
    }

    method AcquireLock(resource: string, ttl: int, now: int) returns (answer: Answer)
      modifies this
      ensures Reply(Contents(), answer) == RedisStep(old(Contents()), Acquire(resource, ttl), now)
    {
      if resource == "" { return EmptyResource; }
      var lifetime := if ttl <= 0 then DEFAULT_LEASE_TTL else ttl;
      if resource in locks && locks[resource].expiresAt > now { return LockHeld; }
      var token := (if resource in fences then fences[resource] else 0) + 1;
      fences := fences[resource := token];
      if lifetime / MILLISECOND == 0 {
        locks := locks - {resource};
        return BadExpiry;
      }
      locks := locks[resource := Held(token, now + lifetime / MILLISECOND * MILLISECOND)];
      return Granted(Lease(resource, token, now + lifetime));
    }

    method ReleaseLock(lease: Lease, now: int) returns (answer: Answer)
      modifies `locks
      ensures Reply(Contents(), answer) == RedisStep(old(Contents()), Release(lease), now)
    {
      if lease.resource !in locks || locks[lease.resource].expiresAt <= now { return Ok; }
      if locks[lease.resource].token != lease.token { return Superseded; }
      locks := locks - {lease.resource};
      return Ok;
    }

    method GuardLock(lease: Lease, now: int) returns (answer: Answer)
      ensures Reply(Contents(), answer) == RedisStep(Contents(), Guard(lease), now)
    {
      if (if lease.resource in fences then fences[lease.resource] else 0) > lease.token { return Superseded; }
      if lease.resource !in locks || locks[lease.resource].expiresAt <= now
        || locks[lease.resource].token != lease.token {
        return Superseded;
      }
      return Ok;
    }
  }
}
