/** The kernel side of the agent (bpf/ironclaw.c), one CPU: the pairing of system call entries with exits,
    the one-second rate limiter and the drop counters. Words are 64-bit and wrap. */
module RateLimiter {
  import opened DecimalText

  const WORD := 0x1_0000_0000_0000_0000
  const HALF_WORD := 0x1_0000_0000
  const SECOND := 1_000_000_000
  const MAX_ERRNO := 4095

  type Word = x: int | 0 <= x < WORD

  /** Subtraction and increment modulo the word size. */
  function Sub(a: Word, b: Word): (r: Word)
    ensures r == (a - b) % WORD
  {
    if a >= b then a - b else a - b + WORD
  }

  function Inc(a: Word): (r: Word)
    ensures r == (a + 1) % WORD
  {
    if a == WORD - 1 then 0 else a + 1
  }

  datatype Settings = Settings(minLatency: Word, cap: Word, sampleModulus: nat, targetTgid: nat, enabled: bool)

  datatype Rate = Rate(windowStart: Word, emitted: Word)

  datatype Stats = Stats(observed: Word, emitted: Word, ringbuf: Word, rate: Word, filter: Word, unpaired: Word)

  datatype Cpu = Cpu(rate: Rate, stats: Stats)

  const BOOT := Cpu(Rate(0, 0), Stats(0, 0, 0, 0, 0, 0))

  /** How the program disposed of one exit. */
  datatype Outcome = Disabled | Unpaired | Filtered | Limited | RingFull | Emitted

  /** One system call exit: the settings in force, the paired entry time if any, the clock, and whether
      the ring buffer has room. */
  datatype Exit = Exit(settings: Settings, started: Option<Word>, now: Word, ringOk: bool)

  /** The state the limiter decides on: a new window once a second has passed. */
  function Windowed(r: Rate, now: Word): Rate {
    if r.windowStart == 0 || Sub(now, r.windowStart) >= SECOND then Rate(now, 0) else r
  }

  predicate Full(cap: Word, r: Rate) { cap != 0 && r.emitted >= cap }

  function Limit(cap: Word, r: Rate, now: Word): Rate {
    var w := Windowed(r, now);
    if Full(cap, w) then w else w.(emitted := Inc(w.emitted))
  }

  function Judge(r: Rate, x: Exit): Outcome {
    if !x.settings.enabled then Disabled
    else if x.started.None? then Unpaired
    else if Sub(x.now, x.started.value) < x.settings.minLatency then Filtered
    else if Full(x.settings.cap, Windowed(r, x.now)) then Limited
    else if !x.ringOk then RingFull
    else Emitted
  }

  predicate ReachesLimiter(o: Outcome) { o.Limited? || o.RingFull? || o.Emitted? }

  predicate Admitted(o: Outcome) { o.RingFull? || o.Emitted? }

  function Count(s: Stats, o: Outcome): Stats {
    var t := if o.Disabled? || o.Unpaired? then s else s.(observed := Inc(s.observed));
    match o
    case Disabled => t
    case Unpaired => t.(unpaired := Inc(t.unpaired))
    case Filtered => t.(filter := Inc(t.filter))
    case Limited => t.(rate := Inc(t.rate))
    case RingFull => t.(ringbuf := Inc(t.ringbuf))
    case Emitted => t.(emitted := Inc(t.emitted))
  }

  function Next(k: Cpu, x: Exit): Cpu {
    var o := Judge(k.rate, x);
    Cpu(if ReachesLimiter(o) then Limit(x.settings.cap, k.rate, x.now) else k.rate, Count(k.stats, o))
  }

  function After(xs: seq<Exit>): Cpu {
    if xs == [] then BOOT else Next(After(xs[..|xs| - 1]), xs[|xs| - 1])
  }

  function OutcomeAt(xs: seq<Exit>, i: nat): Outcome
    requires i < |xs|
  {
    Judge(After(xs[..i]).rate, xs[i])
  }

  // ---- Counters ----

  predicate Balanced(s: Stats) { (s.emitted + s.filter + s.rate + s.ringbuf - s.observed) % WORD == 0 }

  lemma Wrapped(x: int)
    requires x % WORD == 0
    ensures (x + WORD) % WORD == 0 && (x - WORD) % WORD == 0
  {
  }

  lemma CountBalances(s: Stats, o: Outcome)
    requires Balanced(s)
    ensures Balanced(Count(s, o))
  {
    Wrapped(s.emitted + s.filter + s.rate + s.ringbuf - s.observed);
  }

  /** How many exits ended in the given way. */
  function Times(xs: seq<Exit>, o: Outcome): nat {
    if xs == [] then 0 else Times(xs[..|xs| - 1], o) + if OutcomeAt(xs, |xs| - 1) == o then 1 else 0
  }

  lemma IncCounts(a: Word, n: nat)
    requires a == n % WORD
    ensures Inc(a) == (n + 1) % WORD
  {
  }

  function CounterFor(s: Stats, o: Outcome): Word {
    match o
    case Emitted => s.emitted
    case Filtered => s.filter
    case Limited => s.rate
    case RingFull => s.ringbuf
    case Unpaired => s.unpaired
    case Disabled => 0
  }

  /** Each counter counts its own outcome, modulo the word size. */
  lemma {:induction false} CountersCount(xs: seq<Exit>, o: Outcome)
    requires !o.Disabled?
    ensures CounterFor(After(xs).stats, o) == Times(xs, o) % WORD
  {
    if xs != [] {
      hide Judge, Limit, Inc;
      var front := xs[..|xs| - 1];
      CountersCount(front, o);
      IncCounts(CounterFor(After(front).stats, o), Times(front, o));
    }
  }

  /** Every observed exit is emitted or counted under exactly one drop reason. */
  lemma {:induction false} ObservedAccounted(xs: seq<Exit>)
    ensures Balanced(After(xs).stats)
  {
    if xs != [] {
      hide Judge, Limit, Count, Balanced;
      ObservedAccounted(xs[..|xs| - 1]);
      CountBalances(After(xs[..|xs| - 1]).stats, OutcomeAt(xs, |xs| - 1));
    } else {
      assert Balanced(BOOT.stats);
    }
  }

  // ---- What the filters let through ----

  /** An exit is filtered exactly when the program is on, its entry is known and it took less than the least
      latency asked for, in wrapping time. */
  lemma FilteredIff(xs: seq<Exit>, i: nat)
    requires i < |xs|
    ensures var x := xs[i];
            OutcomeAt(xs, i).Filtered?
            <==> x.settings.enabled && x.started.Some? && (x.now - x.started.value) % WORD < x.settings.minLatency
  {
  }

  /** With the cap at zero nothing is ever limited; above zero, exactly when the window in force, or a new one,
      has spent its cap. */
  lemma LimitedIff(xs: seq<Exit>, i: nat)
    requires i < |xs|
    ensures var x, r := xs[i], After(xs[..i]).rate;
            var passes := x.settings.enabled && x.started.Some?
                          && (x.now - x.started.value) % WORD >= x.settings.minLatency;
            var reopens := r.windowStart == 0 || (x.now - r.windowStart) % WORD >= 1_000_000_000;
            OutcomeAt(xs, i).Limited? <==> passes && x.settings.cap > 0 && !reopens && r.emitted >= x.settings.cap
  {
  }

  lemma NoCapNoLimit(xs: seq<Exit>, i: nat)
    requires i < |xs| && xs[i].settings.cap == 0
    ensures !OutcomeAt(xs, i).Limited?
  {
    LimitedIff(xs, i);
  }

  // ---- The rate bound ----

  /** Clock readings that are positive and never go back, under one cap. */
  ghost predicate Steady(xs: seq<Exit>, cap: Word) {
    && (forall i :: 0 <= i < |xs| ==> xs[i].settings.cap == cap && 0 < xs[i].now)
    && (forall i, j :: 0 <= i < j < |xs| ==> xs[i].now <= xs[j].now)
  }

  /** The exits admitted between two clock readings. */
  function AdmittedBetween(xs: seq<Exit>, from: nat, until: nat): nat {
    if xs == [] then 0
    else
      var last := |xs| - 1;
      AdmittedBetween(xs[..last], from, until)
        + if Admitted(OutcomeAt(xs, last)) && from <= xs[last].now < until then 1 else 0
  }

  /** The exits admitted in the limiter window opened at `start`. */
  function AdmittedUnder(xs: seq<Exit>, start: nat): nat {
    if xs == [] then 0
    else
      var last := |xs| - 1;
      AdmittedUnder(xs[..last], start)
        + if Admitted(OutcomeAt(xs, last)) && After(xs).rate.windowStart == start then 1 else 0
  }

  /** The limiter's window opened at a reading already seen. */
  lemma {:induction false} WindowSeen(xs: seq<Exit>, cap: Word)
    requires Steady(xs, cap) && cap > 0
    ensures var r := After(xs).rate;
            && r.emitted <= cap
            && (r.windowStart == 0 ==> r.emitted == 0)
            && (r.windowStart > 0 ==> r.emitted >= 1 && xs != [] && r.windowStart <= xs[|xs| - 1].now)
  {
    if xs != [] { WindowSeen(xs[..|xs| - 1], cap); }
  }

  /** One limiter window admits at most the cap. */
  lemma {:induction false} CapPerWindow(xs: seq<Exit>, cap: Word, start: nat)
    requires Steady(xs, cap) && cap > 0 && start > 0
    ensures AdmittedUnder(xs, start) <= cap
    ensures After(xs).rate.windowStart == start ==> AdmittedUnder(xs, start) == After(xs).rate.emitted
    ensures After(xs).rate.windowStart < start ==> AdmittedUnder(xs, start) == 0
  {
    if xs != [] {
      var front := xs[..|xs| - 1];
      CapPerWindow(front, cap, start);
      WindowSeen(front, cap);
    }
  }

  /** What the limiter's state says about the admissions since `from`. */
  ghost predicate Spent(r: Rate, cap: Word, from: nat, admitted: nat, last: nat) {
    && (last < from ==> admitted == 0)
    && (r.windowStart == 0 ==> admitted == 0)
    && (0 < r.windowStart < from ==> admitted + 1 <= r.emitted)
    && (from <= r.windowStart < from + SECOND && r.windowStart > 0 ==> admitted <= cap - 1 + r.emitted)
    && (r.windowStart >= from + SECOND ==> admitted <= 2 * cap - 1)
  }

  lemma {:induction false} SpentAlways(xs: seq<Exit>, cap: Word, from: nat)
    requires Steady(xs, cap) && cap > 0
    ensures Spent(After(xs).rate, cap, from, AdmittedBetween(xs, from, from + SECOND),
                  if xs == [] then 0 else xs[|xs| - 1].now)
  {
    if xs != [] {
      var front := xs[..|xs| - 1];
      SpentAlways(front, cap, from);
      WindowSeen(front, cap);
    }
  }

  /** No one-second interval admits more than twice the cap less one. */
  lemma CapPerSecond(xs: seq<Exit>, cap: Word, from: nat)
    requires Steady(xs, cap) && cap > 0
    ensures AdmittedBetween(xs, from, from + SECOND) <= 2 * cap - 1
  {
    SpentAlways(xs, cap, from);
    WindowSeen(xs, cap);
  }

  // ---- The bound is attained ----

  function Call(cap: Word, now: Word): Exit { Exit(Settings(0, cap, 0, 0, true), Some(0), now, true) }

  /** One call opening a window at 1, the rest of its cap at the window's last instant, and a full cap at
      the start of the next. */
  function Burst(cap: Word, n: nat): (xs: seq<Exit>)
    ensures |xs| == n && forall i :: 0 <= i < n ==> xs[i] == Call(cap, BurstTime(cap, i))
  {
    seq(n, i requires 0 <= i < n => Call(cap, BurstTime(cap, i)))
  }

  function BurstTime(cap: Word, i: nat): Word { if i == 0 then 1 else if i < cap then SECOND else SECOND + 1 }

  lemma BurstStep(cap: Word, n: nat)
    requires 0 < n
    ensures Burst(cap, n)[..n - 1] == Burst(cap, n - 1)
    ensures Burst(cap, n)[n - 1] == Call(cap, BurstTime(cap, n - 1))
  {
  }

  /** The limiter's state before and after the burst's calls. */
  function BurstRate(cap: Word, n: nat): Rate
    requires 0 < cap && n <= 2 * cap
  {
    if n == 0 then Rate(0, 0) else if n <= cap then Rate(1, n) else Rate(SECOND + 1, n - cap)
  }

  lemma BurstLimit(cap: Word, n: nat)
    requires 0 < cap && n < 2 * cap
    ensures Limit(cap, BurstRate(cap, n), BurstTime(cap, n)) == BurstRate(cap, n + 1)
    ensures Judge(BurstRate(cap, n), Call(cap, BurstTime(cap, n))).Emitted?
  {
  }

  lemma {:induction false} BurstCounts(cap: Word, n: nat)
    requires 0 < cap && n <= 2 * cap
    ensures After(Burst(cap, n)).rate == BurstRate(cap, n)
    ensures AdmittedBetween(Burst(cap, n), SECOND, 2 * SECOND) == if n == 0 then 0 else n - 1
  {
    hide Burst, Count, Judge, Limit;
    if n > 0 {
      BurstLimit(cap, n - 1);
      BurstStep(cap, n);
      BurstCounts(cap, n - 1);
    }
  }

  lemma BoundAttained(cap: Word)
    requires 0 < cap
    ensures exists xs :: Steady(xs, cap) && AdmittedBetween(xs, SECOND, SECOND + SECOND) == 2 * cap - 1
  {
    hide After, AdmittedBetween;
    BurstCounts(cap, 2 * cap);
    var xs := Burst(cap, 2 * cap);
    assert Steady(xs, cap);
    assert AdmittedBetween(xs, SECOND, 2 * SECOND) == 2 * cap - 1;
  }

  /** A clock reading of zero defeats the limiter: every call at it opens a new window. */
  lemma {:induction false} ZeroClockUnlimited(cap: Word, n: nat)
    requires 0 < cap
    ensures AdmittedBetween(seq(n, _ => Call(cap, 0)), 0, SECOND) == n
    ensures n > 0 ==> After(seq(n, _ => Call(cap, 0))).rate.windowStart == 0
  {
    if n > 0 {
      ZeroClockUnlimited(cap, n - 1);
      assert seq(n, _ => Call(cap, 0))[..n - 1] == seq(n - 1, _ => Call(cap, 0));
    }
  }

  // ---- The program ----

  datatype Record = Record(timestamp: Word, latency: Word, ret: int, pid: nat, tgid: nat, syscall: int, failed: bool)

  function SampledOut(s: Settings, tgid: nat): bool { s.sampleModulus > 1 && tgid % s.sampleModulus != 0 }

  /** Sampling keeps the process groups that are multiples of the modulus, and all of them below two. */
  lemma SampledOutIff(s: Settings, tgid: nat)
    ensures !SampledOut(s, tgid) <==> s.sampleModulus <= 1 || exists k: nat :: Multiple(tgid, k, s.sampleModulus)
  {
    var m := s.sampleModulus;
    if m > 1 {
      if tgid % m == 0 { assert Multiple(tgid, tgid / m, m); }
      if k: nat :| Multiple(tgid, k, m) { MultipleMod(k, m); }
    }
  }

  predicate Multiple(n: nat, k: nat, m: nat) { n == k * m }

  lemma MultipleMod(k: nat, m: nat)
    requires m > 0
    ensures (k * m) % m == 0
  {
    var q, r := k * m / m, k * m % m;
    assert k * m == m * q + r;
    AtLeast(k, q, m);
    AtLeast(q, k, m);
  }

  lemma AtLeast(x: int, y: int, m: nat)
    requires m > 0
    ensures x > y ==> x * m >= m * y + m
  {
    if x > y {
      OneOrMore(x - y, m);
      assert x * m == (x - y) * m + y * m;
    }
  }

  lemma {:induction false} OneOrMore(d: nat, m: nat)
    requires d > 0
    ensures d * m >= m
  {
    if d > 1 {
      OneOrMore(d - 1, m);
      assert d * m == (d - 1) * m + m;
    }
  }

  function Tracked(s: Settings, pidTgid: Word): bool {
    && s.enabled && (s.targetTgid == 0 || pidTgid / HALF_WORD == s.targetTgid)
    && !SampledOut(s, pidTgid / HALF_WORD)
  }

  class Probe {
    var windowStart: Word
    var emitted: Word
    var stats: Stats
    var starts: map<Word, Word>

    ghost predicate Valid() reads this { Balanced(stats) }

    function State(): Cpu reads this { Cpu(Rate(windowStart, emitted), stats) }

    constructor ()
      ensures Valid() && State() == BOOT && starts == map[]
    {
      windowStart, emitted, stats, starts := 0, 0, BOOT.stats, map[];
    }

    /** `rate_limited`. */
    method RateLimited(cap: Word, now: Word) returns (limited: bool)
      modifies `windowStart, `emitted
      ensures limited == Full(cap, Windowed(old(State()).rate, now))
      ensures State().rate == Limit(cap, old(State()).rate, now)
    {
      if windowStart == 0 || Sub(now, windowStart) >= SECOND {
        windowStart := now;
        emitted := 0;
      }
      if cap != 0 && emitted >= cap { return true; }
      emitted := Inc(emitted);
      return false;
    }

    /** `ironclaw_sys_enter`. */
    method SysEnter(s: Settings, pidTgid: Word, now: Word)
      modifies `starts
      ensures starts == if Tracked(s, pidTgid) then old(starts)[pidTgid := now] else old(starts)
    {
      if !s.enabled { return; }
      if s.targetTgid != 0 && pidTgid / HALF_WORD != s.targetTgid { return; }
      if SampledOut(s, pidTgid / HALF_WORD) { return; }
      starts := starts[pidTgid := now];
    }

    /** The least recently used entry may vanish at any time, paired or not. */
    method Forget(pidTgid: Word)
      modifies `starts
      ensures starts == old(starts) - {pidTgid}
    {
      starts := starts - {pidTgid};
    }

    /** `ironclaw_sys_exit`: the record submitted, if any. */
    method SysExit(s: Settings, pidTgid: Word, now: Word, ringOk: bool, syscall: int, ret: int)
      returns (record: Option<Record>)
      requires Valid()
      modifies this
      ensures Valid()
      ensures var x := Exit(s, if pidTgid in old(starts) then Some(old(starts)[pidTgid]) else None, now, ringOk);
              && State() == Next(old(State()), x)
              && (record.Some? <==> Judge(old(State()).rate, x).Emitted?)
      ensures starts == if s.enabled then old(starts) - {pidTgid} else old(starts)
      ensures record.Some? ==> record.value == Record(now, Sub(now, old(starts)[pidTgid]), ret, pidTgid % HALF_WORD,
                                                      pidTgid / HALF_WORD, syscall, -MAX_ERRNO <= ret < 0)
    {
      ghost var x := Exit(s, if pidTgid in starts then Some(starts[pidTgid]) else None, now, ringOk);
      CountBalances(stats, Judge(State().rate, x));
      record := None;
      if !s.enabled { return; }
      if pidTgid !in starts {
        stats := stats.(unpaired := Inc(stats.unpaired));
        assert starts - {pidTgid} == starts;
        return;
      }
      var latency := Sub(now, starts[pidTgid]);
      starts := starts - {pidTgid};
      stats := stats.(observed := Inc(stats.observed));
      if latency < s.minLatency {
        stats := stats.(filter := Inc(stats.filter));
        return;
      }
      var limited := RateLimited(s.cap, now);
      if limited {
        stats := stats.(rate := Inc(stats.rate));
        return;
      }
      if !ringOk {
        stats := stats.(ringbuf := Inc(stats.ringbuf));
        return;
      }
      record := Some(Record(now, latency, ret, pidTgid % HALF_WORD, pidTgid / HALF_WORD, syscall,
                            ret < 0 && ret >= -MAX_ERRNO));
      stats := stats.(emitted := Inc(stats.emitted));
    }
  }
}
