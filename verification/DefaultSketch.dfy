/** The aggregator with its default sketch (internal/aggregate/aggregator.go:74-93): what the percentiles of an
    emitted window mean for the events counted in it. */
module DefaultSketch {
  import opened Aggregation
  import opened DecimalText
  import opened Domain
  import opened Tallies
  import H = AggregatorHistory
  import S = Sketches
  import opened SketchMath

  ghost function Answer(alpha: real, vs: seq<int>, q: real): Option<int> {
    if ValidAccuracy(alpha) && 0.0 <= q <= 1.0 then Some(S.QuantileOf(alpha, vs, q)) else None
  }

  /** The aggregator's sketch is a sketch of the given accuracy. */
  ghost predicate UsesSketch(c: Config, alpha: real) {
    && ValidAccuracy(alpha)
    && (forall vs, q :: QuantileFrom(c.sketch, vs, q) == Answer(alpha, vs, q))
    && forall vs :: vs != [] && (forall v :: v in vs ==> IsInt64(v)) ==> S.IsPeak(vs, PeakFrom(c.sketch, vs))
  }

  /** It never fails, so a collection with it is never cut short. */
  lemma SketchAlwaysAnswers(c: Config, alpha: real)
    requires UsesSketch(c, alpha)
    ensures AlwaysAnswers(c.sketch)
  {
    forall vs ensures QuantileFrom(c.sketch, vs, 0.95).Some? && QuantileFrom(c.sketch, vs, 0.99).Some? {
      assert QuantileFrom(c.sketch, vs, 0.95) == Answer(alpha, vs, 0.95);
      assert QuantileFrom(c.sketch, vs, 0.99) == Answer(alpha, vs, 0.99);
    }
  }

  lemma {:induction false} LatenciesPresent(events: seq<Event>, ids: set<nat>)
    ensures |Latencies(events, ids)| == Tally(events, ids).count
    ensures forall v :: v in Latencies(events, ids) ==> exists e :: e in events && e.latencyNanos == v
  {
    if events != [] {
      var front := events[..|events| - 1];
      LatenciesPresent(front, ids);
      forall v | v in Latencies(events, ids) ensures exists e :: e in events && e.latencyNanos == v {
        if v in Latencies(front, ids) {
          var e :| e in front && e.latencyNanos == v;
          assert e in events;
        } else {
          assert events[|events| - 1] in events;
        }
      }
    }
  }

  /** In every run, every window ever emitted has p95 <= p99, each within the sketch's accuracy of the latency of
      rank floor(0.95 * (count - 1)), or floor(0.99 * (count - 1)), among the very events the window counts; and
      its maximum is the largest of those latencies. */
  lemma EmittedPercentiles(
    c: Config, alpha: real, seed: int, run: seq<H.History>, actions: seq<H.Action>, n: nat, s: int)
    requires H.IsRun(c, seed, run, actions) && n < |run| && s in run[n].emitted && UsesSketch(c, alpha)
    requires forall e :: e in run[n].admitted ==> IsInt64(e.latencyNanos)
    ensures var w := run[n].emitted[s];
            var latencies := Latencies(run[n].admitted, H.EmittedIds(run[n], s));
            && w.p95Nanos <= w.p99Nanos
            && |latencies| == w.count >= 1
            && S.Answers(alpha, latencies, 0.95, w.p95Nanos)
            && S.Answers(alpha, latencies, 0.99, w.p99Nanos)
            && S.IsPeak(latencies, w.maxNanos)
  {
    hide H.IsRun, Latencies, Tally, S.QuantileOf, S.OrderStatistic, S.IsStatistic, S.Answers;
    hide H.OpenAgrees, H.Placed, H.PendingAgrees, Identity;
    H.RunSound(c, seed, run, actions, n);
    var h := run[n];
    var w, latencies := h.emitted[s], Latencies(h.admitted, H.EmittedIds(h, s));
    assert H.EmissionAgrees(c, h, s);
    LatenciesPresent(h.admitted, H.EmittedIds(h, s));
    assert QuantileFrom(c.sketch, latencies, 0.95) == Answer(alpha, latencies, 0.95);
    assert QuantileFrom(c.sketch, latencies, 0.99) == Answer(alpha, latencies, 0.99);
    S.QuantileMonotone(alpha, latencies, 0.95, 0.99);
    S.QuantileAccuracy(alpha, latencies, 0.95);
    S.QuantileAccuracy(alpha, latencies, 0.99);
  }
}
