/** The aggregator service and the window fan-out (internal/aggregator/service.go, internal/app/fanout.go):
    publish every collected window, commit exactly those that were published. */
module Publishing {
  import opened Aggregation
  import opened AggregatorObject
  import opened DecimalText
  import opened Domain

  type Error = string

  /** The first error of a list of answers, if any is an error. */
  function FirstError(answers: seq<Option<Error>>): Option<Error> {
    if answers == [] then None else if answers[0].Some? then answers[0] else FirstError(answers[1..])
  }

  lemma {:induction false} FirstErrorAppend(answers: seq<Option<Error>>, answer: Option<Error>)
    ensures FirstError(answers + [answer]) == if FirstError(answers).Some? then FirstError(answers) else answer
  {
    if answers == [] {
      assert ([answer])[1..] == [];
    } else {
      assert (answers + [answer])[1..] == answers[1..] + [answer];
      FirstErrorAppend(answers[1..], answer);
    }
  }

  /** Publishing succeeded as a whole exactly when every answer was a success. */
  lemma {:induction false} NoFirstError(answers: seq<Option<Error>>)
    ensures FirstError(answers).None? <==> forall i :: 0 <= i < |answers| ==> answers[i].None?
  {
    if answers != [] {
      NoFirstError(answers[1..]);
      assert forall i :: 1 <= i < |answers| ==> answers[i] == answers[1..][i - 1];
    }
  }

  /** `fanOutWindows.PublishWindow`: every target is asked, whatever the ones before it answered; the
      first error is reported. */
  method FanOut(answers: seq<Option<Error>>) returns (asked: nat, firstErr: Option<Error>)
    ensures asked == |answers|
    ensures firstErr == FirstError(answers)
  {
    asked, firstErr := 0, None;
    for i := 0 to |answers|
      invariant asked == i && firstErr == FirstError(answers[..i])
    {
      assert answers[..i + 1] == answers[..i] + [answers[i]];
      FirstErrorAppend(answers[..i], answers[i]);
      asked := asked + 1;
      if answers[i].Some? && firstErr.None? { firstErr := answers[i]; }
    }
    assert answers[..|answers|] == answers;
  }

  /** The windows whose publication was answered with success, in order. */
  function Published(windows: seq<AggregateWindow>, answers: seq<Option<Error>>): (ws: seq<AggregateWindow>)
    requires |answers| == |windows|
    ensures |ws| <= |windows|
  {
    if windows == [] then []
    else
      var last := |windows| - 1;
      var before := Published(windows[..last], answers[..last]);
      if answers[last].None? then before + [windows[last]] else before
  }

  /** A window is kept for retry exactly when its publication failed. */
  lemma {:induction false} PublishedOnes(windows: seq<AggregateWindow>, answers: seq<Option<Error>>, w: AggregateWindow)
    requires |answers| == |windows|
    ensures w in Published(windows, answers) <==> exists i :: 0 <= i < |windows| && windows[i] == w && answers[i].None?
  {
    if windows != [] {
      var last := |windows| - 1;
      PublishedOnes(windows[..last], answers[..last], w);
      assert forall i :: 0 <= i < last ==> windows[..last][i] == windows[i] && answers[..last][i] == answers[i];
    }
  }

  /** What the publisher answers for each window of one emit. */
  function AnswerFor(publisher: AggregateWindow -> Option<Error>, w: AggregateWindow): Option<Error> { publisher(w) }

  function Answers(publisher: AggregateWindow -> Option<Error>, windows: seq<AggregateWindow>): seq<Option<Error>> {
    seq(|windows|, i requires 0 <= i < |windows| => AnswerFor(publisher, windows[i]))
  }

  class Service {
    const source: Aggregator
    var windowsEmitted: int
    var windowsRetained: int
    var batchesConsumed: int
    var eventsShed: int
    var lastShed: int

    constructor (source: Aggregator)
      ensures this.source == source
      ensures windowsEmitted == windowsRetained == batchesConsumed == eventsShed == lastShed == 0
    {
      this.source := source;
      windowsEmitted, windowsRetained, batchesConsumed, eventsShed, lastShed := 0, 0, 0, 0, 0;
    }

    /** Ingests a batch; the shed metric always equals what the aggregator has shed. */
    method HandleBatch(events: seq<Event>, sketchOk: seq<bool>) returns (ok: bool)
      requires source.Valid() && |sketchOk| == |events|
      requires eventsShed == lastShed
      modifies this`batchesConsumed, this`eventsShed, this`lastShed, source`open, source`shed
      ensures source.Valid()
      ensures var r := IngestBatch(source.config, old(source.View()), events, sketchOk);
              source.View() == r.agg && ok == !r.failed
      ensures eventsShed == lastShed && (ok ==> lastShed == source.shed)
      ensures batchesConsumed == old(batchesConsumed) + if ok then 1 else 0
    {
      ok := source.IngestBatch(events, sketchOk);
      if !ok { return; }
      batchesConsumed := batchesConsumed + 1;
      var delta := source.shed - lastShed;
      lastShed := source.shed;
      eventsShed := eventsShed + delta;
    }

    /** Publishes the windows one by one and commits those that succeeded. */
    method Publish(windows: seq<AggregateWindow>, publisher: AggregateWindow -> Option<Error>)
      returns (failure: Option<Error>)
      requires source.Valid()
      modifies this`windowsEmitted, this`windowsRetained, source`pending
      ensures source.Valid()
      ensures var answers := Answers(publisher, windows);
              var published := Published(windows, answers);
              && source.View() == Commit(old(source.View()), published)
              && failure == FirstError(answers)
              && windowsEmitted == old(windowsEmitted) + |published|
              && windowsRetained == old(windowsRetained) + |windows| - |published|
    {
      hide Identity;
      var published: seq<AggregateWindow> := [];
      failure := None;
      for i := 0 to |windows|
        invariant unchanged(this) && unchanged(source)
        invariant published == Published(windows[..i], Answers(publisher, windows[..i]))
        invariant failure == FirstError(Answers(publisher, windows[..i]))
        invariant failure.None? ==> |published| == i
      {
        var answer := AnswerFor(publisher, windows[i]);
        assert windows[..i + 1][..i] == windows[..i];
        assert Answers(publisher, windows[..i + 1]) == Answers(publisher, windows[..i]) + [answer];
        assert Answers(publisher, windows[..i + 1])[..i] == Answers(publisher, windows[..i]);
        FirstErrorAppend(Answers(publisher, windows[..i]), answer);
        if answer.Some? {
          if failure.None? { failure := answer; }
        } else {
          published := published + [windows[i]];
        }
      }
      assert windows[..|windows|] == windows;
      source.Commit(published);
      windowsEmitted := windowsEmitted + |published|;
      if failure.Some? { windowsRetained := windowsRetained + |windows| - |published|; }
    }
  }
}
