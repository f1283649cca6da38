/** The aggregator object (internal/aggregate/aggregator.go): its methods, loops and maps, each proved
    against what `Aggregation` says one call does. */
module AggregatorObject {
  import opened Aggregation
  import opened DecimalText
  import opened Domain
  import opened Ordering

  class Aggregator {
    const config: Config
    var open: map<WindowKey, WindowState>
    var pending: map<string, AggregateWindow>
    var sequence: int
    var shed: int

    ghost function View(): Agg
      reads this
    {
      Agg(open, pending, sequence, shed)
    }

    /** Pending emissions are filed under their own identity. */
    ghost predicate Valid()
      reads this
    {
      ValidConfig(config) && forall id :: id in pending ==> Identity(pending[id]) == id
    }

    /** A zero seed takes the clock instead. */
    constructor (config: Config, sequenceSeed: int, nowNanos: int)
      requires ValidConfig(config)
      ensures Valid() && this.config == config
      ensures View() == Start(if sequenceSeed == 0 then nowNanos else sequenceSeed)
    {
      this.config := config;
      open, pending, shed := map[], map[], 0;
      sequence := if sequenceSeed == 0 then nowNanos else sequenceSeed;
    }

    method IngestLocked(event: Event, sketchOk: bool) returns (verdict: Verdict)
      requires Valid() && event.Valid()
      modifies this`open, this`shed
      ensures Valid()
      ensures (View(), verdict) == IngestOne(config, old(View()), event, sketchOk)
      ensures Ingests(config, old(View()), event, sketchOk, View(), verdict)
    {
      hide Identity, WindowID, Ingests;
      IngestMeaning(config, View(), event, sketchOk);
      var key := KeyOf(config, event);
      var state := FRESH;
      if key in open {
        state := open[key];
      } else {
        if config.maxOpenWindows > 0 && |open| + |pending| >= config.maxOpenWindows {
          shed := shed + 1;
          return Shed;
        }
        if !sketchOk { return SketchFailed; }
      }
      open := open[key := Count(state, event)];
      return Admitted;
    }

    method IngestBatch(events: seq<Event>, sketchOk: seq<bool>) returns (ok: bool)
      requires Valid() && |sketchOk| == |events|
      modifies this`open, this`shed
      ensures Valid()
      ensures var r := Aggregation.IngestBatch(config, old(View()), events, sketchOk);
              View() == r.agg && ok == !r.failed
    {
      hide Identity, IngestOne;
      for i := 0 to |events|
        invariant forall k :: 0 <= k < i ==> events[k].Valid()
        invariant View() == old(View())
      {
        if !events[i].Valid() { return false; }
      }
      assert forall e :: e in events ==> e.Valid();
      for i := 0 to |events|
        invariant Valid()
        invariant var r := IngestAll(config, old(View()), events[..i], sketchOk[..i]); View() == r.agg && !r.failed
      {
        assert events[..i + 1][..i] == events[..i] && sketchOk[..i + 1][..i] == sketchOk[..i];
        var verdict := IngestLocked(events[i], sketchOk[i]);
        if verdict.SketchFailed? {
          FailureEndsBatch(config, old(View()), events, sketchOk, i + 1);
          return false;
        }
      }
      assert events[..|events|] == events && sketchOk[..|events|] == sketchOk;
      return true;
    }

    /** Ranges over the open windows, keeps the selected keys and sorts them. */
    method SelectKeys(s: Selection) returns (keys: seq<WindowKey>)
      ensures keys == SelectedInOrder(View(), s)
    {
      var found := Range(open.Keys);
      keys := [];
      for i := 0 to |found|
        invariant forall key :: key in keys <==> key in found[..i] && Selects(s, key)
        invariant forall m, n :: 0 <= m < n < |keys| ==> keys[m] != keys[n]
      {
        assert found[i] !in found[..i];
        if Selects(s, found[i]) { keys := keys + [found[i]]; }
      }
      assert found[..|found|] == found;
      KeyBeforeTotal();
      SortedRange(KeyBefore, Selected(View(), s), keys);
      keys := SortBy(KeyBefore, keys);
    }

    method PendingWindows() returns (ws: seq<AggregateWindow>)
      requires Valid()
      ensures ws == PendingInOrder(pending)
    {
      hide Identity;
      var found := Range(pending.Keys);
      var ids: seq<string> := [];
      for i := 0 to |found|
        invariant ids == found[..i]
      {
        ids := ids + [Identity(pending[found[i]])];
      }
      StringLessTotal();
      SortedRange(StringLess, pending.Keys, ids);
      ids := SortBy(StringLess, ids);
      ws := WindowsAt(pending, ids);
    }

    /** Moves one open window to pending under the next sequence, unless its sketch cannot answer. */
    method EmitOne(key: WindowKey) returns (emission: Option<AggregateWindow>)
      requires Valid() && key in open
      modifies this`open, this`pending, this`sequence
      ensures Valid()
      ensures emission == EmissionOf(config, key, old(open)[key], old(sequence) + 1)
      ensures View() == if emission.None? then old(View()) else Emit(old(View()), key, emission.value)
    {
      hide Identity;
      emission := EmissionOf(config, key, open[key], sequence + 1);
      if emission.None? { return; }
      sequence := sequence + 1;
      open := open - {key};
      pending := pending[Identity(emission.value) := emission.value];
    }

    /** The loop of `collect` over the selected keys. */
    method EmitAll(keys: seq<WindowKey>) returns (ok: bool, windows: seq<AggregateWindow>)
      requires Valid()
      requires forall i, j :: 0 <= i < j < |keys| ==> keys[i] != keys[j]
      requires forall key :: key in keys ==> key in open
      modifies this`open, this`pending, this`sequence
      ensures Valid()
      ensures var r := EmitKeys(config, old(View()), keys);
              View() == r.agg && ok == !r.failed && (ok ==> windows == r.windows)
    {
      hide Identity, EmissionOf;
      ok, windows := true, [];
      for i := 0 to |keys|
        invariant Valid() && ok
        invariant EmitKeys(config, old(View()), keys[..i]) == Collected(View(), windows, false)
        invariant forall k :: i <= k < |keys| ==> keys[k] in open
      {
        assert keys[..i + 1][..i] == keys[..i];
        var emission := EmitOne(keys[i]);
        if emission.None? {
          FailureEndsCollection(config, old(View()), keys, i + 1);
          return false, [];
        }
        windows := windows + [emission.value];
      }
      assert keys[..|keys|] == keys;
    }

    /** `collect`. On a sketch failure the windows already moved stay pending and nothing is returned. */
    method CollectSelected(s: Selection) returns (result: Option<seq<AggregateWindow>>)
      requires Valid()
      modifies this`open, this`pending, this`sequence
      ensures Valid()
      ensures var r := Collect(config, old(View()), s);
              View() == r.agg && result == if r.failed then None else Some(r.windows)
    {
      var keys := SelectKeys(s);
      var retried := PendingWindows();
      var ok, windows := EmitAll(keys);
      result := if ok then Some(retried + windows) else None;
    }

    /** The windows over at the watermark, and only they, leave; the others stay even if it is cut short. */
    method CollectWindowsBefore(watermark: int) returns (result: Option<seq<AggregateWindow>>)
      requires Valid()
      modifies this`open, this`pending, this`sequence
      ensures Valid()
      ensures var r := Collect(config, old(View()), Before(WindowID(config, watermark)));
              View() == r.agg && result == if r.failed then None else Some(r.windows)
      ensures AlwaysAnswers(config.sketch) ==> result.Some?
      ensures var due := set key | key in old(open) && Closed(config, key.windowID, watermark);
              && (result.Some? ==> Collects(config, old(View()), open, result.value, due))
              && (forall key :: key in old(open) && key !in due ==> key in open && open[key] == old(open)[key])
    {
      hide Identity, Collect, Collects, WindowID, Closed, Selects, AlwaysAnswers;
      ghost var due := set key | key in open && Closed(config, key.windowID, watermark);
      forall key
        ensures Selects(Before(WindowID(config, watermark)), key) <==> Closed(config, key.windowID, watermark)
      {
        BeforeIsClosed(config, key, watermark);
      }
      CollectMeaning(config, View(), Before(WindowID(config, watermark)), due);
      result := CollectSelected(Before(WindowID(config, watermark)));
    }

    /** All windows leave. */
    method CollectAll() returns (result: Option<seq<AggregateWindow>>)
      requires Valid()
      modifies this`open, this`pending, this`sequence
      ensures Valid()
      ensures var r := Collect(config, old(View()), Everything);
              View() == r.agg && result == if r.failed then None else Some(r.windows)
      ensures AlwaysAnswers(config.sketch) ==> result.Some?
      ensures result.Some? ==> open == map[] && Collects(config, old(View()), open, result.value, old(open).Keys)
    {
      hide Identity, Collect, AlwaysAnswers, Emits, Relists;
      assert open.Keys == set key | key in open && Selects(Everything, key);
      CollectMeaning(config, View(), Everything, open.Keys);
      result := CollectSelected(Everything);
    }

    method Commit(windows: seq<AggregateWindow>)
      requires Valid()
      modifies this`pending
      ensures Valid()
      ensures View() == Aggregation.Commit(old(View()), windows)
    {
      hide Identity;
      for i := 0 to |windows|
        invariant pending == old(pending) - (set w | w in windows[..i] :: Identity(w))
      {
        assert windows[..i + 1] == windows[..i] + [windows[i]];
        assert (set w | w in windows[..i + 1] :: Identity(w))
            == (set w | w in windows[..i] :: Identity(w)) + {Identity(windows[i])};
        pending := pending - {Identity(windows[i])};
      }
      assert windows[..|windows|] == windows;
    }
  }

  lemma {:induction false} FailureEndsBatch(c: Config, a: Agg, events: seq<Event>, sketchOk: seq<bool>, i: nat)
    requires ValidConfig(c) && |sketchOk| == |events| && i <= |events|
    requires forall e :: e in events ==> e.Valid()
    requires IngestAll(c, a, events[..i], sketchOk[..i]).failed
    ensures IngestAll(c, a, events, sketchOk) == IngestAll(c, a, events[..i], sketchOk[..i])
    decreases |events|
  {
    hide IngestOne;
    if i == |events| {
      assert events[..i] == events && sketchOk[..i] == sketchOk;
    } else {
      var last := |events| - 1;
      assert events[..last][..i] == events[..i] && sketchOk[..last][..i] == sketchOk[..i];
      FailureEndsBatch(c, a, events[..last], sketchOk[..last], i);
    }
  }

  lemma {:induction false} FailureEndsCollection(c: Config, a: Agg, keys: seq<WindowKey>, i: nat)
    requires i <= |keys| && EmitKeys(c, a, keys[..i]).failed
    ensures EmitKeys(c, a, keys) == EmitKeys(c, a, keys[..i])
    decreases |keys|
  {
    if i == |keys| {
      assert keys[..i] == keys;
    } else {
      assert keys[..|keys| - 1][..i] == keys[..i];
      FailureEndsCollection(c, a, keys[..|keys| - 1], i);
    }
  }
}
