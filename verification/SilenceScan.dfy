/** The silence scan of the waveform QC (backend/services/waveform_generator.py:238-271): fixed
    windows, each silent or not, and a marker for every long enough run of silent ones. */
module SilenceScan {
  import opened Wrappers

  const WINDOW_MS := 200

  datatype Marker = Marker(timeMs: int, durationMs: int)

  /** The number of windows that start before the end; the last one may be partial. */
  function Windows(totalMs: nat): nat {
    (totalMs + WINDOW_MS - 1) / WINDOW_MS
  }

  /** Windows a..b-1 are silent and neither neighbour is. */
  predicate MaximalRun(silent: seq<bool>, a: int, b: int) {
    && 0 <= a < b <= |silent|
    && (forall i :: a <= i < b ==> silent[i])
    && (a > 0 ==> !silent[a-1])
    && (b < |silent| ==> !silent[b])
  }

  /** A run that reaches the last window ends with the audio, not with the window. */
  function MarkerOf(totalMs: nat, a: nat, b: nat): Marker {
    var end := if b == Windows(totalMs) then totalMs else b * WINDOW_MS;
    Marker(a * WINDOW_MS, end - a * WINDOW_MS)
  }

  predicate InOrder(markers: seq<Marker>) {
    forall i, j :: 0 <= i < j < |markers| ==> markers[i].timeMs < markers[j].timeMs
  }

  predicate LongRun(silent: seq<bool>, totalMs: nat, minMs: int, a: nat, b: nat) {
    MaximalRun(silent, a, b) && MarkerOf(totalMs, a, b).durationMs >= minMs
  }

  /** Every marker stands for a long run ending by window `w`. */
  ghost predicate Sound(markers: seq<Marker>, silent: seq<bool>, totalMs: nat, minMs: int, w: int) {
    forall m :: m in markers ==>
      exists a: nat, b: nat :: LongRun(silent, totalMs, minMs, a, b) && b <= w && m == MarkerOf(totalMs, a, b)
  }

  /** Every long run ending by window `w` has its marker. */
  ghost predicate Complete(markers: seq<Marker>, silent: seq<bool>, totalMs: nat, minMs: int, w: int) {
    forall a: nat, b: nat :: LongRun(silent, totalMs, minMs, a, b) && b <= w ==> MarkerOf(totalMs, a, b) in markers
  }

  /** `start` is where the run that is still open before window `w` began. */
  predicate Scanning(silent: seq<bool>, start: Option<nat>, w: int) {
    && 0 <= w <= |silent|
    && (start.Some? ==> start.value < w && (forall i :: start.value <= i < w ==> silent[i])
                        && (start.value > 0 ==> !silent[start.value-1]))
    && (start.None? && w > 0 ==> !silent[w-1])
  }

  predicate AllBefore(markers: seq<Marker>, timeMs: int) {
    forall m :: m in markers ==> m.timeMs < timeMs
  }

  lemma AppendInOrder(markers: seq<Marker>, m: Marker)
    requires InOrder(markers) && AllBefore(markers, m.timeMs)
    ensures InOrder(markers + [m])
    ensures forall t :: t > m.timeMs ==> AllBefore(markers + [m], t)
  {
  }

  /** The markers are, in time order and each once, exactly the maximal silent runs that last at
      least `minMs`. */
  method DetectSilence(silent: seq<bool>, totalMs: nat, minMs: int) returns (markers: seq<Marker>)
    requires |silent| == Windows(totalMs)
    ensures InOrder(markers)
    ensures forall m :: m in markers <==>
              exists a: nat, b: nat :: LongRun(silent, totalMs, minMs, a, b) && m == MarkerOf(totalMs, a, b)
    ensures forall m :: m in markers ==> OnTheGrid(m, totalMs) && m.durationMs >= minMs
  {
    hide Sound, Complete, LongRun, InOrder, AllBefore, OnTheGrid;
    markers := [];
    var start: Option<nat> := None;
    NothingYet(silent, totalMs, minMs);
    var w := 0;
    while w < |silent|
      invariant Scanning(silent, start, w)
      invariant InOrder(markers) && AllBefore(markers, if start.Some? then start.value * WINDOW_MS else w * WINDOW_MS)
      invariant Sound(markers, silent, totalMs, minMs, w)
      invariant Complete(markers, silent, totalMs, minMs, w - 1)
    {
      if silent[w] {
        NoRunEnds(markers, silent, totalMs, minMs, w);
        if start.None? {
          start := Some(w);
        }
      } else if start.Some? {
        OneRunEnds(markers, silent, totalMs, minMs, start.value, w);
        var duration := w * WINDOW_MS - start.value * WINDOW_MS;
        if duration >= minMs {
          AppendInOrder(markers, Marker(start.value * WINDOW_MS, duration));
          markers := markers + [Marker(start.value * WINDOW_MS, duration)];
        } else {
          BeforeLater(markers, start.value * WINDOW_MS, (w + 1) * WINDOW_MS);
        }
        start := None;
      } else {
        NoRunEnds(markers, silent, totalMs, minMs, w);
        BeforeLater(markers, w * WINDOW_MS, (w + 1) * WINDOW_MS);
      }
      w := w + 1;
    }
    if start.Some? {
      OneRunEnds(markers, silent, totalMs, minMs, start.value, w);
      var duration := totalMs - start.value * WINDOW_MS;
      if duration >= minMs {
        AppendInOrder(markers, Marker(start.value * WINDOW_MS, duration));
        markers := markers + [Marker(start.value * WINDOW_MS, duration)];
      }
    } else {
      NoRunEnds(markers, silent, totalMs, minMs, w);
    }
    SoundAndComplete(markers, silent, totalMs, minMs);
    forall m | m in markers ensures OnTheGrid(m, totalMs) && m.durationMs >= minMs {
      var a: nat, b: nat :| LongRun(silent, totalMs, minMs, a, b) && m == MarkerOf(totalMs, a, b);
      MarkersLieOnTheGrid(silent, totalMs, minMs, a, b);
    }
  }

  lemma NothingYet(silent: seq<bool>, totalMs: nat, minMs: int)
    ensures InOrder([]) && AllBefore([], 0)
    ensures Sound([], silent, totalMs, minMs, 0) && Complete([], silent, totalMs, minMs, -1)
  {
  }

  lemma BeforeLater(markers: seq<Marker>, t: int, u: int)
    requires AllBefore(markers, t) && t <= u
    ensures AllBefore(markers, u)
  {
  }

  lemma SoundAndComplete(markers: seq<Marker>, silent: seq<bool>, totalMs: nat, minMs: int)
    requires Sound(markers, silent, totalMs, minMs, |silent| + 1) && Complete(markers, silent, totalMs, minMs, |silent|)
    ensures forall m :: m in markers <==>
              exists a: nat, b: nat :: LongRun(silent, totalMs, minMs, a, b) && m == MarkerOf(totalMs, a, b)
  {
    forall m | m in markers
      ensures exists a: nat, b: nat :: LongRun(silent, totalMs, minMs, a, b) && m == MarkerOf(totalMs, a, b)
    {
      var a: nat, b: nat :| LongRun(silent, totalMs, minMs, a, b) && b <= |silent| + 1 && m == MarkerOf(totalMs, a, b);
    }
    forall a: nat, b: nat | LongRun(silent, totalMs, minMs, a, b)
      ensures MarkerOf(totalMs, a, b) in markers
    {
      assert b <= |silent|;
    }
  }

  /** No run ends at `w` if the window before it is not silent or the window at it is. */
  lemma NoRunEnds(markers: seq<Marker>, silent: seq<bool>, totalMs: nat, minMs: int, w: nat)
    requires w <= |silent|
    requires (w < |silent| && silent[w]) || w == 0 || !silent[w-1]
    requires Sound(markers, silent, totalMs, minMs, w) && Complete(markers, silent, totalMs, minMs, w - 1)
    ensures Sound(markers, silent, totalMs, minMs, w + 1) && Complete(markers, silent, totalMs, minMs, w)
  {
    forall a: nat, b: nat | LongRun(silent, totalMs, minMs, a, b) && b <= w
      ensures MarkerOf(totalMs, a, b) in markers
    {
      assert silent[b-1];
      assert b <= w - 1;
    }
    SoundLater(markers, silent, totalMs, minMs, w);
  }

  lemma SoundLater(markers: seq<Marker>, silent: seq<bool>, totalMs: nat, minMs: int, w: int)
    requires Sound(markers, silent, totalMs, minMs, w)
    ensures Sound(markers, silent, totalMs, minMs, w + 1)
  {
    hide LongRun, MarkerOf;
    forall m | m in markers
      ensures exists a: nat, b: nat ::
                LongRun(silent, totalMs, minMs, a, b) && b <= w + 1 && m == MarkerOf(totalMs, a, b)
    {
      var a: nat, b: nat :| LongRun(silent, totalMs, minMs, a, b) && b <= w && m == MarkerOf(totalMs, a, b);
    }
  }

  /** The run a..w is the only one that ends at `w`; it is marked if it is long. */
  lemma OneRunEnds(markers: seq<Marker>, silent: seq<bool>, totalMs: nat, minMs: int, a: nat, w: nat)
    requires MaximalRun(silent, a, w)
    requires Sound(markers, silent, totalMs, minMs, w) && Complete(markers, silent, totalMs, minMs, w - 1)
    ensures
      var m := MarkerOf(totalMs, a, w);
      var markers' := if m.durationMs >= minMs then markers + [m] else markers;
      Sound(markers', silent, totalMs, minMs, w + 1) && Complete(markers', silent, totalMs, minMs, w)
  {
    RunEndingAt(silent, a, w);
    SoundLater(markers, silent, totalMs, minMs, w);
    hide MarkerOf, MaximalRun;
    var m := MarkerOf(totalMs, a, w);
    assert m.durationMs >= minMs ==> LongRun(silent, totalMs, minMs, a, w);
    var markers' := if m.durationMs >= minMs then markers + [m] else markers;
    forall n | n in markers'
      ensures exists c: nat, b: nat ::
                LongRun(silent, totalMs, minMs, c, b) && b <= w + 1 && n == MarkerOf(totalMs, c, b)
    {
      if n in markers {
        var c: nat, b: nat :| LongRun(silent, totalMs, minMs, c, b) && b <= w + 1 && n == MarkerOf(totalMs, c, b);
      } else {
        assert LongRun(silent, totalMs, minMs, a, w);
      }
    }
  }

  /** Only one maximal run ends at a given window. */
  lemma RunEndingAt(silent: seq<bool>, a: nat, b: nat)
    requires MaximalRun(silent, a, b)
    ensures forall c :: MaximalRun(silent, c, b) ==> c == a
  {
  }

  /** A marker begins at a multiple of 200 ms, and ends at one or with the audio. */
  predicate OnTheGrid(m: Marker, totalMs: nat) {
    && m.timeMs % 200 == 0 && 0 <= m.timeMs && 0 < m.durationMs
    && m.timeMs + m.durationMs <= totalMs
    && (m.durationMs % 200 == 0 || m.timeMs + m.durationMs == totalMs)
  }

  lemma MarkersLieOnTheGrid(silent: seq<bool>, totalMs: nat, minMs: int, a: nat, b: nat)
    requires |silent| == Windows(totalMs) && LongRun(silent, totalMs, minMs, a, b)
    ensures OnTheGrid(MarkerOf(totalMs, a, b), totalMs) && MarkerOf(totalMs, a, b).durationMs >= minMs
  {
  }
}
