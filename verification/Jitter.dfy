/** Running jitter statistics by Welford's method, on the server
    (internal/audio/jitter.go) and in the browser (web/audio-engine.js:276-319),
    in real arithmetic. */
module Jitter {
  import opened Multiples

  datatype Stats = Stats(count: nat, min: real, max: real, last: real, mean: real, m2: real)

  const EMPTY := Stats(0, 0.0, 0.0, 0.0, 0.0, 0.0)

  /** The mean after the `n`th sample. */
  function Moved(mean: real, x: real, n: nat): real
    requires n > 0
  {
    mean + (x - mean) / n as real
  }

  function Added(s: Stats, x: real): Stats {
    if s.count == 0 then Stats(1, x, x, x, x, 0.0)
    else
      var mean := Moved(s.mean, x, s.count + 1);
      Stats(s.count + 1, if x < s.min then x else s.min, if x > s.max then x else s.max, x,
            mean, s.m2 + (x - s.mean) * (x - mean))
  }

  function Variance(s: Stats): real {
    if s.count < 2 then 0.0 else s.m2 / s.count as real
  }

  class JitterStats {
    var count: nat
    var min: real
    var max: real
    var last: real
    var mean: real
    var m2: real

    ghost function View(): Stats
      reads this
    {
      Stats(count, min, max, last, mean, m2)
    }

    constructor ()
      ensures View() == EMPTY
    {
      count, min, max, last, mean, m2 := 0, 0.0, 0.0, 0.0, 0.0, 0.0;
    }

    method Add(deltaMs: real)
      modifies this
      ensures View() == Added(old(View()), deltaMs)
    {
      count := count + 1;
      last := deltaMs;
      if count == 1 {
        min, max, mean, m2 := deltaMs, deltaMs, deltaMs, 0.0;
        return;
      }
      if deltaMs < min {
        min := deltaMs;
      }
      if deltaMs > max {
        max := deltaMs;
      }
      var delta := deltaMs - mean;
      mean := mean + delta / count as real;
      assert mean == Moved(old(mean), deltaMs, count);
      var delta2 := deltaMs - mean;
      m2 := m2 + delta * delta2;
    }

    method GetVariance() returns (v: real)
      ensures v == Variance(View())
    {
      if count < 2 {
        return 0.0;
      }
      return m2 / count as real;
    }

    method Reset()
      modifies this
      ensures View() == EMPTY
    {
      count, min, max, last, mean, m2 := 0, 0.0, 0.0, 0.0, 0.0, 0.0;
    }
  }

  // ----------------------------------------------------------------- reference

  function After(samples: seq<real>): (s: Stats)
    ensures s.count == |samples|
  {
    if samples == [] then EMPTY
    else Added(After(samples[..|samples| - 1]), samples[|samples| - 1])
  }

  function Sum(xs: seq<real>): real {
    if xs == [] then 0.0 else Sum(xs[..|xs| - 1]) + xs[|xs| - 1]
  }

  function Square(x: real): real {
    x * x
  }

  /** The sum of squared deviations from `c`. */
  function Deviation(xs: seq<real>, c: real): real {
    if xs == [] then 0.0 else Deviation(xs[..|xs| - 1], c) + Square(xs[|xs| - 1] - c)
  }

  ghost predicate IsLeast(m: real, xs: seq<real>) {
    (exists i :: 0 <= i < |xs| && xs[i] == m) && forall i :: 0 <= i < |xs| ==> m <= xs[i]
  }

  ghost predicate IsGreatest(m: real, xs: seq<real>) {
    (exists i :: 0 <= i < |xs| && xs[i] == m) && forall i :: 0 <= i < |xs| ==> xs[i] <= m
  }

  // ------------------------------------------------------------------ deviations

  lemma SquareIsPositive(x: real)
    ensures Square(x) >= 0.0
  {
    assert x < 0.0 ==> x * x == (-x) * (-x);
  }

  lemma SquareShifts(y: real, d: real)
    ensures Square(y - d) == Square(y) - d * (2.0 * y) + Square(d)
  {
  }

  lemma ProductDistributes(d: real, a: real, b: real)
    ensures d * (a + b) == d * a + d * b
  {
  }

  /** The cross terms of moving the centre by `d`. */
  function Cross(xs: seq<real>, c: real, d: real): real {
    if xs == [] then 0.0 else Cross(xs[..|xs| - 1], c, d) + d * (2.0 * (xs[|xs| - 1] - c))
  }

  lemma {:induction false} CrossIs(xs: seq<real>, c: real, d: real)
    ensures Cross(xs, c, d) == d * (2.0 * (Sum(xs) - Times(|xs|, c)))
  {
    if xs != [] {
      var front, x := xs[..|xs| - 1], xs[|xs| - 1];
      CrossIs(front, c, d);
      var off := 2.0 * (Sum(front) - Times(|front|, c));
      ProductDistributes(d, off, 2.0 * (x - c));
      assert 2.0 * (Sum(xs) - Times(|xs|, c)) == off + 2.0 * (x - c);
    }
  }

  lemma CrossVanishesAtTheMean(xs: seq<real>, c: real, d: real)
    requires Times(|xs|, c) == Sum(xs)
    ensures Cross(xs, c, d) == 0.0
  {
    CrossIs(xs, c, d);
  }

  /** Deviations about a centre moved by `d`. */
  lemma {:induction false} MoveCentre(xs: seq<real>, c: real, d: real)
    ensures Deviation(xs, c + d) == Deviation(xs, c) - Cross(xs, c, d) + Times(|xs|, Square(d))
  {
    if xs != [] {
      var front, x := xs[..|xs| - 1], xs[|xs| - 1];
      MoveCentre(front, c, d);
      SquareShifts(x - c, d);
      assert Square(x - (c + d)) == Square(x - c - d);
    }
  }

  lemma StepIsExact(n: nat, step: real, before: real, after: real)
    requires before == Times(n + 1, step) && after == Times(n, step)
    ensures Times(n, Square(step)) + Square(after) == before * after
  {
    TimesIsProduct(n, step);
    TimesIsProduct(n, Square(step));
    assert n as real * Square(step) == after * step;
    ProductDistributes(after, after, step);
  }

  lemma {:induction false} DeviationIsPositive(xs: seq<real>, c: real)
    ensures Deviation(xs, c) >= 0.0
  {
    if xs != [] {
      DeviationIsPositive(xs[..|xs| - 1], c);
      SquareIsPositive(xs[|xs| - 1] - c);
    }
  }

  lemma {:induction false} SumIsBetween(xs: seq<real>, lo: real, hi: real)
    requires forall i :: 0 <= i < |xs| ==> lo <= xs[i] <= hi
    ensures Times(|xs|, lo) <= Sum(xs) <= Times(|xs|, hi)
  {
    if xs != [] {
      SumIsBetween(xs[..|xs| - 1], lo, hi);
    }
  }

  // -------------------------------------------------------------- main results

  /** The move of the mean, with `n` samples before it. */
  lemma MeanMoves(n: nat, mean: real, x: real)
    ensures var step := (x - mean) / (n + 1) as real;
            && Moved(mean, x, n + 1) == mean + step
            && Times(n + 1, mean + step) == Times(n, mean) + x
            && Times(n + 1, step) == x - mean
            && Times(n, step) == x - (mean + step)
  {
    var step := (x - mean) / (n + 1) as real;
    TimesUndoesDivision(n + 1, x - mean);
    TimesDistributes(n + 1, mean, step);
  }

  /** The mean, times the count, is the sum of the samples. */
  lemma {:induction false} MeanIsExact(samples: seq<real>)
    ensures Times(|samples|, After(samples).mean) == Sum(samples)
  {
    if samples != [] {
      var front, x := samples[..|samples| - 1], samples[|samples| - 1];
      MeanIsExact(front);
      MeanMoves(|front|, After(front).mean, x);
    }
  }

  /** m2 is the sum of squared deviations from the final mean. */
  lemma {:induction false} DeviationIsExact(samples: seq<real>)
    ensures After(samples).m2 == Deviation(samples, After(samples).mean)
  {
    if samples != [] {
      var front, x := samples[..|samples| - 1], samples[|samples| - 1];
      DeviationIsExact(front);
      MeanIsExact(front);
      AddingKeepsDeviation(front, After(front), x);
      assert samples == front + [x];
    }
  }

  lemma FirstHasNoDeviation(s: Stats, x: real)
    requires s.count == 0 && s.m2 == 0.0
    ensures Added(s, x).m2 == Deviation([] + [x], Added(s, x).mean)
  {
    assert ([] + [x])[..0] == [] && Deviation([], x) == 0.0 && Square(x - x) == 0.0;
  }

  lemma AddingKeepsDeviation(front: seq<real>, s: Stats, x: real)
    requires s.count == |front| && Times(|front|, s.mean) == Sum(front) && s.m2 == Deviation(front, s.mean)
    ensures Added(s, x).m2 == Deviation(front + [x], Added(s, x).mean)
  {
    if front == [] {
      FirstHasNoDeviation(s, x);
    } else {
      assert (front + [x])[..|front|] == front;
      MeanMoves(|front|, s.mean, x);
      var moved := Moved(s.mean, x, |front| + 1);
      DeviationGrows(front, s.mean, moved - s.mean, x - s.mean, x - moved);
    }
  }

  lemma DeviationGrows(front: seq<real>, mean: real, step: real, before: real, after: real)
    requires Times(|front|, mean) == Sum(front)
    requires before == Times(|front| + 1, step) && after == Times(|front|, step)
    ensures Deviation(front, mean + step) + Square(after) == Deviation(front, mean) + before * after
  {
    MoveCentre(front, mean, step);
    CrossVanishesAtTheMean(front, mean, step);
    StepIsExact(|front|, step, before, after);
  }

  /** min and max are the least and greatest sample. */
  lemma {:induction false} BoundsAreExact(samples: seq<real>)
    requires samples != []
    ensures IsLeast(After(samples).min, samples) && IsGreatest(After(samples).max, samples)
    ensures After(samples).last == samples[|samples| - 1]
  {
    var front, x := samples[..|samples| - 1], samples[|samples| - 1];
    if front != [] {
      BoundsAreExact(front);
      var s := After(front);
      assert After(samples).min == if x < s.min then x else s.min;
      assert After(samples).max == if x > s.max then x else s.max;
      var i :| 0 <= i < |front| && front[i] == s.min;
      assert samples[i] == s.min;
      var j :| 0 <= j < |front| && front[j] == s.max;
      assert samples[j] == s.max;
      assert forall k :: 0 <= k < |front| ==> samples[k] == front[k];
    }
    assert samples[|samples| - 1] == x;
  }

  lemma MeanIsBetween(samples: seq<real>)
    requires samples != []
    ensures After(samples).min <= After(samples).mean <= After(samples).max
  {
    var s := After(samples);
    BoundsAreExact(samples);
    MeanIsExact(samples);
    SumIsBetween(samples, s.min, s.max);
    if s.mean < s.min {
      TimesKeepsOrder(|samples|, s.mean, s.min);
    } else if s.max < s.mean {
      TimesKeepsOrder(|samples|, s.max, s.mean);
    }
  }

  /** The variance, times the count, is the sum of squared deviations. */
  lemma VarianceIsPopulationVariance(samples: seq<real>)
    requires samples != []
    ensures Times(|samples|, Variance(After(samples))) == Deviation(samples, After(samples).mean) >= 0.0
  {
    var s := After(samples);
    DeviationIsExact(samples);
    DeviationIsPositive(samples, s.mean);
    if |samples| == 1 {
      assert samples[..0] == [] && After([]) == EMPTY;
    } else {
      TimesUndoesDivision(|samples|, s.m2);
    }
  }

  // ------------------------------------------------------------------- browser

  /** min is Infinity until there is a sample. */
  datatype Minimum = Infinity | Finite(value: real)

  datatype JsStats = JsStats(count: nat, min: Minimum, max: real, mean: real, m2: real, last: real)

  const JS_EMPTY := JsStats(0, Infinity, 0.0, 0.0, 0.0, 0.0)

  function Js(s: Stats): JsStats {
    JsStats(s.count, if s.count == 0 then Infinity else Finite(s.min), s.max, s.mean, s.m2, s.last)
  }

  class JitterEntry {
    var count: nat
    var min: Minimum
    var max: real
    var mean: real
    var m2: real
    var last: real

    ghost function View(): JsStats
      reads this
    {
      JsStats(count, min, max, mean, m2, last)
    }

    constructor ()
      ensures View() == JS_EMPTY
    {
      count, min, max, mean, m2, last := 0, Infinity, 0.0, 0.0, 0.0, 0.0;
    }

    /** The browser's statistics keep step with the server's, `s`. */
    method AddJitterSample(value: real, ghost s: Stats)
      requires View() == Js(s)
      modifies this
      ensures View() == Js(Added(s, value))
    {
      count := count + 1;
      last := value;
      if count == 1 {
        min, max, mean, m2 := Finite(value), value, value, 0.0;
        return;
      }
      if min == Infinity || value < min.value {
        min := Finite(value);
      }
      if value > max {
        max := value;
      }
      var delta := value - mean;
      mean := mean + delta / count as real;
      var delta2 := value - mean;
      m2 := m2 + delta * delta2;
    }

    method ResetJitterStats()
      modifies this
      ensures View() == Js(After([]))
    {
      count, min, max, mean, m2, last := 0, Infinity, 0.0, 0.0, 0.0, 0.0;
    }
  }
}
