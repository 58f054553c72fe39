/** The index arithmetic of "Forecast Sales": day numbers 1..N as the only
    predictor, the 30 future day numbers, the recent window shown beside the
    forecast, the shift of the x-axis to start at 1, the tick positions, and
    the +/-10% band around the predictions. The regression fit itself is a
    parameter: the fitted line. */
module Forecast {
  import opened Outcomes
  import opened Series
  import opened Loader
  import opened Views

  /** Days forecast beyond the last observed day. */
  const Horizon: nat := 30
  /** The tick step is the largest visible x divided by this. */
  const TickDivisions: nat := 10

  /** A fitted line: intercept and slope of revenue against day number. */
  datatype Line = Line(intercept: real, slope: real)

  /** Everything the forecast chart is drawn from. */
  datatype ForecastPlot = ForecastPlot(
    predictors: seq<int>,   // Day_Number column, the regression input
    recentX: seq<int>,      // recent day numbers, shifted so the first is 1
    recentY: seq<int>,      // revenue on those days
    futureDays: seq<int>,   // the days predicted
    futureX: seq<int>,      // the same, shifted like recentX
    predicted: seq<real>,   // the fitted line at futureDays
    lower: seq<real>,       // predicted * 0.9
    upper: seq<real>,       // predicted * 1.1
    ticks: seq<int>)        // x positions that get a tick

  /** `int(n * 0.25)`: truncating the float product, which is exact since
      0.25 is a power of two, gives the integer quotient n / 4. */
  function QuarterOf(n: nat): (q: nat)
    ensures q == n / 4
  {
    ((n as real) * 0.25).Floor
  }

  /** The length of the recent window: N / 4 when positive; when it is 0
      (N < 4) the slice `[-0:]` is the whole series. */
  function RecentLength(n: nat): nat
  {
    if n / 4 > 0 then n / 4 else n
  }

  /** `np.arange(lo, lo + n)`. */
  function Arange(lo: int, n: nat): (r: seq<int>)
    ensures |r| == n
    ensures forall i :: 0 <= i < n ==> r[i] == lo + i
    decreases n
  {
    if n == 0 then [] else [lo] + Arange(lo + 1, n - 1)
  }

  /** Python's `s[-w:]` for w >= 0: the last w elements, and, since -0 is 0,
      the whole sequence when w is 0. */
  function FromEnd<T>(s: seq<T>, w: nat): seq<T>
  {
    if w == 0 then s else Tail(s, w)
  }

  /** `.min()` of a non-empty column. */
  function SeqMin(s: seq<int>): (m: int)
    requires s != []
    ensures m in s
    ensures forall x :: x in s ==> m <= x
    decreases |s|
  {
    if |s| == 1 then s[0]
    else
      var m := SeqMin(s[1..]);
      assert forall x :: x in s ==> x == s[0] || x in s[1..];
      if s[0] <= m then s[0] else m
  }

  /** `.max()` of a non-empty column. */
  function SeqMax(s: seq<int>): (m: int)
    requires s != []
    ensures m in s
    ensures forall x :: x in s ==> x <= m
    decreases |s|
  {
    if |s| == 1 then s[0]
    else
      var m := SeqMax(s[1..]);
      assert forall x :: x in s ==> x == s[0] || x in s[1..];
      if s[0] >= m then s[0] else m
  }

  /** `xs - min_x + 1`, elementwise. */
  function Shift(xs: seq<int>, minX: int): (r: seq<int>)
    ensures |r| == |xs|
    ensures forall i :: 0 <= i < |r| ==> r[i] == xs[i] - minX + 1
    decreases |xs|
  {
    if xs == [] then [] else [xs[0] - minX + 1] + Shift(xs[1..], minX)
  }

  /** slope * day. The source multiplies; this form, built up one day at a
      time, is a proof device so that proofs about consecutive days need no
      real multiplication, and TimesIsProduct ties it back to slope * day. */
  function Times(slope: real, day: int): real
    decreases if day < 0 then -day else day
  {
    if day == 0 then 0.0
    else if day > 0 then Times(slope, day - 1) + slope
    else Times(slope, day + 1) - slope
  }

  lemma {:induction false} TimesIsProduct(slope: real, day: int)
    ensures Times(slope, day) == slope * day as real
    decreases if day < 0 then -day else day
  {
    if day > 0 {
      TimesIsProduct(slope, day - 1);
      assert slope * (day - 1) as real + slope == slope * day as real;
    } else if day < 0 {
      TimesIsProduct(slope, day + 1);
      assert slope * (day + 1) as real - slope == slope * day as real;
    }
  }

  /** The fitted line's value at a day: intercept + slope * day (written
      with Times, equal to the product by TimesIsProduct). */
  function At(fit: Line, day: int): real
  {
    fit.intercept + Times(fit.slope, day)
  }

  /** The fitted line evaluated at each day. */
  function Predict(fit: Line, days: seq<int>): (ys: seq<real>)
    ensures |ys| == |days|
    ensures forall i :: 0 <= i < |ys| ==> ys[i] == At(fit, days[i])
    decreases |days|
  {
    if days == [] then []
    else [At(fit, days[0])] + Predict(fit, days[1..])
  }

  /** Every value multiplied by `factor`. */
  function Scale(ys: seq<real>, factor: real): (r: seq<real>)
    ensures |r| == |ys|
    ensures forall i :: 0 <= i < |r| ==> r[i] == ys[i] * factor
    decreases |ys|
  {
    if ys == [] then [] else [ys[0] * factor] + Scale(ys[1..], factor)
  }

  /** Python's `range(lo, hi, step)` for a positive step: lo, lo + step, ...
      while below hi, and nothing below hi left out. */
  function PyRange(lo: int, hi: int, step: nat): (r: seq<int>)
    requires step > 0
    ensures forall i :: 0 <= i < |r| ==> r[i] == lo + Pos(i, step) && r[i] < hi
    ensures lo + Pos(|r|, step) >= hi
    decreases hi - lo
  {
    if lo >= hi then []
    else
      var rest := PyRange(lo + step, hi, step);
      PyRangeStep(lo, hi, step, rest);
      [lo] + rest
  }

  /** The inductive step of PyRange: prepending lo to the range from lo + step. */
  lemma PyRangeStep(lo: int, hi: int, step: nat, rest: seq<int>)
    requires step > 0 && lo < hi
    requires forall i :: 0 <= i < |rest| ==> rest[i] == lo + step + Pos(i, step) && rest[i] < hi
    requires lo + step + Pos(|rest|, step) >= hi
    ensures forall i :: 0 <= i < |rest| + 1 ==> ([lo] + rest)[i] == lo + Pos(i, step) && ([lo] + rest)[i] < hi
    ensures lo + Pos(|rest| + 1, step) >= hi
  {
    forall i | 0 <= i < |rest| + 1
      ensures ([lo] + rest)[i] == lo + Pos(i, step) && ([lo] + rest)[i] < hi
    {
      if i > 0 {
        assert ([lo] + rest)[i] == rest[i - 1];
      }
    }
  }

  /** Shifting consecutive numbers gives consecutive numbers. */
  lemma ShiftArange(lo: int, n: nat, minX: int)
    ensures Shift(Arange(lo, n), minX) == Arange(lo - minX + 1, n)
  {
    var a, b := Shift(Arange(lo, n), minX), Arange(lo - minX + 1, n);
    assert |a| == |b|;
    forall i | 0 <= i < n ensures a[i] == b[i] {
    }
  }

  lemma ArangeMin(lo: int, n: nat)
    requires n > 0
    ensures SeqMin(Arange(lo, n)) == lo
  {
    var s := Arange(lo, n);
    assert s[0] in s;
    var i :| 0 <= i < n && s[i] == SeqMin(s);
  }

  lemma ArangeMax(lo: int, n: nat)
    requires n > 0
    ensures SeqMax(Arange(lo, n)) == lo + n - 1
  {
    var s := Arange(lo, n);
    assert s[n - 1] in s;
    var j :| 0 <= j < n && s[j] == SeqMax(s);
  }

  /** The recent day numbers, `X.iloc[-int(N * 0.25):]`: exactly the last
      RecentLength(N) day numbers. */
  function RecentDays(n: nat): (r: seq<int>)
    requires n > 0
    ensures r == Arange(n - RecentLength(n) + 1, RecentLength(n))
  {
    var r := FromEnd(Arange(1, n), QuarterOf(n));
    assert |r| == RecentLength(n);
    r
  }

  /** `min_x`: the first recent day number. */
  function MinX(n: nat): (m: int)
    requires n > 0
    ensures m == n - RecentLength(n) + 1
  {
    ArangeMin(n - RecentLength(n) + 1, RecentLength(n));
    SeqMin(RecentDays(n))
  }

  /** `max_visible_x`: the largest shifted future day, which is w + 30. */
  function MaxVisibleX(n: nat): (m: int)
    requires n > 0
    ensures m == RecentLength(n) + Horizon
  {
    var futureX := Shift(Arange(n + 1, Horizon), MinX(n));
    ShiftArange(n + 1, Horizon, MinX(n));
    ArangeMax(RecentLength(n) + 1, Horizon);
    SeqMax(futureX)
  }

  /** `range(1, max_visible_x + 1, max_visible_x // 10)`: ticks from 1 at a
      step of (w + 30) / 10, at least 3, up to w + 30. */
  function Ticks(n: nat): (ticks: seq<int>)
    requires n > 0
    ensures var step := (RecentLength(n) + Horizon) / TickDivisions;
      && step >= 3
      && ticks != [] && ticks[0] == 1
      && (forall i :: 0 <= i < |ticks| ==> ticks[i] == 1 + Pos(i, step) && ticks[i] <= RecentLength(n) + Horizon)
      && 1 + Pos(|ticks|, step) > RecentLength(n) + Horizon
  {
    var maxVisible := MaxVisibleX(n);
    PyRange(1, maxVisible + 1, maxVisible / TickDivisions)
  }

  /** The fitted line at the h consecutive days from `lo` on. */
  function PredictRun(fit: Line, lo: int, h: nat): (ys: seq<real>)
    ensures |ys| == h
    ensures forall i :: 0 <= i < h ==> ys[i] == At(fit, lo + i)
  {
    Predict(fit, Arange(lo, h))
  }

  /** `model.predict(future_days)`: the fitted line at days N+1..N+30. */
  function Prediction(fit: Line, n: nat): (ys: seq<real>)
    ensures |ys| == Horizon
    ensures forall i :: 0 <= i < Horizon ==> ys[i] == At(fit, n + 1 + i)
  {
    PredictRun(fit, n + 1, Horizon)
  }

  /** The forecast action. Without a dataset, or with an empty one, it
      reports the error and computes nothing. */
  function Forecast(df: Option<Dataset>, fit: Line): (r: Result<ForecastPlot, ViewError>)
    ensures r.Err? <==> Missing(df)
  {
    if Missing(df) then Err(NoData)
    else
      var y := df.value.revenue;
      var n := |y|;
      var future := Arange(n + 1, Horizon);
      var predicted := Prediction(fit, n);
      Ok(ForecastPlot(
        Arange(1, n), Shift(RecentDays(n), MinX(n)), FromEnd(y, QuarterOf(n)),
        future, Shift(future, MinX(n)),
        predicted, Scale(predicted, 0.9), Scale(predicted, 1.1),
        Ticks(n)))
  }

  // ------------------------------------------------------------------ lemmas

  /** The regression's predictors are the day numbers 1..N, the days
      forecast are exactly the 30 following ones, N+1..N+30, and the
      predictions are the fitted line at those days. */
  lemma ForecastDays(d: Dataset, fit: Line)
    requires d.revenue != []
    ensures Forecast(Some(d), fit).Ok?
    ensures var p := Forecast(Some(d), fit).value;
      var n := |d.revenue|;
      && |p.predictors| == n && (forall i :: 0 <= i < n ==> p.predictors[i] == i + 1)
      && |p.futureDays| == Horizon && (forall i :: 0 <= i < Horizon ==> p.futureDays[i] == n + 1 + i)
      && p.predicted == Predict(fit, p.futureDays)
  {
  }

  /** The recent window of a dataset y, as drawn: w = N / 4 points, or all N
      when N / 4 is 0; they are the last w revenues, at x = 1..w. */
  ghost predicate RecentShape(y: seq<int>, xs: seq<int>, ys: seq<int>)
  {
    var n, w := |y|, RecentLength(|y|);
    && 1 <= w <= n
    && (n >= 4 ==> w == n / 4) && (n < 4 ==> w == n)
    && |xs| == w && (forall i :: 0 <= i < w ==> xs[i] == i + 1)
    && |ys| == w && (forall i :: 0 <= i < w ==> ys[i] == y[n - w + i])
  }

  /** The recent window beside the forecast (RecentShape). */
  lemma ForecastRecent(d: Dataset, fit: Line)
    requires d.revenue != []
    ensures Forecast(Some(d), fit).Ok?
    ensures var p := Forecast(Some(d), fit).value;
      RecentShape(d.revenue, p.recentX, p.recentY)
  {
    RecentColumns(d, fit);
    var p := Forecast(Some(d), fit).value;
    RecentWindow(d.revenue, p.recentX, p.recentY);
  }

  /** The recent columns of the forecast plot. */
  lemma RecentColumns(d: Dataset, fit: Line)
    requires d.revenue != []
    ensures Forecast(Some(d), fit).Ok?
    ensures var p := Forecast(Some(d), fit).value;
      p.recentX == Shift(RecentDays(|d.revenue|), MinX(|d.revenue|)) && p.recentY == FromEnd(d.revenue, QuarterOf(|d.revenue|))
  {
  }

  /** ForecastRecent on the two recent columns alone. */
  lemma RecentWindow(y: seq<int>, xs: seq<int>, ys: seq<int>)
    requires y != []
    requires xs == Shift(RecentDays(|y|), MinX(|y|)) && ys == FromEnd(y, QuarterOf(|y|))
    ensures RecentShape(y, xs, ys)
  {
    var n := |y|;
    RecentLengthBounds(n);
    ShiftArange(n - RecentLength(n) + 1, RecentLength(n), MinX(n));
    RecentValues(y, ys);
  }

  /** The recent window is never empty and never longer than the data. */
  lemma RecentLengthBounds(n: nat)
    requires n > 0
    ensures var w := RecentLength(n);
      1 <= w <= n && (n >= 4 ==> w == n / 4) && (n < 4 ==> w == n)
  {
  }

  /** `y.iloc[-int(N * 0.25):]` holds the last RecentLength(N) revenues. */
  lemma RecentValues(y: seq<int>, ys: seq<int>)
    requires ys == FromEnd(y, QuarterOf(|y|))
    ensures var n, w := |y|, RecentLength(|y|);
      |ys| == w && forall i :: 0 <= i < w ==> ys[i] == y[n - w + i]
  {
    var q := QuarterOf(|y|);
    if q > 0 {
      assert ys == Tail(y, q);
    }
  }

  /** The x-axis of the forecast chart for N days, with w the recent
      window's length: the future points at x = w+1..w+30, right after the
      recent ones (FutureShape), and ticks from 1 at a step of (w + 30) / 10,
      never below 3, up to w + 30 with none left out (TickShape). */
  ghost predicate AxisShape(n: nat, futureX: seq<int>, ticks: seq<int>)
  {
    FutureShape(n, futureX) && TickShape(n, ticks)
  }

  ghost predicate FutureShape(n: nat, futureX: seq<int>)
  {
    var w := RecentLength(n);
    |futureX| == Horizon && forall i :: 0 <= i < Horizon ==> futureX[i] == w + 1 + i
  }

  ghost predicate TickShape(n: nat, ticks: seq<int>)
  {
    var w := RecentLength(n);
    var step := (w + Horizon) / TickDivisions;
    && step >= 3
    && ticks != [] && ticks[0] == 1
    && (forall i :: 0 <= i < |ticks| ==> ticks[i] == 1 + Pos(i, step) && ticks[i] <= w + Horizon)
    && 1 + Pos(|ticks|, step) > w + Horizon
  }

  /** The x-axis of the forecast chart (AxisShape). */
  lemma ForecastAxis(d: Dataset, fit: Line)
    requires d.revenue != []
    ensures Forecast(Some(d), fit).Ok?
    ensures var p := Forecast(Some(d), fit).value;
      AxisShape(|d.revenue|, p.futureX, p.ticks)
  {
    AxisColumns(d, fit);
    var p := Forecast(Some(d), fit).value;
    FutureAxis(|d.revenue|, p.futureX, p.ticks);
  }

  /** The axis columns of the forecast plot. */
  lemma AxisColumns(d: Dataset, fit: Line)
    requires d.revenue != []
    ensures Forecast(Some(d), fit).Ok?
    ensures var p, n := Forecast(Some(d), fit).value, |d.revenue|;
      p.futureX == Shift(Arange(n + 1, Horizon), MinX(n)) && p.ticks == Ticks(n)
  {
  }

  /** ForecastAxis on the two axis columns alone. */
  lemma FutureAxis(n: nat, futureX: seq<int>, ticks: seq<int>)
    requires n > 0 && futureX == Shift(Arange(n + 1, Horizon), MinX(n)) && ticks == Ticks(n)
    ensures AxisShape(n, futureX, ticks)
  {
    FutureDays(n, futureX);
    assert TickShape(n, ticks);
  }

  /** The shifted future days are w+1..w+30. */
  lemma FutureDays(n: nat, futureX: seq<int>)
    requires n > 0 && futureX == Shift(Arange(n + 1, Horizon), MinX(n))
    ensures FutureShape(n, futureX)
  {
    ShiftArange(n + 1, Horizon, MinX(n));
  }

  /** One day further along the fitted line, its value grows by the slope. */
  lemma LineStep(fit: Line, day: int)
    ensures At(fit, day + 1) - At(fit, day) == fit.slope
  {
    if day < 0 {
      assert Times(fit.slope, day) == Times(fit.slope, day + 1) - fit.slope;
    }
  }

  /** Values of the fitted line at consecutive days differ by the slope. */
  lemma ConsecutiveOnLine(fit: Line, n: nat, ys: seq<real>)
    requires |ys| == Horizon && forall i :: 0 <= i < Horizon ==> ys[i] == At(fit, n + 1 + i)
    ensures forall i :: 0 <= i < Horizon - 1 ==> ys[i + 1] - ys[i] == fit.slope
  {
    forall i | 0 <= i < Horizon - 1
      ensures ys[i + 1] - ys[i] == fit.slope
    {
      LineStep(fit, n + 1 + i);
    }
  }

  /** The predictions for a dataset of N days lie on the fitted line:
      consecutive predictions differ by the slope. */
  lemma PredictionSteps(fit: Line, n: nat)
    ensures var ys := Prediction(fit, n);
      forall i :: 0 <= i < Horizon - 1 ==> ys[i + 1] - ys[i] == fit.slope
  {
    ConsecutiveOnLine(fit, n, Prediction(fit, n));
  }

  /** The band is 90%..110% of each prediction; its lower edge is below its
      upper edge exactly when the prediction is not negative. */
  lemma BandOrder(d: Dataset, fit: Line)
    requires d.revenue != []
    ensures Forecast(Some(d), fit).Ok?
    ensures var p := Forecast(Some(d), fit).value;
      && |p.lower| == |p.upper| == Horizon
      && forall i :: 0 <= i < Horizon ==>
           && p.lower[i] == p.predicted[i] * 0.9
           && p.upper[i] == p.predicted[i] * 1.1
           && (p.lower[i] <= p.upper[i] <==> p.predicted[i] >= 0.0)
  {
  }
}
