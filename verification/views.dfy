/** The daily, weekly and monthly trend charts: each takes a recent window of
    the dataset, labels its points 1, 2, ..., and thins the points and the
    x-axis labels to a display density. */
module Views {
  import opened Outcomes
  import opened Series
  import opened Buckets
  import opened Loader

  /** "No CSV file loaded or dataset is empty!" */
  datatype ViewError = NoData

  /** What a chart shows: its points and the x labels that get a tick. */
  datatype Chart = Chart(points: seq<Point>, ticks: seq<int>)

  const DailyDays: nat := 730
  const WeeklyDays: nat := 104 * 7
  const MonthlyDays: nat := 24 * 30
  const Week: nat := 7
  const Month: nat := 30
  const DailyDensity: nat := 50
  const WeeklyDensity: nat := 50
  const MonthlyDensity: nat := 15
  const DailyTickDensity: nat := 20
  const BucketTickDensity: nat := 10

  predicate Missing(df: Option<Dataset>)
  {
    df.None? || df.value.revenue == []
  }

  /** Thins the points, then thins the x labels of the points shown. */
  function Plot(ps: seq<Point>, density: nat, tickDensity: nat): Chart
    requires density > 0 && tickDensity > 0
  {
    var shown := Downsample(ps, density);
    Chart(shown, Downsample(Labels(shown), tickDensity))
  }

  /** The daily series: the last DailyDays rows, relabelled 1..n. */
  function DailySeries(d: Dataset): seq<Point>
  {
    Relabel(Window(d, DailyDays).revenue, 1)
  }

  /** A bucketed series: the last `days` rows, grouped by original label
      `/ size`, summed per group and renumbered 1..K. */
  function BucketSeries(d: Dataset, days: nat, size: nat): seq<Point>
    requires size > 0
  {
    var w := Window(d, days);
    Relabel(Sums(Groups(w.first, w.revenue, size)), 1)
  }

  function DailyView(df: Option<Dataset>): (r: Result<Chart, ViewError>)
    ensures r.Err? <==> Missing(df)
  {
    if Missing(df) then Err(NoData)
    else Ok(Plot(DailySeries(df.value), DailyDensity, DailyTickDensity))
  }

  function WeeklyView(df: Option<Dataset>): (r: Result<Chart, ViewError>)
    ensures r.Err? <==> Missing(df)
  {
    if Missing(df) then Err(NoData)
    else Ok(Plot(BucketSeries(df.value, WeeklyDays, Week), WeeklyDensity, BucketTickDensity))
  }

  function MonthlyView(df: Option<Dataset>): (r: Result<Chart, ViewError>)
    ensures r.Err? <==> Missing(df)
  {
    if Missing(df) then Err(NoData)
    else Ok(Plot(BucketSeries(df.value, MonthlyDays, Month), MonthlyDensity, BucketTickDensity))
  }

  // ------------------------------------------------------------------ lemmas

  /** A thinned chart starts at its series' first point and shows no more
      than 2 * density points; its ticks start at the first label and each
      is the label of a shown point, taken at the tick stride. */
  lemma PlotShape(ps: seq<Point>, density: nat, tickDensity: nat)
    requires density > 0 && tickDensity > 0 && ps != []
    ensures var c := Plot(ps, density, tickDensity);
      var s := Stride(|ps|, density);
      && c.points != [] && c.points[0] == ps[0]
      && |c.points| <= 2 * density
      && (forall i :: 0 <= i < |c.points| ==> Pos(i, s) < |ps| && c.points[i] == ps[Pos(i, s)])
      && |ps| <= Pos(|c.points|, s)
    ensures var c := Plot(ps, density, tickDensity);
      var k := Stride(|c.points|, tickDensity);
      && c.ticks != [] && c.ticks[0] == ps[0].x
      && (forall j :: 0 <= j < |c.ticks| ==> Pos(j, k) < |c.points| && c.ticks[j] == c.points[Pos(j, k)].x)
      && |c.points| <= Pos(|c.ticks|, k)
  {
    var shown := Downsample(ps, density);
    DownsampleBound(ps, density);
    TickLabels(shown, tickDensity);
  }

  /** The ticks of a chart showing `shown`: the first label, then the label
      of every k-th shown point, none left out. */
  lemma TickLabels(shown: seq<Point>, tickDensity: nat)
    requires tickDensity > 0 && shown != []
    ensures var ticks, k := Downsample(Labels(shown), tickDensity), Stride(|shown|, tickDensity);
      && ticks != [] && ticks[0] == shown[0].x
      && (forall j :: 0 <= j < |ticks| ==> Pos(j, k) < |shown| && ticks[j] == shown[Pos(j, k)].x)
      && |shown| <= Pos(|ticks|, k)
  {
    var labels := Labels(shown);
    assert |labels| == |shown|;
  }

  /** A window at least as long as the dataset is the dataset itself. */
  lemma WholeWindow(d: Dataset, k: nat)
    requires |d.revenue| <= k
    ensures Window(d, k) == d
  {
  }

  /** The thinned points of a series labelled from 1. */
  lemma ThinnedRelabel(vs: seq<int>, density: nat, i: nat)
    requires density > 0 && i < |Downsample(Relabel(vs, 1), density)|
    ensures var k := Stride(|vs|, density);
      Pos(i, k) < |vs| && Downsample(Relabel(vs, 1), density)[i] == Point(Pos(i, k) + 1, vs[Pos(i, k)])
  {
    var ps := Relabel(vs, 1);
    var k := Stride(|vs|, density);
    assert |ps| == |vs|;
    ThinnedAt(ps, density, i);
    assert Pos(i, k) < |ps|;
  }

  /** Point i of a thinned chart, as Downsample's contract gives it. */
  lemma ThinnedAt(ps: seq<Point>, density: nat, i: nat)
    requires density > 0 && i < |Downsample(ps, density)|
    ensures Pos(i, Stride(|ps|, density)) < |ps| && Downsample(ps, density)[i] == ps[Pos(i, Stride(|ps|, density))]
  {
  }

  /** On a loaded dataset the daily view plots the whole dataset: the point at
      place i is day Pos(i, k) + 1 (day i * k + 1) with that day's revenue,
      k being the display stride. */
  lemma DailyViewPoints(d: Dataset)
    requires Bounded(Some(d)) && d.revenue != []
    ensures DailyView(Some(d)).Ok?
    ensures var c := DailyView(Some(d)).value;
      var k := Stride(|d.revenue|, DailyDensity);
      && c.points[0] == Point(1, d.revenue[0])
      && (forall i :: 0 <= i < |c.points| ==> Pos(i, k) < |d.revenue| && c.points[i] == Point(Pos(i, k) + 1, d.revenue[Pos(i, k)]))
      && |d.revenue| <= Pos(|c.points|, k)
  {
    DailyShown(d);
    ThinnedSeries(d.revenue, DailyDensity);
  }

  /** On a loaded dataset the daily view thins the whole dataset, relabelled
      from 1. */
  lemma DailyShown(d: Dataset)
    requires Bounded(Some(d)) && d.revenue != []
    ensures DailyView(Some(d)).Ok?
    ensures DailyView(Some(d)).value.points == Downsample(Relabel(d.revenue, 1), DailyDensity)
  {
    WholeWindow(d, DailyDays);
  }

  /** Every point of a thinned series labelled from 1, and no stride
      position left out. */
  lemma ThinnedSeries(vs: seq<int>, density: nat)
    requires density > 0 && vs != []
    ensures var shown, k := Downsample(Relabel(vs, 1), density), Stride(|vs|, density);
      && shown[0] == Point(1, vs[0])
      && (forall i :: 0 <= i < |shown| ==> Pos(i, k) < |vs| && shown[i] == Point(Pos(i, k) + 1, vs[Pos(i, k)]))
      && |vs| <= Pos(|shown|, k)
  {
    var shown := Downsample(Relabel(vs, 1), density);
    assert |Relabel(vs, 1)| == |vs|;
    forall i | 0 <= i < |shown|
      ensures Pos(i, Stride(|vs|, density)) < |vs|
      ensures shown[i] == Point(Pos(i, Stride(|vs|, density)) + 1, vs[Pos(i, Stride(|vs|, density))])
    {
      ThinnedRelabel(vs, density, i);
    }
  }

  /** The i-th point of a bucketed series: label i + 1, the revenue of exactly
      the window's rows whose key is the i-th key present, and at most `size`
      rows behind it. */
  lemma BucketPoint(d: Dataset, days: nat, size: nat, i: nat)
    requires size > 0 && i < |BucketSeries(d, days, size)|
    ensures var w := Window(d, days);
      var p := BucketSeries(d, days, size)[i];
      var rows := KeyRows(w.first, w.revenue, size, w.first / size + i);
      p.x == i + 1 && p.y == Sum(rows) && 1 <= |rows| <= size
  {
    var w := Window(d, days);
    var gs := Groups(w.first, w.revenue, size);
    GroupsAreKeyGroups(w.first, w.revenue, size, i);
    assert BucketSeries(d, days, size)[i] == Point(i + 1, Sums(gs)[i]);
  }

  /** What a bucketed series holds: one point per key present in the window,
      labelled 1..K in ascending key order (BucketPoint gives each point), the
      points together carrying the window's total revenue. */
  lemma BucketSeriesSpec(d: Dataset, days: nat, size: nat)
    requires size > 0
    ensures var w := Window(d, days);
      && |BucketSeries(d, days, size)| == KeySpan(w.first, |w.revenue|, size)
      && Sum(Sums(Groups(w.first, w.revenue, size))) == Sum(w.revenue)
  {
    var w := Window(d, days);
    GroupsCount(w.first, w.revenue, size);
    BucketTotal(w.first, w.revenue, size);
  }

  /** A file of 1000 rows: the load keeps labels 270..999, so the weekly
      window starts at label 272 and the monthly one at label 280. Neither is
      a bucket boundary, so the weekly chart has 105 buckets, the first of a
      single day, and the monthly chart 25, the first of 20 days. */
  lemma LongFileBuckets(rows: seq<int>)
    requires |rows| == 1000
    ensures var d := Load(None, Read(true, rows)).value;
      var w := Window(d, WeeklyDays);
      var m := Window(d, MonthlyDays);
      && w.first == 272 && |Groups(w.first, w.revenue, Week)| == 105 && |Groups(w.first, w.revenue, Week)[0]| == 1
      && m.first == 280 && |Groups(m.first, m.revenue, Month)| == 25 && |Groups(m.first, m.revenue, Month)[0]| == 20
  {
    var d := Load(None, Read(true, rows)).value;
    assert d.first == 270 && |d.revenue| == 730;
    var w := Window(d, WeeklyDays);
    assert w.first == 272 && |w.revenue| == 728;
    var m := Window(d, MonthlyDays);
    assert m.first == 280 && |m.revenue| == 720;
    GroupsCount(w.first, w.revenue, Week);
    GroupsCount(m.first, m.revenue, Month);
  }

  /** A file of at most 728 rows keeps its labels from 0, so its weeks (and,
      up to 720 rows, its months) are all whole except possibly the last. */
  lemma ShortFileBuckets(rows: seq<int>, days: nat, size: nat)
    requires |rows| <= days <= MaxRows && size > 0
    ensures var w := Window(Load(None, Read(true, rows)).value, days);
      var gs := Groups(w.first, w.revenue, size);
      w.first == 0 && forall i :: 0 <= i < |gs| - 1 ==> |gs[i]| == size
  {
    var w := Window(Load(None, Read(true, rows)).value, days);
    AlignedGroupsFull(w.first, w.revenue, size);
  }
}
