# Sales analysis tool — a Dafny model of its data layer

The sales-analysis tool is a single Tkinter script (`main.py`). It loads a CSV
of daily revenue and draws four charts: a daily trend, a weekly trend, a
monthly trend, and a 30-day forecast from a linear regression on the day
number. This project models the integer and sequence logic inside those event
handlers, plus the one piece of state they share:

- **Dataset state** (`loader.dfy`, module `Loader`). The process-wide `df` is
  a field of the class `Session`. `Session.OpenCsv` updates it the way
  `open_csv` does:
  - a cancelled picker, or a reader that raises, leaves it unchanged;
  - a table without `Daily_Revenue` sets it to no dataset, even if one was
    loaded before;
  - any other table replaces it with the table's last 730 rows.

  A dataset is its revenue column plus `first`, the row label of its first
  row. `read_csv` labels rows from 0 and `tail` keeps labels, so `first` is
  how many rows the file had beyond the last 730.
- **Sequence operations** (`series.dfy`, module `Series`):
  - `tail(k)`;
  - relabelling an index `1..n`;
  - the display stride `max(1, n // target)` and the selection `iloc[::k]`.
    The selected positions 0, k, 2k, … are written `Pos(i, k)`. This is a
    recursive definition used only as a proof device, and `PosIsProduct`
    proves it equal to `i * k`.
- **Bucket aggregation** (`buckets.dfy`, module `Buckets`).
  `groupby(index // size).sum()` runs on the original row labels, because the
  index is never reset first. `KeyRows` is the literal pandas group: the rows
  whose label `// size` equals a key. `Groups` cuts the window in one pass.
  The lemmas prove that `Groups` yields exactly the non-empty pandas groups,
  in ascending key order.
- **Views** (`views.dfy`, module `Views`). The daily, weekly and monthly
  charts each:
  - take a window (`tail(730)`, `tail(728)`, `tail(720)`);
  - relabel it, or bucket it by 7 or 30;
  - thin the points to 50, 50 or 15;
  - thin the tick labels to 20, 10 or 10.
- **Forecast** (`forecast.dfy`, module `Forecast`) covers:
  - the day numbers 1..N and the future days N+1..N+30;
  - the recent window `iloc[-int(N*0.25):]`, including the `-0` case that
    yields the whole series;
  - the shift by `min_x`, the tick range, and the ±10% band.

  The line's value intercept + slope · day is written with `Times`, a
  recursive form that `TimesIsProduct` proves equal to the product.

  The regression itself is a parameter, the fitted `Line`.

Every chart action and the forecast return `Err(NoData)`, and compute
nothing, when no dataset is loaded or it is empty.

Behaviour of the code worth noting:
- A read failure leaves the previous dataset in place. It is not cleared.
- Weekly and monthly buckets are aligned to the original row labels, not to
  the start of the window. For a file longer than 728 (or 720) rows, the
  first bucket can therefore be partial. `LongFileBuckets` shows a 1000-row
  file giving 105 weekly buckets (the first holding one day) and 25 monthly
  buckets (the first holding 20 days).
- The forecast has no "too few distinct days" error. A one-day dataset goes
  ahead.
- For N < 4, the "recent 25%" window is the whole series.

## Model

| member | source | states |
|---|---|---|
| `Loader.Session.constructor` | main.py:11 | At start-up no dataset is loaded. |
| `Loader.Session.OpenCsv` | main.py:29-51 | The new dataset is `Load(old dataset, pick)` and stays within 730 rows. The notice is silent exactly on a cancelled picker, an error exactly on a read failure or a missing column, and success exactly otherwise. |
| `Loader.Load` | main.py:29-51 | Cancel and read failure leave the dataset unchanged. A table without the revenue column leaves no dataset. Otherwise the dataset is exactly the last min(n, 730) rows, in order, under their original labels. A bounded state stays bounded. |
| `Loader.Window` | main.py:109 | `tail(k)` keeps the last rows, and the labels still end where the table's labels ended. |
| `Series.Tail` | main.py:46 | The result has min(n, k) elements, equal to the last ones of the input in order. An input no longer than k is returned whole. |
| `Series.Relabel` | main.py:71-72 | Same length. Point i is labelled `from + i` and carries value i, so the labels are contiguous and the order is kept. |
| `Series.EveryKth` | main.py:76 | `iloc[::k]`: element i is input position i·k. No more elements than the input, and no stride position below n is skipped. |
| `Series.EveryKthKeeps` | main.py:76 | Every position q·k below n is kept, at place q. |
| `Series.PosIsProduct` | main.py:76 | The stride positions `Pos(i, k)` are exactly i·k. |
| `Series.Stride` | main.py:75 | The stride is at least 1, and it is 1 for any series shorter than 2·target. |
| `Series.StrideBounds` | main.py:75 | For n ≥ target the stride k is the floor quotient: k·target ≤ n < (k+1)·target. |
| `Series.Downsample` | main.py:116-117 | `iloc[::k]` with k = `max(1, n // target)`. The first point is always kept, and non-empty input gives non-empty output. Output point i is input position i·k, and no stride position below n is left out. |
| `Series.DownsampleBound` | main.py:156-157 | Thinning never leaves more than 2·target points. |
| `Buckets.KeyRows` | main.py:112 | The reference definition of one pandas group: the rows whose label // size is the key, in order. `GroupsAreKeyGroups` and `KeysContiguous` compare `Groups` against it. |
| `Buckets.Groups` | main.py:152 | Every bucket has between 1 and `size` rows. |
| `Buckets.Sums` | main.py:153 | One sum per group, in group order, each the group's total. |
| `Buckets.GroupsPartition` | main.py:112 | The buckets, concatenated, give back the window's rows in their original order. |
| `Buckets.GroupsCount` | main.py:112-113 | There is one bucket per distinct key between the first and last label. |
| `Buckets.GroupsAreKeyGroups` | main.py:112 | Bucket i is exactly the pandas group of key `first // size + i`, so the buckets are in ascending key order. |
| `Buckets.KeysContiguous` | main.py:152-153 | A key has rows exactly when it lies in the bucket key range, so the keys are consecutive and renumbering them 1..K leaves nothing out. |
| `Buckets.BucketTotal` | main.py:152 | The bucket sums add up to the total revenue of the window. |
| `Buckets.AlignedGroupsFull` | main.py:109-112 | When the first label is a multiple of `size`, every bucket except the last is full. |
| `Buckets.TwoConstantWeeks` | main.py:112-113 | 14 days of constant revenue v, labelled from 0, give the weekly sums [7v, 7v]. |
| `Buckets.TenDaysTwoWeeks` | main.py:112-113 | 10 days labelled from 0 give two weekly buckets. The second holds only the last 3 days. |
| `Views.DailyView` | main.py:62-64 | Reports the error exactly when no dataset is loaded or it is empty. |
| `Views.WeeklyView` | main.py:101-103 | Reports the error exactly when no dataset is loaded or it is empty. |
| `Views.MonthlyView` | main.py:141-143 | Reports the error exactly when no dataset is loaded or it is empty. |
| `Views.PlotShape` | main.py:74-85 | For `Plot`, the thinning and tick choice shared by the three charts. The chart starts at the series' first point and has at most 2·density points. Shown point i is series point i·k, with none of those positions left out. The ticks start at the first label, and tick j is the label of shown point j·k', again with none left out. |
| `Views.WholeWindow` | main.py:70 | On a loaded dataset (at most 730 rows), `tail(730)` is the whole dataset. |
| `Views.ThinnedRelabel` | main.py:70-76 | Thinning a series labelled from 1 gives point i = (i·k + 1, value at i·k). |
| `Views.DailyViewPoints` | main.py:69-76 | For `DailyView` and `DailySeries`. The daily chart of a loaded dataset shows day i·k + 1 with that day's revenue at place i, starting with day 1. Every day i·k of the dataset is shown. |
| `Views.BucketPoint` | main.py:109-113 | For `BucketSeries`. Bucket point i is labelled i + 1. It carries the sum of exactly the window's rows with the i-th key, which are between 1 and `size` rows. |
| `Views.BucketSeriesSpec` | main.py:149-153 | For `BucketSeries`. A bucketed series has one point per key present in the window, and its sums add up to the window's revenue. |
| `Views.LongFileBuckets` | main.py:46-152 | For a 1000-row file, the weekly window starts at label 272 and gives 105 buckets, the first of 1 row. The monthly window starts at label 280 and gives 25 buckets, the first of 20 rows. |
| `Views.ShortFileBuckets` | main.py:109-153 | A file of at most 728 rows keeps labels from 0, so every bucket but the last is full. |
| `Forecast.QuarterOf` | main.py:203 | `int(N * 0.25)` equals N // 4. |
| `Forecast.Arange` | main.py:194 | `np.arange(lo, lo + n)` has n elements; element i is lo + i. |
| `Forecast.SeqMin` | main.py:214 | The minimum is an element of the column and no larger than any element. |
| `Forecast.SeqMax` | main.py:233 | The maximum is an element of the column and no smaller than any element. |
| `Forecast.Shift` | main.py:217 | Each day is moved to day − min_x + 1. |
| `Forecast.Predict` | main.py:209 | One prediction per day, each the fitted line's value at that day. |
| `Forecast.TimesIsProduct` | main.py:209 | The slope times a day, built up one day at a time, is the product slope · day, so the line's value is intercept + slope · day. |
| `Forecast.PredictRun` | main.py:208-209 | Predicting at h consecutive days from d gives h values; value i is the line at day d + i. |
| `Forecast.Scale` | main.py:225-226 | Each value is multiplied by the factor. |
| `Forecast.PyRange` | main.py:234 | `range(lo, hi, step)` gives element i = lo + i·step, all below hi, with the next step reaching hi. |
| `Forecast.RecentDays` | main.py:204 | `X.iloc[-int(N*0.25):]` is exactly the last w day numbers, where w = N // 4 if positive and N otherwise. |
| `Forecast.RecentLengthBounds` | main.py:203-205 | For `RecentLength`, the length of the recent window. It is between 1 and N. It is N // 4 when N ≥ 4, and N when N < 4, because `-0:` selects everything. |
| `Forecast.RecentValues` | main.py:205 | For `FromEnd`, Python's `y.iloc[-w:]` with w = `int(N*0.25)`. It holds exactly the last `RecentLength(N)` revenues, in order. |
| `Forecast.MinX` | main.py:214 | `min_x` is N − w + 1. |
| `Forecast.MaxVisibleX` | main.py:233 | `max_visible_x` is w + 30. |
| `Forecast.Ticks` | main.py:233-234 | The tick step (w+30) // 10 is at least 3, so `range` never gets a zero step. Ticks run from 1 in steps, up to w + 30, with none missing. |
| `Forecast.Prediction` | main.py:208-209 | 30 predictions; prediction i is the fitted line at day N + 1 + i. |
| `Forecast.Forecast` | main.py:182-184 | Reports the error exactly when no dataset is loaded or it is empty. |
| `Forecast.ForecastDays` | main.py:194-209 | The predictors are exactly 1..N, the future days exactly N+1..N+30, and the predictions are the line at those days. |
| `Forecast.ForecastRecent` | main.py:203-217 | The recent window (`RecentShape`) has w = N // 4 points when N ≥ 4, and N otherwise. It holds the last w revenues, drawn at x = 1..w. |
| `Forecast.ForecastAxis` | main.py:214-234 | In `AxisShape`, future points sit at x = w+1..w+30. The ticks start at 1 with step (w+30) // 10 ≥ 3, stay at most w + 30, and none is missing. |
| `Forecast.PredictionSteps` | main.py:208-209 | Consecutive predictions differ by the slope, so they lie on one line. |
| `Forecast.LineStep` | main.py:209 | One day later, the fitted line's value is larger by exactly the slope. |
| `Forecast.BandOrder` | main.py:223-230 | Lower band = 0.9 × prediction and upper band = 1.1 × prediction. Lower ≤ upper exactly when the prediction is ≥ 0. |

## Left out

- The Tkinter window, buttons, file dialog, message boxes and event loop. The
  picker's and reader's outcome is the `Pick` parameter. The message shown
  is the `Notice` or `ViewError` value.
- All matplotlib drawing, `clear_plot`, tick-label styling and the toolbar.
  The model stops at the points, tick positions and band values handed to
  the chart.
- CSV parsing by `read_csv`. A parsed table is modelled as a "has
  `Daily_Revenue`" flag plus that column; other columns, and `.sum()` over
  them in the groupby, are not modelled.
- `LinearRegression.fit` and `predict`, which are a foreign library over
  floating point. The fitted line is an input (`Line`), and the model does
  not show that it is the least-squares fit.
- Floating point in general:
  - revenue values are integers, so sums are exact;
  - the band is computed over exact reals;
  - `int(N * 0.25)` is modelled with exact reals, which agrees with the
    float computation because 0.25 is a power of two and N is small.
- The forecast's own test for the revenue column at main.py:189-191. It cannot
  fail on a loaded dataset, because `Load` only stores tables with the
  column.
- Exceptions raised after `read_csv` returns inside `open_csv` (for example
  by the success message box). They are not modelled.
