/** The dataset state behind "Open CSV": a single process-wide table that is
    either absent or holds the `Daily_Revenue` column of at most 730 rows,
    each under the row label it had in the file. */
module Loader {
  import opened Outcomes
  import opened Series

  /** Rows kept by a load: the last two years of days. */
  const MaxRows: nat := 730

  /** A table reduced to its revenue column. `first` is the row label of the
      first row; row i carries label `first + i`. A freshly read file is
      labelled from 0, and `tail` keeps labels, so after a load `first` is
      the number of rows the file had beyond the last 730. */
  datatype Dataset = Dataset(first: nat, revenue: seq<int>)

  /** What the file picker and the CSV reader deliver to a load. */
  datatype Pick =
    | Cancelled                               // the picker returned no path
    | ReadFailed                              // reading or parsing the file raised
    | Read(hasRevenue: bool, rows: seq<int>)  // a parsed table: whether it has the
                                              // `Daily_Revenue` column, and that column

  /** The message box a load shows, if any. */
  datatype Notice = Silent | Loaded | MissingColumn | ReadError

  /** The loaded dataset never exceeds MaxRows rows. */
  predicate Bounded(df: Option<Dataset>)
  {
    df.Some? ==> |df.value.revenue| <= MaxRows
  }

  /** `tail(k)` on a labelled table: the last min(n, k) rows, keeping labels. */
  function Window(d: Dataset, k: nat): (w: Dataset)
    ensures w.revenue == Tail(d.revenue, k)
    ensures w.first + |w.revenue| == d.first + |d.revenue|
  {
    var r := Tail(d.revenue, k);
    Dataset(d.first + |d.revenue| - |r|, r)
  }

  /** `d` is exactly the last min(n, MaxRows) rows of the file column `rows`,
      in their original order and under their original labels. */
  predicate IsRecentPart(d: Dataset, rows: seq<int>)
  {
    && |d.revenue| == Min(|rows|, MaxRows)
    && d.first + |d.revenue| == |rows|
    && forall i :: 0 <= i < |d.revenue| ==> d.revenue[i] == rows[d.first + i]
  }

  /** The dataset after a load. A cancelled picker and a read failure leave
      the current dataset as it was; a table without the revenue column
      leaves no dataset at all, discarding an earlier one; any other table
      replaces the dataset by its last MaxRows rows. */
  function Load(current: Option<Dataset>, pick: Pick): (next: Option<Dataset>)
    ensures !pick.Read? ==> next == current
    ensures pick.Read? && !pick.hasRevenue ==> next == None
    ensures pick.Read? && pick.hasRevenue ==> next.Some? && IsRecentPart(next.value, pick.rows)
    ensures Bounded(current) ==> Bounded(next)
  {
    match pick
    case Cancelled => current
    case ReadFailed => current
    case Read(hasRevenue, rows) =>
      if hasRevenue then Some(Window(Dataset(0, rows), MaxRows)) else None
  }

  /** The process-wide dataset and the "Open CSV" action that replaces it. */
  class Session {
    var df: Option<Dataset>

    ghost predicate Valid()
      reads this
    {
      Bounded(df)
    }

    /** At start-up no dataset is loaded. */
    constructor ()
      ensures Valid() && df == None
    {
      df := None;
    }

    /** "Open CSV": the dataset moves as Load says, and the notice tells
        which way the load went. */
    method OpenCsv(pick: Pick) returns (notice: Notice)
      requires Valid()
      modifies this
      ensures Valid()
      ensures df == Load(old(df), pick)
      ensures notice == Silent <==> pick.Cancelled?
      ensures notice == ReadError <==> pick.ReadFailed?
      ensures notice == MissingColumn <==> pick.Read? && !pick.hasRevenue
      ensures notice == Loaded <==> pick.Read? && pick.hasRevenue
    {
      match pick {
        case Cancelled =>
          notice := Silent;
        case ReadFailed =>
          // the reader raised before anything was assigned
          notice := ReadError;
        case Read(hasRevenue, rows) =>
          df := Some(Dataset(0, rows));
          if !hasRevenue {
            df := None;
            notice := MissingColumn;
            return;
          }
          df := Some(Window(df.value, MaxRows));
          notice := Loaded;
      }
    }
  }
}
