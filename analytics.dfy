/**
 * The streak calculator: over the saved check-in history, oldest row first,
 * the number of most recent consecutive rows in which a habit was done.
 */
module Analytics {
  import opened Wrappers

  /** One saved check-in: each column's cell, None standing for a null (missing) value. */
  type Row = map<string, Option<bool>>

  /** The saved history as a data frame: its column names and its rows, oldest first. */
  datatype Table = Table(columns: set<string>, rows: seq<Row>)

  /** A data frame is empty when it has no rows or no columns. */
  predicate IsEmpty(data: Table)
    ensures |data.rows| == 0 ==> IsEmpty(data)
    ensures data.columns == {} ==> IsEmpty(data)
    ensures !IsEmpty(data) ==> |data.rows| > 0 && exists c :: c in data.columns
  {
    |data.rows| == 0 || |data.columns| == 0
  }

  /** A row's cell in a column; a key the row lacks reads as null. */
  function Cell(row: Row, column: string): (c: Option<bool>)
    ensures column !in row ==> c == None
    ensures c.Some? ==> column in row && row[column] == c
    ensures column in row ==> c == row[column]
  {
    if column in row then row[column] else None
  }

  /** The cell after `fillna(0).astype(bool)`: a null is not done. */
  function Completed(row: Row, column: string): (b: bool)
    ensures b <==> Cell(row, column) == Some(true)
  {
    match Cell(row, column)
    case None => false
    case Some(done) => done
  }

  /** The habit column as booleans, oldest row first. */
  function Series(data: Table, column: string): (s: seq<bool>)
    ensures |s| == |data.rows|
    ensures forall i :: 0 <= i < |s| ==> s[i] == Completed(data.rows[i], column)
  {
    seq(|data.rows|, i requires 0 <= i < |data.rows| => Completed(data.rows[i], column))
  }

  /** The length of the longest suffix of `s` that is all true. */
  function TrailingTrue(s: seq<bool>): (n: nat)
    ensures n <= |s|
    ensures forall k :: |s| - n <= k < |s| ==> s[k]
    ensures n < |s| ==> !s[|s| - n - 1]
  {
    if |s| == 0 || !s[|s| - 1] then 0
    else 1 + TrailingTrue(s[..|s| - 1])
  }

  /** `calculate_streak` as a function: zero without data or without the column, else the trailing run. */
  function Streak(data: Table, column: string): (n: nat)
    ensures n <= |data.rows|
    ensures IsEmpty(data) || column !in data.columns ==> n == 0
    ensures forall k :: |data.rows| - n <= k < |data.rows| ==> Completed(data.rows[k], column)
    ensures !IsEmpty(data) && column in data.columns && n < |data.rows| ==>
      !Completed(data.rows[|data.rows| - n - 1], column)
  {
    if IsEmpty(data) || column !in data.columns then 0
    else TrailingTrue(Series(data, column))
  }

  /**
   * `calculate_streak`: guards for an empty frame and a missing column, then
   * a scan from the newest row backwards that stops at the first row not done.
   */
  method CalculateStreak(data: Table, habitColumn: string) returns (streak: nat)
    ensures streak == Streak(data, habitColumn)
    ensures streak <= |data.rows|
    ensures IsEmpty(data) || habitColumn !in data.columns ==> streak == 0
    ensures forall k :: |data.rows| - streak <= k < |data.rows| ==> Completed(data.rows[k], habitColumn)
    ensures !IsEmpty(data) && habitColumn in data.columns && streak < |data.rows| ==>
      !Completed(data.rows[|data.rows| - streak - 1], habitColumn)
  {
    if |data.rows| == 0 || |data.columns| == 0 {
      return 0;
    }
    if habitColumn !in data.columns {
      return 0;
    }
    var series := Series(data, habitColumn);
    streak := 0;
    var i := |series|;
    while i > 0
      invariant 0 <= i <= |series|
      invariant streak == |series| - i
      invariant forall k :: i <= k < |series| ==> series[k]
    {
      if !series[i - 1] {
        break;
      }
      streak := streak + 1;
      i := i - 1;
    }
    TrailingTrueUnique(series, streak);
  }

  /** The trailing run is the only count whose suffix is all true and cannot be extended. */
  lemma TrailingTrueUnique(s: seq<bool>, n: nat)
    requires n <= |s|
    requires forall k :: |s| - n <= k < |s| ==> s[k]
    requires n < |s| ==> !s[|s| - n - 1]
    ensures TrailingTrue(s) == n
  {
  }

  /**
   * The history with one more check-in saved after the others. The first
   * save writes the header from the check-in's own keys; later saves append
   * under the header already written.
   */
  function Append(data: Table, row: Row): (r: Table)
    ensures |data.rows| == 0 ==> r.columns == row.Keys
    ensures |data.rows| > 0 ==> r.columns == data.columns
    ensures |r.rows| == |data.rows| + 1
    ensures r.rows[..|data.rows|] == data.rows && r.rows[|data.rows|] == row
  {
    Table(if |data.rows| == 0 then row.Keys else data.columns, data.rows + [row])
  }

  /** If the latest check-in did not complete the habit (or left it null), the streak is zero whatever came before. */
  lemma LatestMissedNoStreak(data: Table, column: string)
    requires |data.rows| > 0 && !Completed(data.rows[|data.rows| - 1], column)
    ensures Streak(data, column) == 0
  {
  }

  /** A history that is all done in the column counts every row. */
  lemma AllDoneFullStreak(data: Table, column: string)
    requires column in data.columns
    requires forall k :: 0 <= k < |data.rows| ==> Completed(data.rows[k], column)
    ensures Streak(data, column) == |data.rows|
  {
    if !IsEmpty(data) {
      TrailingTrueUnique(Series(data, column), |data.rows|);
    }
  }

  /** For the history [missed, done x N], oldest first, the streak is N. */
  lemma MissedThenDoneStreak(data: Table, column: string)
    requires column in data.columns && |data.rows| > 0
    requires !Completed(data.rows[0], column)
    requires forall k :: 1 <= k < |data.rows| ==> Completed(data.rows[k], column)
    ensures Streak(data, column) == |data.rows| - 1
  {
    TrailingTrueUnique(Series(data, column), |data.rows| - 1);
  }

  /**
   * Saving a check-in that completed the habit extends the streak by one:
   * on the first save the header comes from the check-in, so the column is there.
   */
  lemma AppendDoneExtendsStreak(data: Table, column: string, row: Row)
    requires |data.rows| == 0 || column in data.columns
    requires Completed(row, column)
    ensures Streak(Append(data, row), column) == Streak(data, column) + 1
  {
    var series, series' := Series(data, column), Series(Append(data, row), column);
    assert series'[..|series|] == series;
    if IsEmpty(data) {
      assert |data.rows| == 0;
      assert series' == [true];
    }
  }

  /** Saving a check-in that missed the habit, or left it null, resets the streak to zero. */
  lemma AppendMissedResetsStreak(data: Table, column: string, row: Row)
    requires !Completed(row, column)
    ensures Streak(Append(data, row), column) == 0
  {
    LatestMissedNoStreak(Append(data, row), column);
  }
}
