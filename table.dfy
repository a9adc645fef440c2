/**
 * The in-memory table model shared by the staging transformer and the delta
 * loader. A table is a sequence of rows; a row maps column names to cell
 * values. A missing value (pandas NaN, SQL NULL) is the cell `Null`.
 */
module Table {

  /** The columns that appear in the staging frame and in the warehouse tables. */
  datatype Column =
    | Title | Url | ImdbRank | ReleaseYear | MpaaRating | RuntimeMinutes | Genres
    | ImdbRating | MetascoreRating | Actors | Directors | Summary | NumVotes
    | GrossEarnings | FileName | Timestamp
    | DayKey | CaptureDate | MonthCode | Year | QuarterCode | MovieKey | ImdbId

  /** A calendar date. */
  datatype Date = Date(year: int, month: int, day: int)

  /** A capture timestamp: its date and, opaque to this model, the time of day. */
  datatype CaptureTime = CaptureTime(date: Date, timeOfDay: nat)

  datatype Value =
    | Null
    | Str(s: string)
    | Int(n: int)
    | Day(date: Date)
    | Stamp(t: CaptureTime)

  type Row = map<Column, Value>

  /** The value of column `c` in `row`; a column the row lacks reads as `Null`. */
  function Cell(row: Row, c: Column): Value
  {
    if c in row then row[c] else Null
  }

  /** `SELECT c1, ..., ck` of one row: the row restricted to the given columns. */
  function Project(row: Row, cols: set<Column>): (t: Row)
    ensures t.Keys == cols
    ensures forall c :: c in cols ==> t[c] == Cell(row, c)
  {
    map c | c in cols :: Cell(row, c)
  }

  /** `SELECT c1, ..., ck FROM rows`, one tuple per row, duplicates kept. */
  function Projected(rows: seq<Row>, cols: set<Column>): (ts: seq<Row>)
    ensures |ts| == |rows|
    ensures forall i :: 0 <= i < |rows| ==> ts[i] == Project(rows[i], cols)
  {
    seq(|rows|, i requires 0 <= i < |rows| => Project(rows[i], cols))
  }

  /** Projecting a tuple again onto its own columns, or onto fewer, changes nothing else. */
  lemma ProjectProject(row: Row, outer: set<Column>, inner: set<Column>)
    requires inner <= outer
    ensures Project(Project(row, outer), inner) == Project(row, inner)
  {
  }

  /** A cell outside the projected columns does not affect the projection. */
  lemma ProjectIgnores(row: Row, cols: set<Column>, c: Column, v: Value)
    requires c !in cols
    ensures Project(row[c := v], cols) == Project(row, cols)
  {
    assert forall k :: k in cols ==> Cell(row[c := v], k) == Cell(row, k);
  }

  lemma ProjectedMember(rows: seq<Row>, cols: set<Column>, i: int)
    requires 0 <= i < |rows|
    ensures Project(rows[i], cols) in Projected(rows, cols)
  {
    assert Projected(rows, cols)[i] == Project(rows[i], cols);
  }

  predicate NoDuplicates<T(==)>(s: seq<T>)
  {
    forall i, j :: 0 <= i < j < |s| ==> s[i] != s[j]
  }

  /**
   * `SELECT DISTINCT ... FROM a EXCEPT SELECT DISTINCT ... FROM b`: each tuple
   * of `a` that does not occur in `b`, once, in order of first occurrence.
   * Tuples are compared as values, so two NULLs in the same column are equal,
   * which is how SQL's EXCEPT treats them.
   */
  function Except<T(==,!new)>(a: seq<T>, b: seq<T>): (r: seq<T>)
    ensures NoDuplicates(r)
    ensures forall t :: t in r <==> t in a && t !in b
    ensures |r| <= |a|
  {
    if a == [] then []
    else
      var r := Except(a[..|a| - 1], b);
      var t := a[|a| - 1];
      assert forall x :: x in a <==> x in a[..|a| - 1] || x == t by {
        assert a == a[..|a| - 1] + [t];
      }
      if t in b || t in r then r else r + [t]
  }

  /** `SELECT DISTINCT ... FROM a`. */
  function Distinct<T(==,!new)>(a: seq<T>): (r: seq<T>)
    ensures NoDuplicates(r)
    ensures forall t :: t in r <==> t in a
  {
    Except(a, [])
  }
}
