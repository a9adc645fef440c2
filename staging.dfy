/**
 * The staging transformer (transform.py). A `StagingFrame` holds the staging
 * table as columns and rows and is changed in place, stage by stage: the
 * constructor merges the scraped records, then the time, movie and fact stages
 * add and retype columns, and finally the `url` column is dropped. Each stage
 * method is specified by a function on the rows; `StagedRow` states, in one
 * place, the row the whole pipeline produces for a merged group.
 */
module Staging {
  import opened Wrappers
  import opened Text
  import opened Table
  import opened Grouping

  /**
   * The errors the transformer raises: a URL without an id segment, a release
   * year without digits, a missing column, and `.str` on a column that holds
   * no text (pandas' `AttributeError`).
   */
  datatype TransformError = MalformedUrl | InvalidYear | MissingColumn(column: Column) | NoTextValues(column: Column)

  // ---------------------------------------------------------------------------
  // cell-level conversions

  /** `get_quarter_code`: the calendar quarter of a month. */
  function Quarter(month: int): (q: int)
    ensures 1 <= q <= 4
    ensures 1 <= month <= 12 ==> q == (month - 1) / 3 + 1
  {
    if month <= 3 then 1
    else if month <= 6 then 2
    else if month <= 9 then 3
    else 4
  }

  /** `clean_release_year`: the number spelled by the digits of the text; no digits is an error. */
  function CleanReleaseYear(s: string): (r: Result<nat, TransformError>)
    ensures r.Success? <==> exists i :: 0 <= i < |s| && IsDigit(s[i])
    ensures r.Failure? ==> r.error == InvalidYear
  {
    var d := Digits(s);
    if d == [] then Failure(InvalidYear) else Success(NumeralValue(d))
  }

  /** Digit-free noise around a year, such as "(" and ")" or "(I) (", is ignored. */
  lemma ReleaseYearAmidNoise(before: string, n: nat, after: string)
    requires Digits(before) == [] && Digits(after) == []
    ensures CleanReleaseYear(before + ShowNat(n) + after) == Success(n)
  {
    var s := ShowNat(n);
    DigitsOfDigits(s);
    DigitsConcat(before, s);
    assert Digits(before + s) == s;
    DigitsConcat(before + s, after);
    assert Digits(before + s + after) == s;
    NumeralOfShowNat(n);
  }

  lemma ReleaseYearInParentheses()
    ensures CleanReleaseYear("(2020)") == Success(2020)
  {
    assert ShowNat(2020) == "2020";
    assert Digits("(") == [] && Digits(")") == [];
    ReleaseYearAmidNoise("(", 2020, ")");
    assert "(" + ShowNat(2020) + ")" == "(2020)";
  }

  /** `url.split("/")[2]`: the third `/`-separated segment; fewer segments is an error. */
  function ImdbIdOf(url: string): (r: Result<string, TransformError>)
    ensures r.Success? <==> Occurrences(url, '/') >= 2
    ensures r.Success? ==> '/' !in r.value
    ensures r.Failure? ==> r.error == MalformedUrl
  {
    var parts := Split(url, '/');
    if |parts| < 3 then Failure(MalformedUrl) else Success(parts[2])
  }

  /** A detail-page path `/title/<id>/...` yields `<id>`. */
  lemma ImdbIdOfTitlePath(id: string, rest: string)
    requires '/' !in id
    ensures ImdbIdOf("/title/" + id + "/" + rest) == Success(id)
  {
    var url := "/title/" + id + "/" + rest;
    assert url == "" + ['/'] + ("title" + ['/'] + (id + ['/'] + rest));
    SplitAfterPiece(id, '/', rest);
    SplitAfterPiece("title", '/', id + ['/'] + rest);
    SplitAfterPiece("", '/', "title" + ['/'] + (id + ['/'] + rest));
  }

  /** The permissive numeric parse of one text cell: a number, or `Null` when unparsable. */
  function Numeric(s: string): (v: Value)
    ensures v == Null || v.Int?
    ensures v.Int? <==> |s| > 0 && AllDigits(s)
  {
    match ParseNumber(s)
    case Some(n) => Int(n)
    case None => Null
  }

  /** `pd.to_numeric(..., errors='coerce')` on one cell: never an error, `Null` stays `Null`. */
  function ToNumeric(v: Value): (r: Value)
    ensures r == Null || r.Int?
    ensures v == Null ==> r == Null
    ensures v.Int? ==> r == v
  {
    match v
    case Str(s) => Numeric(s)
    case Int(_) => v
    case _ => Null
  }

  /**
   * `to_numeric(column.str.replace(pattern, ""), errors='coerce')` on one cell:
   * text loses every occurrence of the pattern and is then parsed; a cell
   * that is not text becomes `Null`.
   */
  function StrippedNumeric(v: Value, pattern: string): (r: Value)
    requires |pattern| > 0
    ensures r == Null || r.Int?
    ensures !v.Str? ==> r == Null
  {
    match v
    case Str(s) => Numeric(RemoveAll(s, pattern))
    case _ => Null
  }

  /** The runtime conversion: the unit " min" is stripped. */
  function RuntimeCell(v: Value): Value
  {
    StrippedNumeric(v, " min")
  }

  lemma {:induction false} RemoveUnitSuffix(d: string)
    requires AllDigits(d)
    ensures RemoveAll(d + " min", " min") == d
  {
    if d == [] {
      assert (d + " min")[..4] == " min";
      assert (d + " min")[4..] == [];
    } else {
      var s := d + " min";
      assert s[..4][0] == d[0] && IsDigit(d[0]);
      assert s[..4] != " min";
      assert s[1..] == d[1..] + " min";
      RemoveUnitSuffix(d[1..]);
      assert [d[0]] + d[1..] == d;
    }
  }

  /** "<n> min" becomes the number n. */
  lemma RuntimeOfMinutes(n: nat)
    ensures RuntimeCell(Str(ShowNat(n) + " min")) == Int(n)
  {
    RemoveUnitSuffix(ShowNat(n));
    ParseShowNat(n);
  }

  /** Malformed runtime text becomes `Null`, not an error. */
  lemma RuntimeNotAvailable()
    ensures RuntimeCell(Str("N/A")) == Null
  {
    assert !IsDigit("N/A"[0]);
  }

  /** The earnings conversion: thousands separators are stripped. */
  function GrossCell(v: Value): Value
  {
    StrippedNumeric(v, ",")
  }

  /** Earnings printed with thousands separators parse to their number. */
  lemma GrossWithSeparators(n: nat)
    ensures GrossCell(Str(WithThousands(n))) == Int(n)
  {
    RemoveCharIsWithout(WithThousands(n), ',');
    WithoutSeparatorsValue(n);
  }

  function OptionCell(o: Option<string>): Value
  {
    match o
    case None => Null
    case Some(s) => Str(s)
  }

  // ---------------------------------------------------------------------------
  // frame shape

  /** Assigning to a column that is not yet in the frame appends it; an existing one keeps its place. */
  function AddColumns(columns: seq<Column>, added: seq<Column>): seq<Column>
    decreases |added|
  {
    if added == [] then columns
    else AddColumns(if added[0] in columns then columns else columns + [added[0]], added[1..])
  }

  /**
   * The frame then holds its old columns, in their old places, and the added
   * ones, and still lists no column twice.
   */
  lemma {:induction false} AddColumnsKeeps(columns: seq<Column>, added: seq<Column>)
    ensures forall c :: c in AddColumns(columns, added) <==> c in columns || c in added
    ensures NoDuplicates(columns) ==> NoDuplicates(AddColumns(columns, added))
    ensures |columns| <= |AddColumns(columns, added)| && AddColumns(columns, added)[..|columns|] == columns
    decreases |added|
  {
    if added != [] {
      var next := if added[0] in columns then columns else columns + [added[0]];
      AddColumnsKeeps(next, added[1..]);
      assert forall c :: c in added <==> c == added[0] || c in added[1..] by {
        assert added == [added[0]] + added[1..];
      }
      assert next[..|columns|] == columns;
    }
  }

  /** New columns are appended in the order they are assigned. */
  lemma {:induction false} AddNewColumns(columns: seq<Column>, added: seq<Column>)
    requires NoDuplicates(added)
    requires forall c :: c in added ==> c !in columns
    ensures AddColumns(columns, added) == columns + added
    decreases |added|
  {
    if added != [] {
      assert added[0] !in added[1..];
      AddNewColumns(columns + [added[0]], added[1..]);
      assert columns + [added[0]] + added[1..] == columns + added;
    }
  }

  /** Reassigning existing columns leaves the column list as it was. */
  lemma {:induction false} AddPresentColumns(columns: seq<Column>, added: seq<Column>)
    requires forall c :: c in added ==> c in columns
    ensures AddColumns(columns, added) == columns
    decreases |added|
  {
    if added != [] {
      AddPresentColumns(columns, added[1..]);
    }
  }

  /** `columns` without `c`, the others in order. */
  function RemoveColumn(columns: seq<Column>, c: Column): (r: seq<Column>)
    ensures forall x :: x in r <==> x in columns && x != c
    ensures NoDuplicates(columns) ==> NoDuplicates(r)
  {
    if columns == [] then []
    else
      var rest := RemoveColumn(columns[1..], c);
      assert NoDuplicates(columns) ==> NoDuplicates(columns[1..]) && columns[0] !in columns[1..];
      if columns[0] == c then rest else [columns[0]] + rest
  }

  lemma {:induction false} RemoveAbsentColumn(columns: seq<Column>, c: Column)
    requires c !in columns
    ensures RemoveColumn(columns, c) == columns
    decreases |columns|
  {
    if columns != [] {
      RemoveAbsentColumn(columns[1..], c);
      assert [columns[0]] + columns[1..] == columns;
    }
  }

  /** Removing a column that occurs once keeps the columns before and after it, in order. */
  lemma {:induction false} RemoveColumnBetween(before: seq<Column>, c: Column, after: seq<Column>)
    requires c !in before && c !in after
    ensures RemoveColumn(before + [c] + after, c) == before + after
    decreases |before|
  {
    if before == [] {
      assert before + [c] + after == [c] + after;
      assert ([c] + after)[1..] == after;
      RemoveAbsentColumn(after, c);
    } else {
      RemoveColumnBetween(before[1..], c, after);
      assert (before + [c] + after)[1..] == before[1..] + [c] + after;
      assert [before[0]] + (before[1..] + after) == before + after;
    }
  }

  // ---------------------------------------------------------------------------
  // the stages, as functions on the rows

  /** The columns after `groupby(...).agg(...).reset_index()`: the 15 keys, then the joined ranks. */
  const GroupedColumns: seq<Column> := [
    Title, Url, ReleaseYear, MpaaRating, RuntimeMinutes, Genres, ImdbRating, MetascoreRating,
    Actors, Directors, Summary, NumVotes, GrossEarnings, FileName, Timestamp, ImdbRank]

  const GroupedColumnSet: set<Column> := {
    Title, Url, ReleaseYear, MpaaRating, RuntimeMinutes, Genres, ImdbRating, MetascoreRating,
    Actors, Directors, Summary, NumVotes, GrossEarnings, FileName, Timestamp, ImdbRank}

  /** The merged row's cell in column `c`: an attribute of the group, or its joined ranks. */
  function GroupCell(g: Group, c: Column): Value
  {
    var a := g.attrs;
    match c
    case Title => Str(a.title)
    case Url => Str(a.url)
    case ReleaseYear => Str(a.releaseYear)
    case MpaaRating => OptionCell(a.mpaaRating)
    case RuntimeMinutes => OptionCell(a.runtime)
    case Genres => OptionCell(a.genres)
    case ImdbRating => OptionCell(a.imdbRating)
    case MetascoreRating => OptionCell(a.metascore)
    case Actors => Str(a.actors)
    case Directors => Str(a.directors)
    case Summary => Str(a.summary)
    case NumVotes => OptionCell(a.numVotes)
    case GrossEarnings => OptionCell(a.gross)
    case FileName => Str(a.fileName)
    case Timestamp => Stamp(a.timestamp)
    case ImdbRank => Str(g.ranks)
    case _ => Null
  }

  /** One merged row: the grouped columns, each holding its `GroupCell`. */
  function GroupRow(g: Group): Row
  {
    map c | c in GroupedColumnSet :: GroupCell(g, c)
  }

  /** The merged rows of the given groups, in order. */
  function GroupRows(groups: seq<Group>): (rows: seq<Row>)
    ensures |rows| == |groups|
    ensures forall i :: 0 <= i < |groups| ==> rows[i] == GroupRow(groups[i])
  {
    seq(|groups|, i requires 0 <= i < |groups| => GroupRow(groups[i]))
  }

  predicate HasStamps(rows: seq<Row>)
  {
    forall i :: 0 <= i < |rows| ==> Cell(rows[i], Timestamp).Stamp?
  }

  const TimeColumns: seq<Column> := [DayKey, CaptureDate, MonthCode, Year, QuarterCode]

  /** `transform_time_dimensions` on one row. */
  function TimeRow(row: Row): Row
    requires Cell(row, Timestamp).Stamp?
  {
    var d := Cell(row, Timestamp).t.date;
    row[DayKey := Null][CaptureDate := Day(d)][MonthCode := Int(d.month)][Year := Int(d.year)]
       [QuarterCode := Int(Quarter(d.month))]
  }

  function TimeStage(rows: seq<Row>): (r: seq<Row>)
    requires HasStamps(rows)
    ensures |r| == |rows|
    ensures forall i :: 0 <= i < |rows| ==> r[i] == TimeRow(rows[i])
  {
    seq(|rows|, i requires 0 <= i < |rows| => TimeRow(rows[i]))
  }

  /** The time stage adds the five time columns and leaves every other cell as it was. */
  lemma TimeRowFrame(row: Row)
    requires Cell(row, Timestamp).Stamp?
    ensures TimeRow(row).Keys == row.Keys + {DayKey, CaptureDate, MonthCode, Year, QuarterCode}
    ensures forall c :: c !in {DayKey, CaptureDate, MonthCode, Year, QuarterCode} ==> Cell(TimeRow(row), c) == Cell(row, c)
    ensures var t := TimeRow(row); var d := Cell(row, Timestamp).t.date;
      && Cell(t, DayKey) == Null && Cell(t, CaptureDate) == Day(d)
      && Cell(t, MonthCode) == Int(d.month) && Cell(t, Year) == Int(d.year)
      && Cell(t, QuarterCode) == Int(Quarter(d.month))
  {
  }

  /** The id segment of a row's URL; a missing URL fails like a malformed one. */
  function UrlId(row: Row): (r: Result<string, TransformError>)
    ensures r.Failure? ==> r.error == MalformedUrl
  {
    match Cell(row, Url)
    case Str(u) => ImdbIdOf(u)
    case _ => Failure(MalformedUrl)
  }

  /** The cleaned release year of a row; a missing year fails like one without digits. */
  function ReleaseYearOf(row: Row): (r: Result<nat, TransformError>)
    ensures r.Failure? ==> r.error == InvalidYear
  {
    match Cell(row, ReleaseYear)
    case Str(s) => CleanReleaseYear(s)
    case _ => Failure(InvalidYear)
  }

  /** `df.apply(lambda row: row.url.split("/")[2], axis=1)`: every row's id, or the error of the first row without one. */
  function ParseIds(rows: seq<Row>): (r: Result<seq<string>, TransformError>)
    ensures r.Success? <==> forall i :: 0 <= i < |rows| ==> UrlId(rows[i]).Success?
    ensures r.Success? ==> |r.value| == |rows| && forall i :: 0 <= i < |rows| ==> r.value[i] == UrlId(rows[i]).value
    ensures r.Failure? ==> r.error == MalformedUrl
  {
    if rows == [] then Success([])
    else
      var id :- UrlId(rows[0]);
      var ids :- ParseIds(rows[1..]);
      assert forall i :: 1 <= i < |rows| ==> rows[i] == rows[1..][i - 1];
      Success([id] + ids)
  }

  /** `df.apply(clean_release_year, axis=1)`: every row's year, or the error of the first row without one. */
  function ParseYears(rows: seq<Row>): (r: Result<seq<nat>, TransformError>)
    ensures r.Success? <==> forall i :: 0 <= i < |rows| ==> ReleaseYearOf(rows[i]).Success?
    ensures r.Success? ==> |r.value| == |rows| && forall i :: 0 <= i < |rows| ==> r.value[i] == ReleaseYearOf(rows[i]).value
    ensures r.Failure? ==> r.error == InvalidYear
  {
    if rows == [] then Success([])
    else
      var year :- ReleaseYearOf(rows[0]);
      var years :- ParseYears(rows[1..]);
      assert forall i :: 1 <= i < |rows| ==> rows[i] == rows[1..][i - 1];
      Success([year] + years)
  }

  function SetColumn(rows: seq<Row>, c: Column, v: Value): (r: seq<Row>)
    ensures |r| == |rows|
    ensures forall i :: 0 <= i < |rows| ==> r[i] == rows[i][c := v]
  {
    seq(|rows|, i requires 0 <= i < |rows| => rows[i][c := v])
  }

  function WithIds(rows: seq<Row>, ids: seq<string>): (r: seq<Row>)
    requires |ids| == |rows|
    ensures |r| == |rows|
    ensures forall i :: 0 <= i < |rows| ==> r[i] == rows[i][ImdbId := Str(ids[i])]
  {
    seq(|rows|, i requires 0 <= i < |rows| => rows[i][ImdbId := Str(ids[i])])
  }

  function WithRuntimes(rows: seq<Row>): (r: seq<Row>)
    ensures |r| == |rows|
    ensures forall i :: 0 <= i < |rows| ==> r[i] == rows[i][RuntimeMinutes := RuntimeCell(Cell(rows[i], RuntimeMinutes))]
  {
    seq(|rows|, i requires 0 <= i < |rows| => rows[i][RuntimeMinutes := RuntimeCell(Cell(rows[i], RuntimeMinutes))])
  }

  function WithYears(rows: seq<Row>, years: seq<nat>): (r: seq<Row>)
    requires |years| == |rows|
    ensures |r| == |rows|
    ensures forall i :: 0 <= i < |rows| ==> r[i] == rows[i][ReleaseYear := Int(years[i])]
  {
    seq(|rows|, i requires 0 <= i < |rows| => rows[i][ReleaseYear := Int(years[i])])
  }

  /** `transform_movie_dimensions` on one row, once its id and release year are known. */
  function MovieRow(row: Row, id: string, year: nat): Row
  {
    var keyed := row[MovieKey := Null][ImdbId := Str(id)];
    keyed[RuntimeMinutes := RuntimeCell(Cell(keyed, RuntimeMinutes))][ReleaseYear := Int(year)]
  }

  /** The movie stage sets the key, id, runtime and year and leaves every other cell as it was. */
  lemma MovieRowFrame(row: Row, id: string, year: nat)
    ensures MovieRow(row, id, year).Keys == row.Keys + {MovieKey, ImdbId, RuntimeMinutes, ReleaseYear}
    ensures forall c :: c !in {MovieKey, ImdbId, RuntimeMinutes, ReleaseYear} ==> Cell(MovieRow(row, id, year), c) == Cell(row, c)
    ensures var m := MovieRow(row, id, year);
      && Cell(m, MovieKey) == Null && Cell(m, ImdbId) == Str(id)
      && Cell(m, RuntimeMinutes) == RuntimeCell(Cell(row, RuntimeMinutes))
      && Cell(m, ReleaseYear) == Int(year)
  {
  }

  /**
   * Whether `.str` applies to column `c`: some cell holds text. A scraped
   * column without a single value is read as a numeric column of NaN, and the
   * accessor raises on it; a table without rows passes.
   */
  predicate TextColumn(rows: seq<Row>, c: Column)
  {
    rows == [] || exists i :: 0 <= i < |rows| && Cell(rows[i], c).Str?
  }

  /**
   * `transform_movie_dimensions`: null movie keys, the id from the URL,
   * numeric runtime and release year; the runtime column must hold some text.
   */
  function MovieStage(rows: seq<Row>): Result<seq<Row>, TransformError>
  {
    var keyed := SetColumn(rows, MovieKey, Null);
    var ids :- ParseIds(keyed);
    var withIds := WithIds(keyed, ids);
    if !TextColumn(withIds, RuntimeMinutes) then Failure(NoTextValues(RuntimeMinutes))
    else
      var withRuntime := WithRuntimes(withIds);
      var years :- ParseYears(withRuntime);
      Success(WithYears(withRuntime, years))
  }

  /** `transform_fact_elements` on one row; ratings and the timestamp keep their values. */
  function FactRow(row: Row): Row
  {
    row[GrossEarnings := GrossCell(Cell(row, GrossEarnings))]
       [MetascoreRating := ToNumeric(Cell(row, MetascoreRating))]
       [NumVotes := ToNumeric(Cell(row, NumVotes))]
  }

  /** The fact stage rewrites earnings, metascore and votes and leaves every other cell as it was. */
  lemma FactRowFrame(row: Row)
    ensures FactRow(row).Keys == row.Keys + {GrossEarnings, MetascoreRating, NumVotes}
    ensures forall c :: c !in {GrossEarnings, MetascoreRating, NumVotes} ==> Cell(FactRow(row), c) == Cell(row, c)
    ensures var f := FactRow(row);
      && Cell(f, GrossEarnings) == GrossCell(Cell(row, GrossEarnings))
      && Cell(f, MetascoreRating) == ToNumeric(Cell(row, MetascoreRating))
      && Cell(f, NumVotes) == ToNumeric(Cell(row, NumVotes))
  {
  }

  function FactStage(rows: seq<Row>): (r: seq<Row>)
    ensures |r| == |rows|
    ensures forall i :: 0 <= i < |rows| ==> r[i] == FactRow(rows[i])
  {
    seq(|rows|, i requires 0 <= i < |rows| => FactRow(rows[i]))
  }

  /**
   * `transform_fact_elements`: the earnings column must hold some text, or
   * `.str` raises before any column is rewritten; otherwise every row's fact
   * cells are converted.
   */
  function FactElements(rows: seq<Row>): (r: Result<seq<Row>, TransformError>)
    ensures r.Success? <==> TextColumn(rows, GrossEarnings)
    ensures r.Success? ==> r.value == FactStage(rows)
    ensures r.Failure? ==> r.error == NoTextValues(GrossEarnings)
  {
    if TextColumn(rows, GrossEarnings) then Success(FactStage(rows)) else Failure(NoTextValues(GrossEarnings))
  }

  /** `drop(c, axis=1)` on the rows. */
  function DropColumn(rows: seq<Row>, c: Column): (r: seq<Row>)
    ensures |r| == |rows|
    ensures forall i :: 0 <= i < |rows| ==> r[i] == rows[i] - {c}
  {
    seq(|rows|, i requires 0 <= i < |rows| => rows[i] - {c})
  }

  /** Dropping a column leaves the other cells as they were. */
  lemma DropFrame(row: Row, dropped: Column)
    ensures (row - {dropped}).Keys == row.Keys - {dropped}
    ensures forall c :: c != dropped ==> Cell(row - {dropped}, c) == Cell(row, c)
  {
  }

  /** The time, movie and fact stages and the drop of `url`, on the rows of the merged groups. */
  function StageGroups(groups: seq<Group>): Result<seq<Row>, TransformError>
  {
    var timed := TimeStage(GroupRows(groups));
    var movie :- MovieStage(timed);
    var fact :- FactElements(movie);
    Success(DropColumn(fact, Url))
  }

  /** `transform_staging_table`: merge the scraped records, then the four stages in order. */
  function StagingTable(raw: seq<RawRecord>): Result<seq<Row>, TransformError>
  {
    StageGroups(Merge(raw))
  }

  /** The staging table's columns: the grouped ones without `url`, then the time columns, the movie key and the id. */
  const StagingColumns: seq<Column> := [Title] + GroupedColumns[2..] + TimeColumns + [MovieKey, ImdbId]

  // ---------------------------------------------------------------------------
  // the staged row, stated once

  /** A merged group the movie stage can convert: its URL has an id segment and its release year a digit. */
  predicate Stageable(g: Group)
  {
    ImdbIdOf(g.attrs.url).Success? && CleanReleaseYear(g.attrs.releaseYear).Success?
  }

  /** Some value is given, or there are no values at all: a column read from them holds text or has no rows. */
  predicate AnyGiven(values: seq<Option<string>>)
  {
    values == [] || exists i :: 0 <= i < |values| && values[i].Some?
  }

  /** The runtimes of the given attribute tuples, in order. */
  function Runtimes(attrs: seq<Attributes>): (s: seq<Option<string>>)
    ensures |s| == |attrs|
    ensures forall i :: 0 <= i < |attrs| ==> s[i] == attrs[i].runtime
  {
    seq(|attrs|, i requires 0 <= i < |attrs| => attrs[i].runtime)
  }

  /** The gross earnings of the given attribute tuples, in order. */
  function Grosses(attrs: seq<Attributes>): (s: seq<Option<string>>)
    ensures |s| == |attrs|
    ensures forall i :: 0 <= i < |attrs| ==> s[i] == attrs[i].gross
  {
    seq(|attrs|, i requires 0 <= i < |attrs| => attrs[i].gross)
  }

  /**
   * The staging row the transformer produces for one convertible merged
   * group: its id and release year parsed, then the stages applied.
   */
  function StagedRow(g: Group): Row
    requires Stageable(g)
  {
    StagedRowWith(g, ImdbIdOf(g.attrs.url).value, CleanReleaseYear(g.attrs.releaseYear).value)
  }

  /** The one row `transform_staging_table` derives from a group whose id and release year parsed. */
  function StagedRowWith(g: Group, id: string, year: nat): Row
  {
    StageRow(GroupRow(g), id, year)
  }

  /** The time, movie and fact stages and the final drop of `url`, on one merged row. */
  function StageRow(grouped: Row, id: string, year: nat): Row
    requires Cell(grouped, Timestamp).Stamp?
  {
    FactRow(MovieRow(TimeRow(grouped), id, year)) - {Url}
  }

  /** Every merged row carries its capture timestamp, so the time stage applies. */
  lemma GroupRowsHaveStamps(groups: seq<Group>)
    ensures HasStamps(GroupRows(groups))
  {
    forall i | 0 <= i < |groups| ensures Cell(GroupRows(groups)[i], Timestamp) == Stamp(groups[i].attrs.timestamp) {
      GroupRowStamp(groups[i]);
    }
  }

  lemma GroupRowStamp(g: Group)
    ensures Cell(GroupRow(g), Timestamp) == Stamp(g.attrs.timestamp)
  {
  }

  /** The time columns are those of the capture date: month, year and the month's quarter. */
  predicate TimeConsistent(row: Row)
  {
    && Cell(row, CaptureDate).Day?
    && var d := Cell(row, CaptureDate).date;
    && Cell(row, MonthCode) == Int(d.month)
    && Cell(row, Year) == Int(d.year)
    && Cell(row, QuarterCode) == Int(Quarter(d.month))
  }

  // ---------------------------------------------------------------------------
  // what the pipeline produces

  /** The stages leave every merged column but `url`, and add the time, key, id and retyped columns. */
  lemma StageRowColumns(row: Row, id: string, year: nat)
    requires Cell(row, Timestamp).Stamp?
    ensures StageRow(row, id, year).Keys == row.Keys - {Url} +
      {DayKey, CaptureDate, MonthCode, Year, QuarterCode, MovieKey, ImdbId,
       RuntimeMinutes, ReleaseYear, GrossEarnings, MetascoreRating, NumVotes}
  {
  }

  /** Both surrogate keys are null until the loader fills them in. */
  lemma StageRowKeys(row: Row, id: string, year: nat)
    requires Cell(row, Timestamp).Stamp?
    ensures Cell(StageRow(row, id, year), DayKey) == Null
    ensures Cell(StageRow(row, id, year), MovieKey) == Null
  {
  }

  /** The capture date and its month. */
  lemma StageRowDateCells(row: Row, id: string, year: nat)
    requires Cell(row, Timestamp).Stamp?
    ensures Cell(StageRow(row, id, year), CaptureDate) == Day(Cell(row, Timestamp).t.date)
    ensures Cell(StageRow(row, id, year), MonthCode) == Int(Cell(row, Timestamp).t.date.month)
  {
  }

  /** The year and the quarter of the capture date. */
  lemma StageRowPeriodCells(row: Row, id: string, year: nat)
    requires Cell(row, Timestamp).Stamp?
    ensures Cell(StageRow(row, id, year), Year) == Int(Cell(row, Timestamp).t.date.year)
    ensures Cell(StageRow(row, id, year), QuarterCode) == Int(Quarter(Cell(row, Timestamp).t.date.month))
  {
  }

  /** The id parsed from the URL and the release year; `url` is gone. */
  lemma StageRowIdCells(row: Row, id: string, year: nat)
    requires Cell(row, Timestamp).Stamp?
    ensures Cell(StageRow(row, id, year), ImdbId) == Str(id)
    ensures Cell(StageRow(row, id, year), ReleaseYear) == Int(year)
    ensures Url !in StageRow(row, id, year)
  {
  }

  /** Runtime and metascore, each coerced to a number or null. */
  lemma StageRowDimensionNumbers(row: Row, id: string, year: nat)
    requires Cell(row, Timestamp).Stamp?
    ensures Cell(StageRow(row, id, year), RuntimeMinutes) == RuntimeCell(Cell(row, RuntimeMinutes))
    ensures Cell(StageRow(row, id, year), MetascoreRating) == ToNumeric(Cell(row, MetascoreRating))
  {
  }

  /** Vote count and earnings, each coerced to a number or null. */
  lemma StageRowFactNumbers(row: Row, id: string, year: nat)
    requires Cell(row, Timestamp).Stamp?
    ensures Cell(StageRow(row, id, year), NumVotes) == ToNumeric(Cell(row, NumVotes))
    ensures Cell(StageRow(row, id, year), GrossEarnings) == GrossCell(Cell(row, GrossEarnings))
  {
  }

  /** Title, ranks, ratings, genres, credits, summary, source file and capture time are kept as they were. */
  lemma StageRowKeepsCells(row: Row, id: string, year: nat, c: Column)
    requires Cell(row, Timestamp).Stamp?
    requires c in {Title, ImdbRank, MpaaRating, Genres, ImdbRating, Actors, Directors, Summary, FileName, Timestamp}
    ensures Cell(StageRow(row, id, year), c) == Cell(row, c)
  {
    var timed := TimeRow(row);
    var movie := MovieRow(timed, id, year);
    TimeRowKeeps(row, c);
    MovieRowKeeps(timed, id, year, c);
    FactRowKeeps(movie, c);
  }

  lemma TimeRowKeeps(row: Row, c: Column)
    requires Cell(row, Timestamp).Stamp?
    requires c !in {DayKey, CaptureDate, MonthCode, Year, QuarterCode}
    ensures Cell(TimeRow(row), c) == Cell(row, c)
  {
  }

  lemma MovieRowKeeps(row: Row, id: string, year: nat, c: Column)
    requires c !in {MovieKey, ImdbId, RuntimeMinutes, ReleaseYear}
    ensures Cell(MovieRow(row, id, year), c) == Cell(row, c)
  {
  }

  lemma FactRowKeeps(row: Row, c: Column)
    requires c !in {GrossEarnings, MetascoreRating, NumVotes, Url}
    ensures Cell(FactRow(row) - {Url}, c) == Cell(row, c)
  {
  }

  /** A merged row holds the grouped columns, each with its `GroupCell`. */
  lemma GroupRowCells(g: Group)
    ensures GroupRow(g).Keys == GroupedColumnSet
    ensures forall c :: Cell(GroupRow(g), c) == if c in GroupedColumnSet then GroupCell(g, c) else Null
  {
  }

  /**
   * Every staged row has no `url`, null surrogate keys, the parsed id, and
   * time columns that agree with its capture date: what the loader relies on.
   */
  lemma StagedRowFitsLoader(g: Group, id: string, year: nat)
    ensures var r := StagedRowWith(g, id, year);
      && Url !in r
      && Cell(r, DayKey) == Null && Cell(r, MovieKey) == Null
      && Cell(r, ImdbId) == Str(id)
      && TimeConsistent(r)
  {
    var row := GroupRow(g);
    GroupRowStamp(g);
    StageRowKeys(row, id, year);
    StageRowDateCells(row, id, year);
    StageRowPeriodCells(row, id, year);
    StageRowIdCells(row, id, year);
  }

  /** The movie stage reads the id from the merged row's URL. */
  lemma GroupRowUrlId(g: Group)
    ensures UrlId(TimeRow(GroupRow(g))[MovieKey := Null]) == ImdbIdOf(g.attrs.url)
  {
  }

  /** The movie stage reads the release year from the merged row's release-year text. */
  lemma GroupRowReleaseYear(g: Group, id: string)
    ensures var keyed := TimeRow(GroupRow(g))[MovieKey := Null][ImdbId := Str(id)];
      ReleaseYearOf(keyed[RuntimeMinutes := RuntimeCell(Cell(keyed, RuntimeMinutes))]) == CleanReleaseYear(g.attrs.releaseYear)
  {
  }

  /** The merged runtime is still in place when the movie stage converts it. */
  lemma GroupRowRuntime(g: Group, id: string)
    ensures Cell(TimeRow(GroupRow(g))[MovieKey := Null][ImdbId := Str(id)], RuntimeMinutes) == OptionCell(g.attrs.runtime)
  {
  }

  /** The merged earnings are still in place when the fact stage converts them. */
  lemma GroupRowGross(g: Group, id: string, year: nat)
    ensures Cell(MovieRow(TimeRow(GroupRow(g)), id, year), GrossEarnings) == OptionCell(g.attrs.gross)
  {
  }

  /** A column filled from optional scraped values holds text exactly when some value is given. */
  lemma TextColumnGiven(rows: seq<Row>, c: Column, values: seq<Option<string>>)
    requires |rows| == |values|
    requires forall i :: 0 <= i < |rows| ==> Cell(rows[i], c) == OptionCell(values[i])
    ensures TextColumn(rows, c) <==> AnyGiven(values)
  {
    if rows != [] && AnyGiven(values) {
      var i :| 0 <= i < |values| && values[i].Some?;
      assert Cell(rows[i], c).Str?;
    }
    if rows != [] && TextColumn(rows, c) {
      var i :| 0 <= i < |rows| && Cell(rows[i], c).Str?;
      assert values[i].Some?;
    }
  }

  /** The merged rows with a null movie key: what the movie stage reads the ids from. */
  function KeyedGroupRows(groups: seq<Group>): (rows: seq<Row>)
    ensures |rows| == |groups|
    ensures forall i :: 0 <= i < |groups| ==> rows[i] == TimeRow(GroupRow(groups[i]))[MovieKey := Null]
  {
    GroupRowsHaveStamps(groups);
    SetColumn(TimeStage(GroupRows(groups)), MovieKey, Null)
  }

  /** Every merged URL has an id segment. */
  predicate UrlsParse(groups: seq<Group>)
  {
    forall i :: 0 <= i < |groups| ==> ImdbIdOf(groups[i].attrs.url).Success?
  }

  /** The id stage parses every merged URL exactly when each has an id segment. */
  lemma GroupIds(groups: seq<Group>)
    ensures ParseIds(KeyedGroupRows(groups)).Success? <==> UrlsParse(groups)
  {
    var keyed := KeyedGroupRows(groups);
    forall i | 0 <= i < |groups| ensures UrlId(keyed[i]) == ImdbIdOf(groups[i].attrs.url) {
      GroupRowUrlId(groups[i]);
    }
  }

  /** After the ids are written, the runtime column holds text exactly when some group has a runtime. */
  lemma GroupRuntimeText(groups: seq<Group>, ids: seq<string>)
    requires |ids| == |groups|
    ensures TextColumn(WithIds(KeyedGroupRows(groups), ids), RuntimeMinutes) <==> AnyGiven(Runtimes(GroupAttrs(groups)))
  {
    var withIds := WithIds(KeyedGroupRows(groups), ids);
    var runtimes := Runtimes(GroupAttrs(groups));
    forall i | 0 <= i < |groups| ensures Cell(withIds[i], RuntimeMinutes) == OptionCell(runtimes[i]) {
      GroupRowRuntime(groups[i], ids[i]);
    }
    TextColumnGiven(withIds, RuntimeMinutes, runtimes);
  }

  /** The year stage cleans every merged release year exactly when each has a digit. */
  lemma GroupYears(groups: seq<Group>, ids: seq<string>)
    requires |ids| == |groups|
    ensures ParseYears(WithRuntimes(WithIds(KeyedGroupRows(groups), ids))).Success? <==>
      forall i :: 0 <= i < |groups| ==> CleanReleaseYear(groups[i].attrs.releaseYear).Success?
  {
    var withRuntime := WithRuntimes(WithIds(KeyedGroupRows(groups), ids));
    forall i | 0 <= i < |groups|
      ensures ReleaseYearOf(withRuntime[i]) == CleanReleaseYear(groups[i].attrs.releaseYear)
    {
      GroupRowReleaseYear(groups[i], ids[i]);
    }
  }

  /** After the movie stage, each row still holds its group's earnings. */
  lemma GroupGross(groups: seq<Group>, ids: seq<string>, years: seq<nat>)
    requires |ids| == |groups| && |years| == |groups|
    ensures var movie := WithYears(WithRuntimes(WithIds(KeyedGroupRows(groups), ids)), years);
      forall i :: 0 <= i < |groups| ==> Cell(movie[i], GrossEarnings) == OptionCell(groups[i].attrs.gross)
  {
    var movie := WithYears(WithRuntimes(WithIds(KeyedGroupRows(groups), ids)), years);
    forall i | 0 <= i < |groups| ensures Cell(movie[i], GrossEarnings) == OptionCell(groups[i].attrs.gross) {
      assert movie[i] == MovieRow(TimeRow(GroupRow(groups[i])), ids[i], years[i]);
      GroupRowGross(groups[i], ids[i], years[i]);
    }
  }

  /**
   * The movie stage on the merged rows fails on a malformed URL first, then on
   * a runtime column without text, then on a release year without digits.
   */
  lemma MovieStageOfGroups(groups: seq<Group>)
    ensures var m := MovieStage(TimeStage(GroupRows(groups)));
      && (m.Success? <==> (forall i :: 0 <= i < |groups| ==> Stageable(groups[i])) && AnyGiven(Runtimes(GroupAttrs(groups))))
      && (!UrlsParse(groups) ==> m == Failure(MalformedUrl))
      && (UrlsParse(groups) && !AnyGiven(Runtimes(GroupAttrs(groups))) ==> m == Failure(NoTextValues(RuntimeMinutes)))
  {
    var keyed := KeyedGroupRows(groups);
    assert SetColumn(TimeStage(GroupRows(groups)), MovieKey, Null) == keyed;
    GroupIds(groups);
    var ids := ParseIds(keyed);
    if ids.Success? {
      GroupRuntimeText(groups, ids.value);
      GroupYears(groups, ids.value);
    }
  }

  /**
   * On success, the movie stage keeps one row per group with the group's
   * earnings in place, so the earnings column holds text exactly when some
   * group has earnings.
   */
  lemma MovieStageGross(groups: seq<Group>)
    ensures var m := MovieStage(TimeStage(GroupRows(groups)));
      m.Success? ==> (TextColumn(m.value, GrossEarnings) <==> AnyGiven(Grosses(GroupAttrs(groups))))
  {
    var keyed := KeyedGroupRows(groups);
    assert SetColumn(TimeStage(GroupRows(groups)), MovieKey, Null) == keyed;
    var ids := ParseIds(keyed);
    if ids.Success? {
      var withRuntime := WithRuntimes(WithIds(keyed, ids.value));
      var years := ParseYears(withRuntime);
      if years.Success? {
        var movie := WithYears(withRuntime, years.value);
        GroupGross(groups, ids.value, years.value);
        TextColumnGiven(movie, GrossEarnings, Grosses(GroupAttrs(groups)));
      }
    }
  }

  /**
   * The stages succeed exactly when every merged group can be converted and
   * both the runtime and the earnings column hold some text.
   */
  lemma StageGroupsFails(groups: seq<Group>)
    ensures StageGroups(groups).Success? <==>
      && (forall i :: 0 <= i < |groups| ==> Stageable(groups[i]))
      && AnyGiven(Runtimes(GroupAttrs(groups)))
      && AnyGiven(Grosses(GroupAttrs(groups)))
  {
    MovieStageOfGroups(groups);
    StageGroupsAfterMovie(groups);
    MovieStageGross(groups);
  }

  /**
   * The order of the errors: a malformed URL anywhere is reported first, then
   * a runtime column without text, and an earnings column without text only
   * once the movie stage has passed.
   */
  lemma StageGroupsErrorOrder(groups: seq<Group>)
    ensures !UrlsParse(groups) ==> StageGroups(groups) == Failure(MalformedUrl)
    ensures UrlsParse(groups) && !AnyGiven(Runtimes(GroupAttrs(groups))) ==>
      StageGroups(groups) == Failure(NoTextValues(RuntimeMinutes))
    ensures
      && (forall i :: 0 <= i < |groups| ==> Stageable(groups[i]))
      && AnyGiven(Runtimes(GroupAttrs(groups)))
      && !AnyGiven(Grosses(GroupAttrs(groups)))
      ==> StageGroups(groups) == Failure(NoTextValues(GrossEarnings))
  {
    MovieStageOfGroups(groups);
    StageGroupsAfterMovie(groups);
    MovieStageGross(groups);
  }

  /** The stages after the movie stage: its error, or the earnings check and the drop of `url`. */
  lemma StageGroupsAfterMovie(groups: seq<Group>)
    ensures var m := MovieStage(TimeStage(GroupRows(groups)));
      && (m.Failure? ==> StageGroups(groups) == Failure(m.error))
      && (m.Success? && !TextColumn(m.value, GrossEarnings) ==> StageGroups(groups) == Failure(NoTextValues(GrossEarnings)))
      && (m.Success? && TextColumn(m.value, GrossEarnings) ==> StageGroups(groups) == Success(DropColumn(FactStage(m.value), Url)))
  {
  }

  /** On success, the stages yield one row per merged group: the `StagedRow` of that group. */
  lemma StageGroupsValues(groups: seq<Group>)
    requires StageGroups(groups).Success?
    ensures |StageGroups(groups).value| == |groups|
    ensures forall i :: 0 <= i < |groups| ==> Stageable(groups[i])
    ensures forall i :: 0 <= i < |groups| ==> StageGroups(groups).value[i] == StagedRow(groups[i])
  {
    StageGroupsFails(groups);
    GroupRowsHaveStamps(groups);
    var keyed := SetColumn(TimeStage(GroupRows(groups)), MovieKey, Null);
    var ids := ParseIds(keyed);
    var withIds := WithIds(keyed, ids.value);
    assert TextColumn(withIds, RuntimeMinutes);
    var withRuntime := WithRuntimes(withIds);
    var years := ParseYears(withRuntime);
    var movie := WithYears(withRuntime, years.value);
    assert MovieStage(TimeStage(GroupRows(groups))) == Success(movie);
    assert StageGroups(groups) == Success(DropColumn(FactStage(movie), Url));
    forall i | 0 <= i < |groups| ensures StageGroups(groups).value[i] == StagedRow(groups[i]) {
      var g := groups[i];
      GroupRowUrlId(g);
      GroupRowReleaseYear(g, ids.value[i]);
      assert ids.value[i] == ImdbIdOf(g.attrs.url).value;
      assert years.value[i] == CleanReleaseYear(g.attrs.releaseYear).value;
      assert movie[i] == MovieRow(TimeRow(GroupRow(g)), ids.value[i], years.value[i]);
      assert StageGroups(groups).value[i] == FactRow(movie[i]) - {Url};
    }
  }

  /** A merged group can be converted exactly when every record merged into it can. */
  /** A scraped record the transformer accepts: its URL has an id segment and its release year a digit. */
  predicate Acceptable(r: RawRecord)
  {
    && Occurrences(r.attrs.url, '/') >= 2
    && exists j :: 0 <= j < |r.attrs.releaseYear| && IsDigit(r.attrs.releaseYear[j])
  }

  lemma StageableRecords(raw: seq<RawRecord>)
    ensures (forall i :: 0 <= i < |Merge(raw)| ==> Stageable(Merge(raw)[i])) <==>
      forall k :: 0 <= k < |raw| ==> Acceptable(raw[k])
  {
    var groups := Merge(raw);
    if forall i :: 0 <= i < |groups| ==> Stageable(groups[i]) {
      forall k | 0 <= k < |raw| ensures Acceptable(raw[k]) {
        assert AttrsOf(raw)[k] == raw[k].attrs;
        assert raw[k].attrs in GroupAttrs(groups);
        var i :| 0 <= i < |groups| && GroupAttrs(groups)[i] == raw[k].attrs;
        assert Stageable(groups[i]);
        assert groups[i].attrs == raw[k].attrs;
        assert ImdbIdOf(raw[k].attrs.url).Success?;
        assert CleanReleaseYear(raw[k].attrs.releaseYear).Success?;
      }
    } else {
      var i :| 0 <= i < |groups| && !Stageable(groups[i]);
      assert GroupAttrs(groups)[i] in AttrsOf(raw);
      var k :| 0 <= k < |raw| && AttrsOf(raw)[k] == groups[i].attrs;
      assert raw[k].attrs == groups[i].attrs;
    }
  }

  /** When two attribute lists hold the same tuples, a runtime or earnings value is given in one exactly when in the other. */
  lemma SameTuplesGiven(a: seq<Attributes>, b: seq<Attributes>)
    requires forall x :: x in a <==> x in b
    ensures AnyGiven(Runtimes(a)) <==> AnyGiven(Runtimes(b))
    ensures AnyGiven(Grosses(a)) <==> AnyGiven(Grosses(b))
  {
    if a != [] {
      assert a[0] in b;
    }
    if b != [] {
      assert b[0] in a;
    }
    GivenIn(a, b);
    GivenIn(b, a);
  }

  /** A runtime or earnings value given in `a` is given in any list holding `a`'s tuples. */
  lemma GivenIn(a: seq<Attributes>, b: seq<Attributes>)
    requires forall x :: x in a ==> x in b
    ensures a != [] && AnyGiven(Runtimes(a)) ==> AnyGiven(Runtimes(b))
    ensures a != [] && AnyGiven(Grosses(a)) ==> AnyGiven(Grosses(b))
  {
    if a != [] && AnyGiven(Runtimes(a)) {
      var i :| 0 <= i < |a| && Runtimes(a)[i].Some?;
      assert a[i] in b;
      var j :| 0 <= j < |b| && b[j] == a[i];
      assert Runtimes(b)[j].Some?;
    }
    if a != [] && AnyGiven(Grosses(a)) {
      var i :| 0 <= i < |a| && Grosses(a)[i].Some?;
      assert a[i] in b;
      var j :| 0 <= j < |b| && b[j] == a[i];
      assert Grosses(b)[j].Some?;
    }
  }

  /**
   * The pipeline succeeds exactly when every scraped URL has an id segment,
   * every release year a digit, and some record has a runtime and some has
   * earnings; a batch with runtimes but no earnings at all fails on the
   * earnings column.
   */
  lemma StagingTableSucceeds(raw: seq<RawRecord>)
    ensures StagingTable(raw).Success? <==>
      && (forall k :: 0 <= k < |raw| ==> Acceptable(raw[k]))
      && AnyGiven(Runtimes(AttrsOf(raw)))
      && AnyGiven(Grosses(AttrsOf(raw)))
    ensures
      && (forall k :: 0 <= k < |raw| ==> Acceptable(raw[k]))
      && AnyGiven(Runtimes(AttrsOf(raw)))
      && !AnyGiven(Grosses(AttrsOf(raw)))
      ==> StagingTable(raw) == Failure(NoTextValues(GrossEarnings))
  {
    StageGroupsFails(Merge(raw));
    StageGroupsErrorOrder(Merge(raw));
    StageableRecords(raw);
    SameTuplesGiven(GroupAttrs(Merge(raw)), AttrsOf(raw));
  }

  /** One scraped movie with a runtime but no earnings: `.str` on the earnings column raises. */
  lemma OneRecordWithoutEarnings(r: RawRecord)
    requires Acceptable(r) && r.attrs.runtime.Some? && r.attrs.gross.None?
    ensures StagingTable([r]) == Failure(NoTextValues(GrossEarnings))
  {
    StagingTableSucceeds([r]);
    assert AttrsOf([r])[0] == r.attrs;
    assert Runtimes(AttrsOf([r]))[0].Some?;
    assert !AnyGiven(Grosses(AttrsOf([r])));
  }

  /**
   * Every staged row has no `url`, null surrogate keys, an id, and time
   * columns that agree with its capture date.
   */
  lemma StagedRowsFitLoader(groups: seq<Group>)
    requires StageGroups(groups).Success?
    ensures forall i :: 0 <= i < |StageGroups(groups).value| ==>
      var row := StageGroups(groups).value[i];
      && Url !in row
      && Cell(row, DayKey) == Null && Cell(row, MovieKey) == Null
      && Cell(row, ImdbId).Str?
      && TimeConsistent(row)
  {
    StageGroupsValues(groups);
    var rows := StageGroups(groups).value;
    forall i | 0 <= i < |rows|
      ensures Url !in rows[i]
      ensures Cell(rows[i], DayKey) == Null && Cell(rows[i], MovieKey) == Null
      ensures Cell(rows[i], ImdbId).Str?
      ensures TimeConsistent(rows[i])
    {
      var g := groups[i];
      StagedRowFitsLoader(g, ImdbIdOf(g.attrs.url).value, CleanReleaseYear(g.attrs.releaseYear).value);
    }
  }

  // ---------------------------------------------------------------------------
  // the staging frame, changed in place

  function RemoveColumns(columns: seq<Column>, removed: seq<Column>): seq<Column>
  {
    if removed == [] then columns
    else RemoveColumn(RemoveColumns(columns, removed[..|removed| - 1]), removed[|removed| - 1])
  }

  function DropColumns(rows: seq<Row>, removed: seq<Column>): seq<Row>
  {
    if removed == [] then rows
    else DropColumn(DropColumns(rows, removed[..|removed| - 1]), removed[|removed| - 1])
  }

  /** The five time columns are new to the grouped frame. */
  lemma TimeColumnsFresh()
    ensures NoDuplicates(TimeColumns)
    ensures forall c :: c in TimeColumns ==> c !in GroupedColumns
  {
  }

  /** The two movie key columns are new after the time stage. */
  lemma MovieColumnsFresh()
    ensures forall c :: c in [MovieKey, ImdbId] ==> c !in GroupedColumns + TimeColumns
  {
  }

  /** The fact stage only reassigns columns that are already there. */
  lemma FactColumnsPresent()
    ensures forall c :: c in [GrossEarnings, MetascoreRating, NumVotes] ==> c in GroupedColumns + TimeColumns + [MovieKey, ImdbId]
  {
  }

  /** After the time stage: the grouped columns, then the five time columns. */
  lemma TimedColumns()
    ensures AddColumns(GroupedColumns, TimeColumns) == GroupedColumns + TimeColumns
  {
    TimeColumnsFresh();
    AddNewColumns(GroupedColumns, TimeColumns);
  }

  /** After the movie stage: then the movie key and the id. */
  lemma KeyedColumns()
    ensures AddColumns(GroupedColumns + TimeColumns, [MovieKey, ImdbId]) == GroupedColumns + TimeColumns + [MovieKey, ImdbId]
  {
    MovieColumnsFresh();
    AddNewColumns(GroupedColumns + TimeColumns, [MovieKey, ImdbId]);
  }

  /** The fact stage keeps the column list. */
  lemma FactColumns()
    ensures AddColumns(GroupedColumns + TimeColumns + [MovieKey, ImdbId], [GrossEarnings, MetascoreRating, NumVotes])
      == GroupedColumns + TimeColumns + [MovieKey, ImdbId]
  {
    FactColumnsPresent();
    AddPresentColumns(GroupedColumns + TimeColumns + [MovieKey, ImdbId], [GrossEarnings, MetascoreRating, NumVotes]);
  }

  /** Dropping `url` leaves exactly the staging columns, in pandas' order. */
  lemma StagedColumnOrder()
    ensures Url in GroupedColumns + TimeColumns + [MovieKey, ImdbId]
    ensures RemoveColumn(GroupedColumns + TimeColumns + [MovieKey, ImdbId], Url) == StagingColumns
  {
    var after := GroupedColumns[2..] + TimeColumns + [MovieKey, ImdbId];
    assert GroupedColumns + TimeColumns + [MovieKey, ImdbId] == [Title] + [Url] + after;
    RemoveColumnBetween([Title], Url, after);
  }

  /** `MoviePerformanceStaging`: the staging table as a frame of columns and rows. */
  class StagingFrame {
    var columns: seq<Column>
    var rows: seq<Row>

    /** No column is listed twice. */
    ghost predicate Valid()
      reads this
    {
      NoDuplicates(columns)
    }

    /** `__init__`: merge the scraped records into one row per attribute tuple. */
    constructor (raw: seq<RawRecord>)
      ensures Valid()
      ensures columns == GroupedColumns && rows == GroupRows(Merge(raw))
    {
      columns := GroupedColumns;
      rows := GroupRows(Merge(raw));
    }

    /** `transform_time_dimensions`: null day keys, and the date, month, year and quarter of each capture. */
    method TransformTimeDimensions()
      requires Valid() && HasStamps(rows)
      modifies this
      ensures Valid()
      ensures columns == AddColumns(old(columns), TimeColumns)
      ensures rows == TimeStage(old(rows))
    {
      AddColumnsKeeps(columns, TimeColumns);
      rows := TimeStage(rows);
      columns := AddColumns(columns, TimeColumns);
    }

    /** `transform_movie_dimensions`: null movie keys, the id from the URL, numeric runtime and release year. */
    method TransformMovieDimensions() returns (outcome: Outcome<TransformError>)
      requires Valid()
      modifies this
      ensures Valid()
      ensures outcome.Pass? <==> MovieStage(old(rows)).Success?
      ensures outcome.Pass? ==> rows == MovieStage(old(rows)).value
      ensures outcome.Pass? ==> columns == AddColumns(old(columns), [MovieKey, ImdbId])
      ensures outcome.Fail? ==> outcome.error == MovieStage(old(rows)).error
      ensures outcome.Fail? && ParseIds(SetColumn(old(rows), MovieKey, Null)).Failure? ==>
        && rows == SetColumn(old(rows), MovieKey, Null)
        && columns == AddColumns(old(columns), [MovieKey])
      ensures outcome.Fail? && ParseIds(SetColumn(old(rows), MovieKey, Null)).Success? ==>
        var withIds := WithIds(SetColumn(old(rows), MovieKey, Null), ParseIds(SetColumn(old(rows), MovieKey, Null)).value);
        && rows == (if TextColumn(withIds, RuntimeMinutes) then WithRuntimes(withIds) else withIds)
        && columns == AddColumns(old(columns), [MovieKey, ImdbId])
    {
      AddColumnsKeeps(columns, [MovieKey, ImdbId]);
      ghost var target := AddColumns(columns, [MovieKey, ImdbId]);
      rows := SetColumn(rows, MovieKey, Null);
      columns := AddColumns(columns, [MovieKey]);
      var ids := ParseIds(rows);
      if ids.Failure? {
        return Fail(ids.error);
      }
      rows := WithIds(rows, ids.value);
      columns := AddColumns(columns, [ImdbId]);
      assert columns == target;
      if !TextColumn(rows, RuntimeMinutes) {
        return Fail(NoTextValues(RuntimeMinutes));
      }
      rows := WithRuntimes(rows);
      var years := ParseYears(rows);
      if years.Failure? {
        return Fail(years.error);
      }
      rows := WithYears(rows, years.value);
      outcome := Pass;
    }

    /**
     * `transform_fact_elements`: numeric earnings, metascore and vote count; an
     * earnings column without text raises before anything is changed.
     */
    method TransformFactElements() returns (outcome: Outcome<TransformError>)
      requires Valid()
      modifies this
      ensures Valid()
      ensures outcome.Pass? <==> FactElements(old(rows)).Success?
      ensures outcome.Pass? ==> rows == FactElements(old(rows)).value
      ensures outcome.Pass? ==> columns == AddColumns(old(columns), [GrossEarnings, MetascoreRating, NumVotes])
      ensures outcome.Pass? && GrossEarnings in old(columns) && MetascoreRating in old(columns) && NumVotes in old(columns) ==>
        columns == old(columns)
      ensures outcome.Fail? ==> outcome.error == FactElements(old(rows)).error && rows == old(rows) && columns == old(columns)
    {
      if !TextColumn(rows, GrossEarnings) {
        return Fail(NoTextValues(GrossEarnings));
      }
      AddColumnsKeeps(columns, [GrossEarnings, MetascoreRating, NumVotes]);
      if GrossEarnings in columns && MetascoreRating in columns && NumVotes in columns {
        AddPresentColumns(columns, [GrossEarnings, MetascoreRating, NumVotes]);
      }
      rows := FactStage(rows);
      columns := AddColumns(columns, [GrossEarnings, MetascoreRating, NumVotes]);
      outcome := Pass;
    }

    /** `remove_unneeded_columns`: drop each listed column, here only `url`; a missing column raises. */
    method RemoveUnneededColumns() returns (outcome: Outcome<TransformError>)
      requires Valid()
      modifies this
      ensures Valid()
      ensures outcome.Pass? <==> Url in old(columns)
      ensures outcome.Pass? ==> columns == RemoveColumn(old(columns), Url) && rows == DropColumn(old(rows), Url)
      ensures outcome.Fail? ==> outcome.error == MissingColumn(Url) && columns == old(columns) && rows == old(rows)
    {
      var toRemove := [Url];
      var i := 0;
      while i < |toRemove|
        invariant 0 <= i <= |toRemove|
        invariant Valid()
        invariant columns == RemoveColumns(old(columns), toRemove[..i])
        invariant rows == DropColumns(old(rows), toRemove[..i])
        invariant forall k :: 0 <= k < i ==> toRemove[k] in RemoveColumns(old(columns), toRemove[..k])
      {
        var col := toRemove[i];
        if col !in columns {
          assert i == 0 && toRemove[..0] == [];
          return Fail(MissingColumn(col));
        }
        columns := RemoveColumn(columns, col);
        rows := DropColumn(rows, col);
        i := i + 1;
        assert toRemove[..i][..i - 1] == toRemove[..i - 1];
      }
      assert toRemove[..i] == [Url] && [Url][..0] == [];
      outcome := Pass;
    }
  }

  /** `transform_staging_table`: build the frame from the scraped records and run the four stages in order. */
  method TransformStagingTable(raw: seq<RawRecord>) returns (frame: StagingFrame, outcome: Outcome<TransformError>)
    ensures outcome.Pass? <==> StagingTable(raw).Success?
    ensures outcome.Pass? ==> frame.Valid() && frame.columns == StagingColumns && frame.rows == StagingTable(raw).value
    ensures outcome.Fail? ==> outcome.error == StagingTable(raw).error
  {
    frame := new StagingFrame(raw);
    GroupRowsHaveStamps(Merge(raw));
    frame.TransformTimeDimensions();
    TimedColumns();
    outcome := frame.TransformMovieDimensions();
    if outcome.Fail? {
      return;
    }
    KeyedColumns();
    outcome := frame.TransformFactElements();
    if outcome.Fail? {
      return;
    }
    FactColumns();
    StagedColumnOrder();
    outcome := frame.RemoveUnneededColumns();
  }
}
