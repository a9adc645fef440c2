/**
 * The delta loader: after the staging table has been replaced, it brings the
 * warehouse up to date. New movie and day tuples go into the two dimension
 * tables (the database hands out their surrogate keys), the keys are copied
 * back into the staging rows, and the staging rows whose metric snapshot the
 * fact table has not seen yet are appended to it.
 */
module Load {
  import opened Wrappers
  import opened Table

  // ---------------------------------------------------------------------------
  // the warehouse tables

  /** The columns of a `day_dim` tuple, besides its key. */
  const TimeCols: set<Column> := {CaptureDate, MonthCode, QuarterCode, Year}

  /** The columns of a `movie_dim` tuple, besides its key. */
  const MovieCols: set<Column> := {ImdbId, Title, ReleaseYear, RuntimeMinutes, MpaaRating, Genres, Summary, Actors, Directors}

  /** A movie's metric snapshot: the tuple the fact delta compares. */
  const DeltaCols: set<Column> := {MovieKey, ImdbRank, GrossEarnings, ImdbRating, MetascoreRating, NumVotes}

  /** The columns of a `movie_performance_fact` row. */
  const FactCols: set<Column> := {DayKey, MovieKey, ImdbRank, GrossEarnings, ImdbRating, MetascoreRating, NumVotes, FileName, Timestamp}

  /**
   * The four tables, and the next value of each dimension's key sequence (the
   * database assigns `day_key` and `movie_key` when a row is appended).
   */
  datatype Tables = Tables(
    staging: seq<Row>,
    dayDim: seq<Row>,
    movieDim: seq<Row>,
    fact: seq<Row>,
    nextDayKey: int,
    nextMovieKey: int)

  // ---------------------------------------------------------------------------
  // EXCEPT queries

  /**
   * `SELECT DISTINCT cols FROM source EXCEPT SELECT DISTINCT cols FROM target`:
   * every tuple of the source that the target lacks, once.
   */
  function NewTuples(source: seq<Row>, target: seq<Row>, cols: set<Column>): (d: seq<Row>)
    ensures NoDuplicates(d)
    ensures forall tup :: tup in d <==> tup in Projected(source, cols) && tup !in Projected(target, cols)
  {
    Except(Projected(source, cols), Projected(target, cols))
  }

  /** The query finds nothing exactly when every source tuple already occurs in the target. */
  lemma NewTuplesEmpty(source: seq<Row>, target: seq<Row>, cols: set<Column>)
    ensures NewTuples(source, target, cols) == [] <==>
      forall i :: 0 <= i < |source| ==> Project(source[i], cols) in Projected(target, cols)
  {
    var d := NewTuples(source, target, cols);
    if d != [] {
      assert d[0] in d;
      var i :| 0 <= i < |source| && Projected(source, cols)[i] == d[0];
      assert Project(source[i], cols) !in Projected(target, cols);
    } else {
      forall i | 0 <= i < |source| ensures Project(source[i], cols) in Projected(target, cols) {
        ProjectedMember(source, cols, i);
      }
    }
  }

  /** `get_new_time_dim`: the staging time tuples `day_dim` does not hold yet. */
  function NewTimeDim(t: Tables): seq<Row>
  {
    NewTuples(t.staging, t.dayDim, TimeCols)
  }

  /** `get_new_movie_dim`: the staging movie tuples `movie_dim` does not hold yet. */
  function NewMovieDim(t: Tables): seq<Row>
  {
    NewTuples(t.staging, t.movieDim, MovieCols)
  }

  // ---------------------------------------------------------------------------
  // appending to a dimension

  /** The rows as the database stores them: the i-th one gets key `next + i`. */
  function Keyed(rows: seq<Row>, key: Column, next: int): (r: seq<Row>)
    ensures |r| == |rows|
    ensures forall i :: 0 <= i < |rows| ==> r[i] == rows[i][key := Int(next + i)]
  {
    seq(|rows|, i requires 0 <= i < |rows| => rows[i][key := Int(next + i)])
  }

  /** A key column outside the tuple's columns does not change what the tuple projects to. */
  lemma KeyedProjects(tuples: seq<Row>, cols: set<Column>, key: Column, next: int, i: int)
    requires key !in cols
    requires 0 <= i < |tuples|
    requires tuples[i].Keys == cols
    ensures Project(Keyed(tuples, key, next)[i], cols) == tuples[i]
  {
    ProjectIgnores(tuples[i], cols, key, Int(next + i));
  }

  /**
   * After the new tuples are appended, with their keys, every source tuple
   * occurs in the dimension.
   */
  lemma {:induction false} AppendCovers(source: seq<Row>, dim: seq<Row>, cols: set<Column>, key: Column, next: int)
    requires key !in cols
    ensures var grown := dim + Keyed(NewTuples(source, dim, cols), key, next);
      forall i :: 0 <= i < |source| ==> Project(source[i], cols) in Projected(grown, cols)
  {
    var d := NewTuples(source, dim, cols);
    var added := Keyed(d, key, next);
    var grown := dim + added;
    forall i | 0 <= i < |source| ensures Project(source[i], cols) in Projected(grown, cols) {
      var tup := Project(source[i], cols);
      ProjectedMember(source, cols, i);
      if tup in Projected(dim, cols) {
        var j :| 0 <= j < |dim| && Projected(dim, cols)[j] == tup;
        assert grown[j] == dim[j];
        ProjectedMember(grown, cols, j);
      } else {
        var k :| 0 <= k < |d| && d[k] == tup;
        KeyedProjects(d, cols, key, next, k);
        assert grown[|dim| + k] == added[k];
        ProjectedMember(grown, cols, |dim| + k);
      }
    }
  }

  /** A dimension whose keys are all assigned, distinct, and below the next key the database hands out. */
  predicate KeysFresh(dim: seq<Row>, key: Column, next: int)
  {
    && (forall j :: 0 <= j < |dim| ==> Cell(dim[j], key).Int? && Cell(dim[j], key).n < next)
    && (forall j, k :: 0 <= j < k < |dim| ==> Cell(dim[j], key) != Cell(dim[k], key))
  }

  /** Appending rows with keys counted up from `next` keeps the keys fresh. */
  lemma AppendKeepsKeysFresh(dim: seq<Row>, rows: seq<Row>, key: Column, next: int)
    requires KeysFresh(dim, key, next)
    ensures KeysFresh(dim + Keyed(rows, key, next), key, next + |rows|)
  {
    var grown := dim + Keyed(rows, key, next);
    forall j | |dim| <= j < |grown| ensures Cell(grown[j], key) == Int(next + j - |dim|) {
    }
  }

  /** The appended dimension: the old rows, then the new tuples with their keys. */
  function DimAppended(source: seq<Row>, dim: seq<Row>, cols: set<Column>, key: Column, next: int): (grown: seq<Row>)
    ensures |grown| == |dim| + |NewTuples(source, dim, cols)|
    ensures grown[..|dim|] == dim
  {
    dim + Keyed(NewTuples(source, dim, cols), key, next)
  }

  /**
   * `create_new_time_dim_values`: append the new time tuples to `day_dim` when
   * there are any; otherwise nothing changes.
   */
  function TimeDimAppended(t: Tables): Tables
  {
    var d := NewTimeDim(t);
    if d == [] then t
    else t.(dayDim := DimAppended(t.staging, t.dayDim, TimeCols, DayKey, t.nextDayKey), nextDayKey := t.nextDayKey + |d|)
  }

  /**
   * `create_new_movie_dim_values`: append the new movie tuples to `movie_dim`
   * when there are any; otherwise nothing changes.
   */
  function MovieDimAppended(t: Tables): Tables
  {
    var d := NewMovieDim(t);
    if d == [] then t
    else t.(movieDim := DimAppended(t.staging, t.movieDim, MovieCols, MovieKey, t.nextMovieKey), nextMovieKey := t.nextMovieKey + |d|)
  }

  /**
   * Only `day_dim` and its key sequence change; the old rows stay first and
   * exactly the new tuples are added; afterwards every staging time tuple is in
   * `day_dim`, so a second append finds nothing.
   */
  lemma TimeDimAppend(t: Tables)
    ensures var u := TimeDimAppended(t);
      && u.staging == t.staging && u.movieDim == t.movieDim && u.fact == t.fact && u.nextMovieKey == t.nextMovieKey
      && u.dayDim[..|t.dayDim|] == t.dayDim
      && |u.dayDim| == |t.dayDim| + |NewTimeDim(t)|
      && u.nextDayKey == t.nextDayKey + |NewTimeDim(t)|
      && (NewTimeDim(t) == [] ==> u == t)
      && (forall i :: 0 <= i < |t.staging| ==> Project(t.staging[i], TimeCols) in Projected(u.dayDim, TimeCols))
      && NewTimeDim(u) == []
  {
    var u := TimeDimAppended(t);
    if NewTimeDim(t) == [] {
      NewTuplesEmpty(t.staging, t.dayDim, TimeCols);
    } else {
      AppendCovers(t.staging, t.dayDim, TimeCols, DayKey, t.nextDayKey);
    }
    NewTuplesEmpty(u.staging, u.dayDim, TimeCols);
  }

  /** The same for `movie_dim`: only it and its key sequence change, and afterwards it holds every staging movie tuple. */
  lemma MovieDimAppend(t: Tables)
    ensures var u := MovieDimAppended(t);
      && u.staging == t.staging && u.dayDim == t.dayDim && u.fact == t.fact && u.nextDayKey == t.nextDayKey
      && u.movieDim[..|t.movieDim|] == t.movieDim
      && |u.movieDim| == |t.movieDim| + |NewMovieDim(t)|
      && u.nextMovieKey == t.nextMovieKey + |NewMovieDim(t)|
      && (NewMovieDim(t) == [] ==> u == t)
      && (forall i :: 0 <= i < |t.staging| ==> Project(t.staging[i], MovieCols) in Projected(u.movieDim, MovieCols))
      && NewMovieDim(u) == []
  {
    var u := MovieDimAppended(t);
    if NewMovieDim(t) == [] {
      NewTuplesEmpty(t.staging, t.movieDim, MovieCols);
    } else {
      AppendCovers(t.staging, t.movieDim, MovieCols, MovieKey, t.nextMovieKey);
    }
    NewTuplesEmpty(u.staging, u.movieDim, MovieCols);
  }

  // ---------------------------------------------------------------------------
  // key backfill: UPDATE staging SET key = dim.key FROM dim WHERE staging.join = dim.join

  /** SQL `=`: NULL equals nothing, not even NULL. */
  predicate SqlEq(a: Value, b: Value)
  {
    a != Null && a == b
  }

  /** Row `j` is the first dimension row whose `join` cell equals `v`. */
  predicate FirstMatchAt(dim: seq<Row>, join: Column, v: Value, j: int)
  {
    && 0 <= j < |dim|
    && SqlEq(v, Cell(dim[j], join))
    && forall k :: 0 <= k < j ==> !SqlEq(v, Cell(dim[k], join))
  }

  /** The first dimension row whose `join` cell equals `v` in the SQL sense. */
  function FirstMatch(dim: seq<Row>, join: Column, v: Value): (m: Option<nat>)
    ensures m.Some? ==> m.value < |dim| && SqlEq(v, Cell(dim[m.value], join))
    ensures m.Some? ==> forall j :: 0 <= j < m.value ==> !SqlEq(v, Cell(dim[j], join))
    ensures m.None? <==> forall j :: 0 <= j < |dim| ==> !SqlEq(v, Cell(dim[j], join))
  {
    if dim == [] then None
    else if SqlEq(v, Cell(dim[0], join)) then Some(0)
    else match FirstMatch(dim[1..], join, v)
      case None => None
      case Some(k) => Some(k + 1)
  }

  /** The first match is the only row with that property. */
  lemma FirstMatchIs(dim: seq<Row>, join: Column, v: Value, j: int)
    requires FirstMatchAt(dim, join, v, j)
    ensures FirstMatch(dim, join, v) == Some(j)
  {
    var m := FirstMatch(dim, join, v);
    assert m.Some?;
    assert !(m.value < j);
    assert !(m.value > j);
  }

  /**
   * One staging row after the update: the key of the first matching dimension
   * row, or the row unchanged when none matches. (Where several rows match, the
   * database may pick any of them; the model picks the first.)
   */
  function BackfillRow(row: Row, dim: seq<Row>, join: Column, key: Column): Row
  {
    match FirstMatch(dim, join, Cell(row, join))
    case None => row
    case Some(j) => row[key := Cell(dim[j], key)]
  }

  function Backfilled(rows: seq<Row>, dim: seq<Row>, join: Column, key: Column): (r: seq<Row>)
    ensures |r| == |rows|
    ensures forall i :: 0 <= i < |rows| ==> r[i] == BackfillRow(rows[i], dim, join, key)
  {
    seq(|rows|, i requires 0 <= i < |rows| => BackfillRow(rows[i], dim, join, key))
  }

  /**
   * The update writes only the key column, and only on a row whose join value
   * some dimension row shares; there it writes the first such row's key.
   */
  lemma BackfillRowEffect(row: Row, dim: seq<Row>, join: Column, key: Column)
    ensures forall c :: c != key ==> Cell(BackfillRow(row, dim, join, key), c) == Cell(row, c)
    ensures (forall j :: 0 <= j < |dim| ==> !SqlEq(Cell(row, join), Cell(dim[j], join))) ==> BackfillRow(row, dim, join, key) == row
    ensures forall j :: FirstMatchAt(dim, join, Cell(row, join), j) ==> Cell(BackfillRow(row, dim, join, key), key) == Cell(dim[j], key)
  {
    forall j | FirstMatchAt(dim, join, Cell(row, join), j)
      ensures Cell(BackfillRow(row, dim, join, key), key) == Cell(dim[j], key)
    {
      FirstMatchIs(dim, join, Cell(row, join), j);
    }
  }

  /** With the first-row pick, updating a row a second time changes nothing. */
  lemma BackfillRowIdempotent(row: Row, dim: seq<Row>, join: Column, key: Column)
    requires join != key
    ensures BackfillRow(BackfillRow(row, dim, join, key), dim, join, key) == BackfillRow(row, dim, join, key)
  {
    var once := BackfillRow(row, dim, join, key);
    assert Cell(once, join) == Cell(row, join);
    var m := FirstMatch(dim, join, Cell(row, join));
    if m.Some? {
      assert once[key := Cell(dim[m.value], key)] == once;
    }
  }

  /**
   * Running the update twice against the same dimension gives what running it
   * once gives, when both runs pick the first matching row.
   */
  lemma BackfillIdempotent(rows: seq<Row>, dim: seq<Row>, join: Column, key: Column)
    requires join != key
    ensures Backfilled(Backfilled(rows, dim, join, key), dim, join, key) == Backfilled(rows, dim, join, key)
  {
    forall i | 0 <= i < |rows| {
      BackfillRowIdempotent(rows[i], dim, join, key);
    }
  }

  lemma ProjectBackfillRow(row: Row, dim: seq<Row>, join: Column, key: Column, cols: set<Column>)
    requires key !in cols
    ensures Project(BackfillRow(row, dim, join, key), cols) == Project(row, cols)
  {
    var m := FirstMatch(dim, join, Cell(row, join));
    if m.Some? {
      ProjectIgnores(row, cols, key, Cell(dim[m.value], key));
    }
  }

  /** The update does not change what the rows project to on columns other than the key. */
  lemma ProjectedBackfilled(rows: seq<Row>, dim: seq<Row>, join: Column, key: Column, cols: set<Column>)
    requires key !in cols
    ensures Projected(Backfilled(rows, dim, join, key), cols) == Projected(rows, cols)
  {
    var after := Backfilled(rows, dim, join, key);
    forall i | 0 <= i < |rows| ensures Projected(after, cols)[i] == Projected(rows, cols)[i] {
      ProjectBackfillRow(rows[i], dim, join, key, cols);
    }
  }

  /** A write to some other column neither changes the update's choice nor is undone by it. */
  lemma BackfillRowCommutes(row: Row, dim: seq<Row>, join: Column, key: Column, c: Column, v: Value)
    requires c != join && c != key
    ensures BackfillRow(row[c := v], dim, join, key) == BackfillRow(row, dim, join, key)[c := v]
  {
    assert Cell(row[c := v], join) == Cell(row, join);
  }

  /**
   * `populate_day_key_staging_table`: each staging row takes the `day_key` of
   * a `day_dim` row with the same `capture_date` (the only column compared).
   */
  function DayKeysBackfilled(t: Tables): Tables
  {
    t.(staging := Backfilled(t.staging, t.dayDim, CaptureDate, DayKey))
  }

  /**
   * `populate_movie_key_staging_table`: each staging row takes the `movie_key`
   * of a `movie_dim` row with the same `imdb_id` (the only column compared).
   */
  function MovieKeysBackfilled(t: Tables): Tables
  {
    t.(staging := Backfilled(t.staging, t.movieDim, ImdbId, MovieKey))
  }

  /**
   * When every dimension row's `imdb_id` names one movie tuple, the join on
   * `imdb_id` alone finds the dimension row holding the staging row's whole
   * movie tuple, whenever that tuple is in the dimension.
   */
  lemma MovieJoinFindsTuple(row: Row, dim: seq<Row>)
    requires forall j, k :: 0 <= j < |dim| && 0 <= k < |dim| && Cell(dim[j], ImdbId) == Cell(dim[k], ImdbId) ==>
      Project(dim[j], MovieCols) == Project(dim[k], MovieCols)
    requires Cell(row, ImdbId) != Null
    requires Project(row, MovieCols) in Projected(dim, MovieCols)
    ensures FirstMatch(dim, ImdbId, Cell(row, ImdbId)).Some?
    ensures Project(dim[FirstMatch(dim, ImdbId, Cell(row, ImdbId)).value], MovieCols) == Project(row, MovieCols)
  {
    var j :| 0 <= j < |dim| && Projected(dim, MovieCols)[j] == Project(row, MovieCols);
    assert Cell(dim[j], ImdbId) == Project(dim[j], MovieCols)[ImdbId] == Cell(row, ImdbId);
  }

  /**
   * Joining on `imdb_id` alone: when a movie's runtime changed between loads,
   * `movie_dim` holds both versions, and the first-row pick gives staging the
   * key of the older one even though the newer one holds its whole movie tuple.
   */
  lemma ChangedMovieKeepsOldKey()
    ensures var row := map[ImdbId := Str("tt1"), RuntimeMinutes := Int(100)];
      var older := map[ImdbId := Str("tt1"), RuntimeMinutes := Int(90), MovieKey := Int(1)];
      var newer := map[ImdbId := Str("tt1"), RuntimeMinutes := Int(100), MovieKey := Int(2)];
      && Project(newer, MovieCols) == Project(row, MovieCols)
      && Project(older, MovieCols) != Project(row, MovieCols)
      && Cell(BackfillRow(row, [older, newer], ImdbId, MovieKey), MovieKey) == Int(1)
  {
    var row := map[ImdbId := Str("tt1"), RuntimeMinutes := Int(100)];
    var older := map[ImdbId := Str("tt1"), RuntimeMinutes := Int(90), MovieKey := Int(1)];
    assert Project(older, MovieCols)[RuntimeMinutes] != Project(row, MovieCols)[RuntimeMinutes];
    FirstMatchIs([older, map[ImdbId := Str("tt1"), RuntimeMinutes := Int(100), MovieKey := Int(2)]], ImdbId, Str("tt1"), 0);
  }

  // ---------------------------------------------------------------------------
  // which row the database picks

  /**
   * What `UPDATE ... FROM` may leave in one staging row: the row unchanged when
   * no dimension row matches, otherwise the key of ANY matching row. The
   * database does not say which; `BackfillRow` fixes the first.
   */
  predicate UpdateMayGive(row: Row, dim: seq<Row>, join: Column, key: Column, out: Row)
  {
    || ((forall j :: 0 <= j < |dim| ==> !SqlEq(Cell(row, join), Cell(dim[j], join))) && out == row)
    || (exists j :: 0 <= j < |dim| && SqlEq(Cell(row, join), Cell(dim[j], join)) && out == row[key := Cell(dim[j], key)])
  }

  /** The dimension rows matching the staging row all carry the same key. */
  predicate MatchesAgree(row: Row, dim: seq<Row>, join: Column, key: Column)
  {
    forall j, k :: 0 <= j < |dim| && 0 <= k < |dim| && MatchesAt(row, dim, join, j) && MatchesAt(row, dim, join, k) ==>
      Cell(dim[j], key) == Cell(dim[k], key)
  }

  /** Dimension row `j` matches the staging row under SQL `=`. */
  predicate MatchesAt(row: Row, dim: seq<Row>, join: Column, j: int)
  {
    0 <= j < |dim| && SqlEq(Cell(row, join), Cell(dim[j], join))
  }

  /** The model's first-row pick is one the database may make. */
  lemma BackfillRowAllowed(row: Row, dim: seq<Row>, join: Column, key: Column)
    ensures UpdateMayGive(row, dim, join, key, BackfillRow(row, dim, join, key))
  {
    var m := FirstMatch(dim, join, Cell(row, join));
    if m.Some? {
      assert SqlEq(Cell(row, join), Cell(dim[m.value], join));
    }
  }

  /**
   * Where the matching rows agree on the key, every result the database may
   * give is the model's: the first-row pick then loses nothing.
   */
  lemma UpdateDeterminedWhenMatchesAgree(row: Row, dim: seq<Row>, join: Column, key: Column, out: Row)
    requires MatchesAgree(row, dim, join, key)
    requires UpdateMayGive(row, dim, join, key, out)
    ensures out == BackfillRow(row, dim, join, key)
  {
    var m := FirstMatch(dim, join, Cell(row, join));
    if exists j :: 0 <= j < |dim| && SqlEq(Cell(row, join), Cell(dim[j], join)) && out == row[key := Cell(dim[j], key)] {
      var j :| 0 <= j < |dim| && SqlEq(Cell(row, join), Cell(dim[j], join)) && out == row[key := Cell(dim[j], key)];
      assert m.Some?;
      assert Cell(dim[j], key) == Cell(dim[m.value], key);
    } else {
      assert m.None?;
    }
  }

  /** The same for a whole staging table: any per-row choice of the database gives `Backfilled`. */
  lemma UpdateTableDeterminedWhenMatchesAgree(rows: seq<Row>, dim: seq<Row>, join: Column, key: Column, outs: seq<Row>)
    requires |outs| == |rows|
    requires forall i :: 0 <= i < |rows| ==> MatchesAgree(rows[i], dim, join, key)
    requires forall i :: 0 <= i < |rows| ==> UpdateMayGive(rows[i], dim, join, key, outs[i])
    ensures outs == Backfilled(rows, dim, join, key)
  {
    forall i | 0 <= i < |rows| ensures outs[i] == Backfilled(rows, dim, join, key)[i] {
      UpdateDeterminedWhenMatchesAgree(rows[i], dim, join, key, outs[i]);
    }
  }

  /** `movie_dim` after one load of a movie whose runtime changed: the older and the newer version of `tt1`. */
  const ReloadOlder: Row := map[ImdbId := Str("tt1"), RuntimeMinutes := Int(90), MovieKey := Int(1)]
  const ReloadNewer: Row := map[ImdbId := Str("tt1"), RuntimeMinutes := Int(100), MovieKey := Int(2)]

  /** The staged snapshot of `tt1` as the model's first-row pick keys it, and as the newer row keys it. */
  const ReloadStaged: Row := map[ImdbId := Str("tt1"), RuntimeMinutes := Int(100), ImdbRank := Str("3"), MovieKey := Int(1)]
  const ReloadOther: Row := ReloadStaged[MovieKey := Int(2)]

  /**
   * After one load of a movie whose runtime changed, `movie_dim` holds both
   * versions under one `imdb_id`. With the model's pick the delta is empty, but
   * the database may pick the newer version's key on the next update, and then
   * the same snapshot is a delta again, under key 2.
   */
  lemma SecondUpdateMayReload()
    ensures BackfillRow(ReloadStaged, [ReloadOlder, ReloadNewer], ImdbId, MovieKey) == ReloadStaged
    ensures UpdateMayGive(ReloadStaged, [ReloadOlder, ReloadNewer], ImdbId, MovieKey, ReloadOther)
    ensures MovieKeysForDelta(Tables([ReloadStaged], [], [ReloadOlder, ReloadNewer], [Project(ReloadStaged, FactCols)], 0, 3)) == Success([])
    ensures MovieKeysForDelta(Tables([ReloadOther], [], [ReloadOlder, ReloadNewer], [Project(ReloadStaged, FactCols)], 0, 3)) == Success([2])
  {
    ReloadFirstPick();
    ReloadOtherPick();
    ReloadDeltas();
  }

  /** The model's first-row pick gives the staged row the older key it already has. */
  lemma ReloadFirstPick()
    ensures BackfillRow(ReloadStaged, [ReloadOlder, ReloadNewer], ImdbId, MovieKey) == ReloadStaged
  {
    FirstMatchIs([ReloadOlder, ReloadNewer], ImdbId, Str("tt1"), 0);
    assert ReloadStaged[MovieKey := Int(1)] == ReloadStaged;
  }

  /** The newer row matches too, so the update may write its key instead. */
  lemma ReloadOtherPick()
    ensures UpdateMayGive(ReloadStaged, [ReloadOlder, ReloadNewer], ImdbId, MovieKey, ReloadOther)
  {
    assert SqlEq(Cell(ReloadStaged, ImdbId), Cell([ReloadOlder, ReloadNewer][1], ImdbId));
  }

  /** The snapshot under key 1 is already a fact; under key 2 it is not. */
  lemma ReloadDeltas()
    ensures MovieKeysForDelta(Tables([ReloadStaged], [], [ReloadOlder, ReloadNewer], [Project(ReloadStaged, FactCols)], 0, 3)) == Success([])
    ensures MovieKeysForDelta(Tables([ReloadOther], [], [ReloadOlder, ReloadNewer], [Project(ReloadStaged, FactCols)], 0, 3)) == Success([2])
  {
    var facts := [Project(ReloadStaged, FactCols)];
    ProjectProject(ReloadStaged, FactCols, DeltaCols);
    ProjectedMember(facts, DeltaCols, 0);
    SnapshotAlreadyFact(ReloadStaged, [], [ReloadOlder, ReloadNewer], facts, 0, 3);
    assert Projected(facts, DeltaCols) == [Project(ReloadStaged, DeltaCols)];
    assert Project(ReloadOther, DeltaCols)[MovieKey] != Project(ReloadStaged, DeltaCols)[MovieKey];
    SnapshotIsDelta(ReloadOther, [], [ReloadOlder, ReloadNewer], facts, 0, 3, 2);
  }

  /**
   * A lone staging row whose snapshot is already a fact yields no delta key,
   * whatever the dimensions and counters hold.
   */
  lemma SnapshotAlreadyFact(row: Row, dayDim: seq<Row>, movieDim: seq<Row>, facts: seq<Row>, nextDayKey: int, nextMovieKey: int)
    requires Project(row, DeltaCols) in Projected(facts, DeltaCols)
    ensures MovieKeysForDelta(Tables([row], dayDim, movieDim, facts, nextDayKey, nextMovieKey)) == Success([])
  {
    assert [row][0] == row;
    NewTuplesEmpty([row], facts, DeltaCols);
  }

  /**
   * A lone staging row with key `k` whose snapshot is not yet a fact yields
   * the delta `[k]`, whatever the dimensions and counters hold.
   */
  lemma SnapshotIsDelta(row: Row, dayDim: seq<Row>, movieDim: seq<Row>, facts: seq<Row>, nextDayKey: int, nextMovieKey: int, k: int)
    requires Project(row, DeltaCols) !in Projected(facts, DeltaCols)
    requires Cell(row, MovieKey) == Int(k)
    ensures MovieKeysForDelta(Tables([row], dayDim, movieDim, facts, nextDayKey, nextMovieKey)) == Success([k])
  {
    var tup := Project(row, DeltaCols);
    assert Projected([row], DeltaCols) == [tup];
    var d := Except([tup], Projected(facts, DeltaCols));
    assert tup in d;
    assert d[0] in d;
    assert d == [tup];
    var r := DeltaKeys(d);
    assert Cell(d[0], MovieKey) == Int(k);
    assert r.Success? && |r.value| == 1 && r.value[0] == k;
    assert r.value == [k];
  }

  // ---------------------------------------------------------------------------
  // the fact delta

  /** What the loader can raise. */
  datatype LoadError =
    /** `astype(int)` on a delta tuple whose `movie_key` is still null. */
    | UnkeyedDelta

  /** `get_movie_key_for_delta`'s query: the metric snapshots in staging the fact table lacks. */
  function DeltaTuples(t: Tables): seq<Row>
  {
    NewTuples(t.staging, t.fact, DeltaCols)
  }

  /** `delta_df["movie_key"].astype(int).to_list()`: each tuple's key, in order; a null key raises. */
  function DeltaKeys(tuples: seq<Row>): (r: Result<seq<int>, LoadError>)
    ensures r.Success? <==> forall i :: 0 <= i < |tuples| ==> Cell(tuples[i], MovieKey).Int?
    ensures r.Success? ==> |r.value| == |tuples|
    ensures r.Success? ==> forall i :: 0 <= i < |tuples| ==> r.value[i] == Cell(tuples[i], MovieKey).n
    ensures r.Failure? ==> r.error == UnkeyedDelta
  {
    if tuples == [] then Success([])
    else
      var front := DeltaKeys(tuples[..|tuples| - 1]);
      var last := Cell(tuples[|tuples| - 1], MovieKey);
      if front.Failure? then Failure(front.error)
      else if !last.Int? then Failure(UnkeyedDelta)
      else Success(front.value + [last.n])
  }

  /** `get_movie_key_for_delta`. */
  function MovieKeysForDelta(t: Tables): Result<seq<int>, LoadError>
  {
    DeltaKeys(DeltaTuples(t))
  }

  /** Staging row `i` has key `k` and a metric snapshot the fact table lacks. */
  predicate DeltaRowWithKey(t: Tables, i: int, k: int)
  {
    && 0 <= i < |t.staging|
    && Cell(t.staging[i], MovieKey) == Int(k)
    && Project(t.staging[i], DeltaCols) !in Projected(t.fact, DeltaCols)
  }

  /**
   * The returned keys are exactly the keys of the staging rows whose metric
   * snapshot the fact table lacks; the list is empty exactly when every
   * snapshot is already a fact.
   */
  lemma DeltaKeysExact(t: Tables)
    requires MovieKeysForDelta(t).Success?
    ensures forall k :: k in MovieKeysForDelta(t).value <==> exists i :: DeltaRowWithKey(t, i, k)
    ensures forall i :: 0 <= i < |t.staging| && Project(t.staging[i], DeltaCols) !in Projected(t.fact, DeltaCols) ==>
      KeyListed(t.staging[i], MovieKeysForDelta(t).value)
    ensures MovieKeysForDelta(t).value == [] <==>
      forall i :: 0 <= i < |t.staging| ==> Project(t.staging[i], DeltaCols) in Projected(t.fact, DeltaCols)
  {
    var d := DeltaTuples(t);
    var keys := MovieKeysForDelta(t).value;
    forall k | k in keys ensures exists i :: DeltaRowWithKey(t, i, k) {
      var p :| 0 <= p < |keys| && keys[p] == k;
      assert d[p] in d;
      var i :| 0 <= i < |t.staging| && Projected(t.staging, DeltaCols)[i] == d[p];
      assert Cell(t.staging[i], MovieKey) == d[p][MovieKey];
      assert DeltaRowWithKey(t, i, k);
    }
    forall i | 0 <= i < |t.staging| && Project(t.staging[i], DeltaCols) !in Projected(t.fact, DeltaCols)
      ensures Cell(t.staging[i], MovieKey).Int? && Cell(t.staging[i], MovieKey).n in keys
    {
      ProjectedMember(t.staging, DeltaCols, i);
      var p :| 0 <= p < |d| && d[p] == Project(t.staging[i], DeltaCols);
      assert keys[p] == Cell(d[p], MovieKey).n;
    }
    NewTuplesEmpty(t.staging, t.fact, DeltaCols);
  }

  // ---------------------------------------------------------------------------
  // the fact append

  /** `movie_key IN (...)`: a null key is in no list. */
  predicate KeyListed(row: Row, keys: seq<int>)
  {
    Cell(row, MovieKey).Int? && Cell(row, MovieKey).n in keys
  }

  /** `WHERE movie_key IN (...)`: the rows whose key is listed, in order. */
  function Selected(rows: seq<Row>, keys: seq<int>): (r: seq<Row>)
    ensures forall row :: row in r <==> row in rows && KeyListed(row, keys)
  {
    if rows == [] then []
    else
      var front := rows[..|rows| - 1];
      var last := rows[|rows| - 1];
      assert forall row :: row in rows <==> row in front || row == last by {
        assert rows == front + [last];
      }
      Selected(front, keys) + (if KeyListed(last, keys) then [last] else [])
  }

  /** `populate_movie_fact_table`'s query: the distinct fact tuples of the staging rows whose key is listed. */
  function FactRows(staging: seq<Row>, keys: seq<int>): seq<Row>
  {
    Distinct(Projected(Selected(staging, keys), FactCols))
  }

  /**
   * The query yields each fact tuple of a listed staging row, and nothing
   * else, once. All rows of a listed movie are taken, not only those whose
   * metric snapshot was new.
   */
  lemma FactRowsExact(staging: seq<Row>, keys: seq<int>)
    ensures NoDuplicates(FactRows(staging, keys))
    ensures forall tup :: tup in FactRows(staging, keys) <==>
      exists i :: 0 <= i < |staging| && KeyListed(staging[i], keys) && tup == Project(staging[i], FactCols)
  {
    var sel := Selected(staging, keys);
    forall tup | tup in FactRows(staging, keys)
      ensures exists i :: 0 <= i < |staging| && KeyListed(staging[i], keys) && tup == Project(staging[i], FactCols)
    {
      var p :| 0 <= p < |sel| && Projected(sel, FactCols)[p] == tup;
      assert sel[p] in sel;
      var i :| 0 <= i < |staging| && staging[i] == sel[p];
    }
    forall i | 0 <= i < |staging| && KeyListed(staging[i], keys)
      ensures Project(staging[i], FactCols) in FactRows(staging, keys)
    {
      assert staging[i] in sel;
      var p :| 0 <= p < |sel| && sel[p] == staging[i];
      ProjectedMember(sel, FactCols, p);
    }
  }

  /** `populate_movie_fact_table`: append those tuples to the fact table. */
  function FactsAppended(t: Tables, keys: seq<int>): Tables
  {
    t.(fact := t.fact + FactRows(t.staging, keys))
  }

  /**
   * Only the fact table changes, and only by rows added at its end; afterwards
   * the metric snapshot of every listed staging row is a fact.
   */
  lemma FactsAppend(t: Tables, keys: seq<int>)
    ensures var u := FactsAppended(t, keys);
      && u.staging == t.staging && u.dayDim == t.dayDim && u.movieDim == t.movieDim
      && u.nextDayKey == t.nextDayKey && u.nextMovieKey == t.nextMovieKey
      && u.fact[..|t.fact|] == t.fact
      && forall i :: 0 <= i < |t.staging| && KeyListed(t.staging[i], keys) ==>
        Project(t.staging[i], DeltaCols) in Projected(u.fact, DeltaCols)
  {
    var u := FactsAppended(t, keys);
    assert u.fact[..|t.fact|] == t.fact;
    FactRowsExact(t.staging, keys);
    forall i | 0 <= i < |t.staging| && KeyListed(t.staging[i], keys)
      ensures Project(t.staging[i], DeltaCols) in Projected(u.fact, DeltaCols)
    {
      var tup := Project(t.staging[i], FactCols);
      assert tup in FactRows(t.staging, keys);
      var p :| 0 <= p < |FactRows(t.staging, keys)| && FactRows(t.staging, keys)[p] == tup;
      assert u.fact[|t.fact| + p] == tup;
      ProjectedMember(u.fact, DeltaCols, |t.fact| + p);
      ProjectProject(t.staging[i], FactCols, DeltaCols);
    }
  }

  // ---------------------------------------------------------------------------
  // the whole load

  /** How a run of `populate_schema` ends. */
  datatype RunOutcome =
    /** The delta was not empty: these keys' staging rows were appended as facts. */
    | FactsLoaded(keys: seq<int>)
    /** Every metric snapshot was already a fact: the run stopped after the movie keys. */
    | NoNewFacts
    /** `get_movie_key_for_delta` raised. */
    | Failed(error: LoadError)

  datatype Run = Run(outcome: RunOutcome, tables: Tables)

  /** Every staging movie tuple occurs in `movie_dim`. */
  predicate MoviesCovered(t: Tables)
  {
    forall i :: 0 <= i < |t.staging| ==> Project(t.staging[i], MovieCols) in Projected(t.movieDim, MovieCols)
  }

  /** The steps `populate_schema` always takes: new movies, then movie keys. */
  function MovieStep(t: Tables): Tables
  {
    MovieKeysBackfilled(MovieDimAppended(t))
  }

  /** The steps taken only for a non-empty delta: new days, day keys, then the facts. */
  function FactStep(t: Tables, keys: seq<int>): Tables
  {
    FactsAppended(DayKeysBackfilled(TimeDimAppended(t)), keys)
  }

  /**
   * `populate_schema`: new movies, movie keys, then the delta check; only a
   * non-empty delta goes on to new days, day keys and the fact append.
   */
  function SchemaRun(t: Tables): Run
  {
    var keyed := MovieStep(t);
    match MovieKeysForDelta(keyed)
    case Failure(e) => Run(Failed(e), keyed)
    case Success(keys) =>
      if keys == [] then Run(NoNewFacts, keyed)
      else Run(FactsLoaded(keys), FactStep(keyed, keys))
  }

  /**
   * The movie steps append to `movie_dim` only and write only `movie_key` in
   * staging; afterwards `movie_dim` holds every staging movie tuple.
   */
  lemma MovieStepEffect(t: Tables)
    ensures var u := MovieStep(t);
      && |u.staging| == |t.staging|
      && u.movieDim[..|t.movieDim|] == t.movieDim
      && u.dayDim == t.dayDim && u.fact == t.fact && u.nextDayKey == t.nextDayKey
      && Projected(u.staging, MovieCols) == Projected(t.staging, MovieCols)
      && MoviesCovered(u)
  {
    var t1 := MovieDimAppended(t);
    var u := MovieStep(t);
    MovieDimAppend(t);
    ProjectedBackfilled(t1.staging, t1.movieDim, ImdbId, MovieKey, MovieCols);
    forall i | 0 <= i < |u.staging| ensures Project(u.staging[i], MovieCols) in Projected(u.movieDim, MovieCols) {
      assert Project(u.staging[i], MovieCols) == Projected(t.staging, MovieCols)[i];
    }
  }

  /**
   * The fact steps append to `day_dim` and the fact table, write only
   * `day_key` in staging, and leave `movie_dim` as it is.
   */
  lemma FactStepEffect(t: Tables, keys: seq<int>)
    ensures var u := FactStep(t, keys);
      && |u.staging| == |t.staging|
      && u.movieDim == t.movieDim && u.nextMovieKey == t.nextMovieKey
      && u.dayDim[..|t.dayDim|] == t.dayDim
      && u.fact[..|t.fact|] == t.fact
      && Projected(u.staging, MovieCols) == Projected(t.staging, MovieCols)
      && (MoviesCovered(t) ==> MoviesCovered(u))
  {
    var t3 := TimeDimAppended(t);
    TimeDimAppend(t);
    var t4 := DayKeysBackfilled(t3);
    FactsAppend(t4, keys);
    ProjectedBackfilled(t3.staging, t3.dayDim, CaptureDate, DayKey, MovieCols);
    var u := FactStep(t, keys);
    if MoviesCovered(t) {
      forall i | 0 <= i < |u.staging| ensures Project(u.staging[i], MovieCols) in Projected(u.movieDim, MovieCols) {
        assert Project(u.staging[i], MovieCols) == Projected(t.staging, MovieCols)[i];
      }
    }
  }

  /**
   * A run only appends to the dimensions and the fact table, and afterwards
   * `movie_dim` holds every staging movie tuple. When the delta is empty or the
   * check raises, `day_dim` and the fact table are untouched.
   */
  lemma SchemaAppendsOnly(t: Tables)
    ensures var u := SchemaRun(t).tables;
      && u.movieDim[..|t.movieDim|] == t.movieDim
      && u.dayDim[..|t.dayDim|] == t.dayDim
      && u.fact[..|t.fact|] == t.fact
      && MoviesCovered(u)
      && (!SchemaRun(t).outcome.FactsLoaded? ==> u.dayDim == t.dayDim && u.fact == t.fact && u.nextDayKey == t.nextDayKey)
  {
    var keyed := MovieStep(t);
    var run := SchemaRun(t);
    MovieStepEffect(t);
    if run.outcome.FactsLoaded? {
      var keys := run.outcome.keys;
      assert run.tables == FactStep(keyed, keys);
      FactStepEffect(keyed, keys);
      assert run.tables.movieDim == keyed.movieDim;
    } else {
      assert run.tables == keyed;
    }
  }

  // ---------------------------------------------------------------------------
  // surrogate keys

  /** Both dimensions' keys are assigned, distinct, and below the next key of their sequence. */
  predicate WarehouseKeysFresh(t: Tables)
  {
    KeysFresh(t.dayDim, DayKey, t.nextDayKey) && KeysFresh(t.movieDim, MovieKey, t.nextMovieKey)
  }

  lemma TimeDimKeepsKeysFresh(t: Tables)
    requires WarehouseKeysFresh(t)
    ensures WarehouseKeysFresh(TimeDimAppended(t))
  {
    if NewTimeDim(t) != [] {
      AppendKeepsKeysFresh(t.dayDim, NewTimeDim(t), DayKey, t.nextDayKey);
    }
  }

  lemma MovieDimKeepsKeysFresh(t: Tables)
    requires WarehouseKeysFresh(t)
    ensures WarehouseKeysFresh(MovieDimAppended(t))
  {
    if NewMovieDim(t) != [] {
      AppendKeepsKeysFresh(t.movieDim, NewMovieDim(t), MovieKey, t.nextMovieKey);
    }
  }

  /** A run hands out each surrogate key at most once. */
  lemma SchemaKeepsKeysFresh(t: Tables)
    requires WarehouseKeysFresh(t)
    ensures WarehouseKeysFresh(SchemaRun(t).tables)
  {
    MovieDimKeepsKeysFresh(t);
    var keyed := MovieStep(t);
    if SchemaRun(t).outcome.FactsLoaded? {
      TimeDimKeepsKeysFresh(keyed);
    }
  }

  // ---------------------------------------------------------------------------
  // a staging table whose rows all carry an id never makes the load raise

  /** After the movie steps every staging row whose id is not null has a movie key. */
  lemma MovieStepKeysRows(t: Tables)
    requires WarehouseKeysFresh(t)
    requires forall i :: 0 <= i < |t.staging| ==> Cell(t.staging[i], ImdbId) != Null
    ensures forall i :: 0 <= i < |MovieStep(t).staging| ==> Cell(MovieStep(t).staging[i], MovieKey).Int?
  {
    var t1 := MovieDimAppended(t);
    MovieDimAppend(t);
    MovieDimKeepsKeysFresh(t);
    var u := MovieStep(t);
    forall i | 0 <= i < |u.staging| ensures Cell(u.staging[i], MovieKey).Int? {
      KeyedRow(t.staging[i], t1.movieDim, t1.nextMovieKey);
    }
  }

  /** A row whose movie tuple is in a keyed `movie_dim` gets a key from the update. */
  lemma KeyedRow(row: Row, dim: seq<Row>, next: int)
    requires KeysFresh(dim, MovieKey, next)
    requires Cell(row, ImdbId) != Null
    requires Project(row, MovieCols) in Projected(dim, MovieCols)
    ensures Cell(BackfillRow(row, dim, ImdbId, MovieKey), MovieKey).Int?
  {
    var j :| 0 <= j < |dim| && Projected(dim, MovieCols)[j] == Project(row, MovieCols);
    assert Cell(dim[j], ImdbId) == Project(dim[j], MovieCols)[ImdbId] == Cell(row, ImdbId);
    assert FirstMatch(dim, ImdbId, Cell(row, ImdbId)).Some?;
  }

  /** Keys assigned to every staging row let `astype(int)` succeed. */
  lemma DeltaKeysOfKeyedRows(t: Tables)
    requires forall i :: 0 <= i < |t.staging| ==> Cell(t.staging[i], MovieKey).Int?
    ensures MovieKeysForDelta(t).Success?
  {
    var d := DeltaTuples(t);
    forall p | 0 <= p < |d| ensures Cell(d[p], MovieKey).Int? {
      assert d[p] in d;
      var i :| 0 <= i < |t.staging| && Projected(t.staging, DeltaCols)[i] == d[p];
    }
  }

  /**
   * With fresh keys in the dimensions and an id in every staging row, the
   * delta check never raises: every staging row gets a movie key first.
   */
  lemma SchemaNeverFails(t: Tables)
    requires WarehouseKeysFresh(t)
    requires forall i :: 0 <= i < |t.staging| ==> Cell(t.staging[i], ImdbId) != Null
    ensures !SchemaRun(t).outcome.Failed?
  {
    MovieStepKeysRows(t);
    DeltaKeysOfKeyedRows(MovieStep(t));
  }

  // ---------------------------------------------------------------------------
  // a second run on unchanged staging appends nothing

  /** Every staging row already carries the movie key the update would give it. */
  predicate MovieKeysSettled(t: Tables)
  {
    Backfilled(t.staging, t.movieDim, ImdbId, MovieKey) == t.staging
  }

  /** Once every movie tuple is in `movie_dim` and the keys are settled, the movie steps change nothing. */
  lemma MovieStepFixed(t: Tables)
    requires MoviesCovered(t) && MovieKeysSettled(t)
    ensures MovieStep(t) == t
  {
    NewTuplesEmpty(t.staging, t.movieDim, MovieCols);
  }

  lemma MovieStepSettles(t: Tables)
    ensures MovieKeysSettled(MovieStep(t))
  {
    var t1 := MovieDimAppended(t);
    BackfillIdempotent(t1.staging, t1.movieDim, ImdbId, MovieKey);
  }

  /** Writing day keys keeps the movie keys settled. */
  lemma FactStepKeepsSettled(t: Tables, keys: seq<int>)
    requires MovieKeysSettled(t)
    ensures MovieKeysSettled(FactStep(t, keys))
  {
    var t3 := TimeDimAppended(t);
    TimeDimAppend(t);
    var u := FactStep(t, keys);
    forall i | 0 <= i < |u.staging| ensures BackfillRow(u.staging[i], u.movieDim, ImdbId, MovieKey) == u.staging[i] {
      var row := t.staging[i];
      assert BackfillRow(row, t.movieDim, ImdbId, MovieKey) == row;
      var m := FirstMatch(t3.dayDim, CaptureDate, Cell(row, CaptureDate));
      if m.Some? {
        BackfillRowCommutes(row, t.movieDim, ImdbId, MovieKey, DayKey, Cell(t3.dayDim[m.value], DayKey));
      }
    }
  }

  /** After the fact steps for the delta's keys, every staging metric snapshot is a fact. */
  lemma FactStepClearsDelta(t: Tables)
    requires MovieKeysForDelta(t).Success?
    ensures MovieKeysForDelta(FactStep(t, MovieKeysForDelta(t).value)) == Success([])
  {
    var keys := MovieKeysForDelta(t).value;
    DeltaKeysExact(t);
    var t3 := TimeDimAppended(t);
    TimeDimAppend(t);
    var t4 := DayKeysBackfilled(t3);
    FactsAppend(t4, keys);
    var u := FactStep(t, keys);
    ProjectedBackfilled(t3.staging, t3.dayDim, CaptureDate, DayKey, DeltaCols);
    forall i | 0 <= i < |u.staging| ensures Project(u.staging[i], DeltaCols) in Projected(u.fact, DeltaCols) {
      var row := t.staging[i];
      assert Project(u.staging[i], DeltaCols) == Projected(t.staging, DeltaCols)[i] == Project(row, DeltaCols);
      if Project(row, DeltaCols) in Projected(t.fact, DeltaCols) {
        var j :| 0 <= j < |t.fact| && Projected(t.fact, DeltaCols)[j] == Project(row, DeltaCols);
        assert u.fact[j] == t.fact[j];
        ProjectedMember(u.fact, DeltaCols, j);
      } else {
        BackfillRowEffect(row, t3.dayDim, CaptureDate, DayKey);
        assert KeyListed(t4.staging[i], keys);
      }
    }
    NewTuplesEmpty(u.staging, u.fact, DeltaCols);
  }

  /**
   * Idempotence: once a run has not raised, running `populate_schema` again
   * on the tables it left changes nothing and stops at the delta check, when
   * the updates pick the first matching row (`SecondUpdateMayReload` shows
   * another pick).
   */
  lemma SchemaIdempotent(t: Tables)
    requires !SchemaRun(t).outcome.Failed?
    ensures SchemaRun(SchemaRun(t).tables) == Run(NoNewFacts, SchemaRun(t).tables)
  {
    var keyed := MovieStep(t);
    var u := SchemaRun(t).tables;
    MovieStepEffect(t);
    MovieStepSettles(t);
    if SchemaRun(t).outcome.FactsLoaded? {
      var keys := SchemaRun(t).outcome.keys;
      FactStepEffect(keyed, keys);
      FactStepKeepsSettled(keyed, keys);
      FactStepClearsDelta(keyed);
    }
    MovieStepFixed(u);
  }

  // ---------------------------------------------------------------------------
  // the row-by-row operations

  /** The database appends the rows one by one, each taking the next value of the key sequence. */
  method AppendWithKeys(dim: seq<Row>, rows: seq<Row>, key: Column, next: int) returns (grown: seq<Row>, after: int)
    ensures grown == dim + Keyed(rows, key, next)
    ensures after == next + |rows|
  {
    grown, after := dim, next;
    var i := 0;
    while i < |rows|
      invariant 0 <= i <= |rows|
      invariant grown == dim + Keyed(rows[..i], key, next)
      invariant after == next + i
    {
      grown := grown + [rows[i][key := Int(after)]];
      after := after + 1;
      i := i + 1;
      assert Keyed(rows[..i], key, next) == Keyed(rows[..i - 1], key, next) + [rows[i - 1][key := Int(next + i - 1)]];
    }
    assert rows[..i] == rows;
  }

  /** Scan the dimension for the first row whose `join` cell equals `v`. */
  method FindFirstMatch(dim: seq<Row>, join: Column, v: Value) returns (m: Option<nat>)
    ensures m == FirstMatch(dim, join, v)
  {
    var j := 0;
    while j < |dim|
      invariant 0 <= j <= |dim|
      invariant forall k :: 0 <= k < j ==> !SqlEq(v, Cell(dim[k], join))
    {
      if SqlEq(v, Cell(dim[j], join)) {
        FirstMatchIs(dim, join, v, j);
        return Some(j);
      }
      j := j + 1;
    }
    return None;
  }

  /** The `UPDATE ... FROM`, one staging row at a time. */
  method BackfillRows(rows: seq<Row>, dim: seq<Row>, join: Column, key: Column) returns (updated: seq<Row>)
    ensures updated == Backfilled(rows, dim, join, key)
  {
    updated := rows;
    var i := 0;
    while i < |rows|
      invariant 0 <= i <= |rows|
      invariant |updated| == |rows|
      invariant forall k :: 0 <= k < i ==> updated[k] == BackfillRow(rows[k], dim, join, key)
      invariant forall k :: i <= k < |rows| ==> updated[k] == rows[k]
    {
      var m := FindFirstMatch(dim, join, Cell(rows[i], join));
      if m.Some? {
        updated := updated[i := rows[i][key := Cell(dim[m.value], key)]];
      }
      i := i + 1;
    }
  }

  /** The warehouse: the four tables and the database's two key sequences, updated in place. */
  class Warehouse {
    var staging: seq<Row>
    var dayDim: seq<Row>
    var movieDim: seq<Row>
    var fact: seq<Row>
    var nextDayKey: int
    var nextMovieKey: int

    function State(): Tables
      reads this
    {
      Tables(staging, dayDim, movieDim, fact, nextDayKey, nextMovieKey)
    }

    constructor (t: Tables)
      ensures State() == t
    {
      staging, dayDim, movieDim, fact := t.staging, t.dayDim, t.movieDim, t.fact;
      nextDayKey, nextMovieKey := t.nextDayKey, t.nextMovieKey;
    }

    /** `create_new_time_dim_values`. */
    method CreateNewTimeDimValues()
      modifies this
      ensures State() == TimeDimAppended(old(State()))
    {
      var d := NewTuples(staging, dayDim, TimeCols);
      if d == [] {
        return;
      }
      dayDim, nextDayKey := AppendWithKeys(dayDim, d, DayKey, nextDayKey);
    }

    /** `create_new_movie_dim_values`. */
    method CreateNewMovieDimValues()
      modifies this
      ensures State() == MovieDimAppended(old(State()))
    {
      var d := NewTuples(staging, movieDim, MovieCols);
      if d == [] {
        return;
      }
      movieDim, nextMovieKey := AppendWithKeys(movieDim, d, MovieKey, nextMovieKey);
    }

    /** `populate_day_key_staging_table`. */
    method PopulateDayKeyStagingTable()
      modifies this
      ensures State() == DayKeysBackfilled(old(State()))
    {
      staging := BackfillRows(staging, dayDim, CaptureDate, DayKey);
    }

    /** `populate_movie_key_staging_table`. */
    method PopulateMovieKeyStagingTable()
      modifies this
      ensures State() == MovieKeysBackfilled(old(State()))
    {
      staging := BackfillRows(staging, movieDim, ImdbId, MovieKey);
    }

    /** `get_movie_key_for_delta`: run the query, then convert each tuple's key. */
    method GetMovieKeyForDelta() returns (r: Result<seq<int>, LoadError>)
      ensures r == MovieKeysForDelta(State())
    {
      var delta := NewTuples(staging, fact, DeltaCols);
      var keys: seq<int> := [];
      var i := 0;
      while i < |delta|
        invariant 0 <= i <= |delta|
        invariant DeltaKeys(delta[..i]) == Success(keys)
      {
        var k := Cell(delta[i], MovieKey);
        if !k.Int? {
          return Failure(UnkeyedDelta);
        }
        keys := keys + [k.n];
        i := i + 1;
        assert delta[..i][..i - 1] == delta[..i - 1];
      }
      assert delta[..i] == delta;
      return Success(keys);
    }

    /** `populate_movie_fact_table`. */
    method PopulateMovieFactTable(keys: seq<int>)
      modifies this
      ensures State() == FactsAppended(old(State()), keys)
    {
      fact := fact + FactRows(staging, keys);
    }

    /** `populate_schema`: the steps in the source's order, with the early exit on an empty delta. */
    method PopulateSchema() returns (outcome: RunOutcome)
      modifies this
      ensures outcome == SchemaRun(old(State())).outcome
      ensures State() == SchemaRun(old(State())).tables
    {
      CreateNewMovieDimValues();
      PopulateMovieKeyStagingTable();
      var keys := GetMovieKeyForDelta();
      if keys.Failure? {
        return Failed(keys.error);
      }
      if keys.value == [] {
        return NoNewFacts;
      }
      CreateNewTimeDimValues();
      PopulateDayKeyStagingTable();
      PopulateMovieFactTable(keys.value);
      outcome := FactsLoaded(keys.value);
    }
  }
}
