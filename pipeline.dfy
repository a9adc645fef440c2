/**
 * The two components together: what the staging transformer guarantees about
 * its rows is what the delta loader needs.
 */
module Pipeline {
  import opened Table
  import opened Grouping
  import opened Staging
  import opened Load

  /**
   * Loading a freshly staged table never raises at the delta check, whatever
   * the warehouse held before, as long as its dimension keys are fresh.
   */
  lemma StagedLoadNeverFails(raw: seq<RawRecord>, dayDim: seq<Row>, movieDim: seq<Row>, fact: seq<Row>, nextDayKey: int, nextMovieKey: int)
    requires StagingTable(raw).Success?
    requires WarehouseKeysFresh(Tables(StagingTable(raw).value, dayDim, movieDim, fact, nextDayKey, nextMovieKey))
    ensures !SchemaRun(Tables(StagingTable(raw).value, dayDim, movieDim, fact, nextDayKey, nextMovieKey)).outcome.Failed?
  {
    var staged := StagingTable(raw).value;
    StagedRowsFitLoader(Merge(raw));
    assert forall i :: 0 <= i < |staged| ==> Cell(staged[i], ImdbId) != Null;
    SchemaNeverFails(Tables(staged, dayDim, movieDim, fact, nextDayKey, nextMovieKey));
  }

  /** Two time-consistent rows with the same capture date agree on the whole time tuple. */
  lemma SameDateSameTimeTuple(a: Row, b: Row)
    requires TimeConsistent(a) && TimeConsistent(b)
    requires Cell(a, CaptureDate) == Cell(b, CaptureDate)
    ensures Project(a, TimeCols) == Project(b, TimeCols)
  {
    assert forall c :: c in TimeCols ==> Cell(a, c) == Cell(b, c);
  }

  /**
   * The day-key update compares `capture_date` alone; when staging and
   * `day_dim` rows are time-consistent, the row it picks holds the staging
   * row's whole time tuple, as a join on all four time columns would.
   */
  lemma DayJoinMatchesTimeTuple(row: Row, dim: seq<Row>)
    requires TimeConsistent(row)
    requires forall j :: 0 <= j < |dim| ==> TimeConsistent(dim[j])
    requires FirstMatch(dim, CaptureDate, Cell(row, CaptureDate)).Some?
    ensures Project(dim[FirstMatch(dim, CaptureDate, Cell(row, CaptureDate)).value], TimeCols) == Project(row, TimeCols)
  {
    var j := FirstMatch(dim, CaptureDate, Cell(row, CaptureDate)).value;
    SameDateSameTimeTuple(dim[j], row);
  }

  /** Time consistency depends only on the time columns. */
  lemma ProjectKeepsTimeConsistent(row: Row, cols: set<Column>, key: Column, v: Value)
    requires TimeCols <= cols && key !in TimeCols
    requires TimeConsistent(row)
    ensures TimeConsistent(Project(row, cols)[key := v])
  {
    var r := Project(row, cols)[key := v];
    assert forall c :: c in TimeCols ==> Cell(r, c) == Cell(row, c);
  }

  /**
   * Appending new days keeps `day_dim` time-consistent when staging is: each
   * new row is a staging row's time tuple with its key.
   */
  lemma TimeDimStaysConsistent(t: Tables)
    requires forall i :: 0 <= i < |t.staging| ==> TimeConsistent(t.staging[i])
    requires forall j :: 0 <= j < |t.dayDim| ==> TimeConsistent(t.dayDim[j])
    ensures forall j :: 0 <= j < |TimeDimAppended(t).dayDim| ==> TimeConsistent(TimeDimAppended(t).dayDim[j])
  {
    var d := NewTimeDim(t);
    if d != [] {
      var added := Keyed(d, DayKey, t.nextDayKey);
      var grown := t.dayDim + added;
      assert TimeDimAppended(t).dayDim == grown;
      forall j | |t.dayDim| <= j < |grown| ensures TimeConsistent(grown[j]) {
        var k := j - |t.dayDim|;
        assert grown[j] == added[k];
        NewTimeTupleConsistent(t, k, Int(t.nextDayKey + k));
      }
    }
  }

  /** Each new time tuple, keyed, is time-consistent when the staging rows are. */
  lemma NewTimeTupleConsistent(t: Tables, k: int, v: Value)
    requires forall i :: 0 <= i < |t.staging| ==> TimeConsistent(t.staging[i])
    requires 0 <= k < |NewTimeDim(t)|
    ensures TimeConsistent(NewTimeDim(t)[k][DayKey := v])
  {
    var tup := NewTimeDim(t)[k];
    assert tup in NewTimeDim(t);
    var i :| 0 <= i < |t.staging| && Projected(t.staging, TimeCols)[i] == tup;
    ProjectKeepsTimeConsistent(t.staging[i], TimeCols, DayKey, v);
  }
}
