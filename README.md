# Top-50 movies IMDB: staging transformer and delta loader

This project models the two components of the Top-50-movies-IMDB warehouse
that carry its logic. It then proves what they guarantee.

- **Staging transformer** (`transform.py`). Scraped records are merged into one
  row per distinct attribute tuple, and the category ranks of a merged movie are
  joined with `","`. The stages then add the time columns (`day_key`,
  `capture_date`, `month_code`, `year`, `quarter_code`) and the movie columns
  (`movie_key`, `imdb_id`, numeric `runtime_minutes`, numeric `release_year`).
  They retype the fact columns (`gross_earnings`, `metascore_rating`,
  `num_votes`) and finally drop `url`. `Staging.StagingFrame` is the
  `MoviePerformanceStaging` object: a class whose `columns` and `rows` fields
  the stage methods replace in place. Each method is specified by a function on
  the rows.
- **Delta loader** (`load.py`). A warehouse holds the staging table, `day_dim`,
  `movie_dim` and `movie_performance_fact`. The `EXCEPT` queries find the new
  dimension tuples and the changed facts. The `UPDATE ... FROM` statements
  backfill surrogate keys into staging. `populate_schema` runs these steps in a
  fixed order and stops early when no fact changed. `Load.Warehouse` is a class
  whose table fields the step methods reassign. Each method is tied to a pure
  function on the `Tables` value, and the properties are proved about those
  functions.

Tables are sequences of rows, and a row maps columns to values (`Null`, text,
integer, date or timestamp). A column a row lacks reads as `Null`. In `EXCEPT`
and `DISTINCT`, `Null` equals `Null`, as in SQL set operations. In the join
condition of an `UPDATE`, `Null` matches nothing, as with SQL `=`.

The modules are:
- `Wrappers`: `Option`, `Result` and `Outcome`.
- `Text`: splitting, joining, character removal and digit strings.
- `Table`: rows, projection, `EXCEPT` and `DISTINCT`.
- `Grouping`: the group-and-merge.
- `Staging`: the transformer.
- `Load`: the loader.
- `Pipeline`: facts that connect the transformer's output to the loader's needs.

## Model

| member | source | states |
|---|---|---|
| Staging.Quarter | transform.py:13-21 | The quarter is always 1..4; for a month 1..12 it is `(month - 1) / 3 + 1`. |
| Staging.CleanReleaseYear | transform.py:24-25 | Succeeds exactly when the text holds a digit; otherwise it fails with `InvalidYear`. |
| Staging.ReleaseYearAmidNoise | transform.py:24-25 | Digit-free text around a number is ignored: the result is the number the digits spell. |
| Staging.ReleaseYearInParentheses | transform.py:24-25 | `"(2020)"` gives 2020. |
| Text.Digits | transform.py:25 | Keeps only digits and is no longer than its input; it is empty exactly when the input has no digit. |
| Text.DigitsConcat | transform.py:25 | Removing the non-digits distributes over concatenation. |
| Text.DigitsOfDigits | transform.py:25 | An all-digit text is left as it is. |
| Text.NumeralOfShowNat | transform.py:25 | Reading back the decimal spelling of `n` gives `n`. |
| Text.NumeralConcat | transform.py:25 | The value of concatenated digit strings is the front's value shifted by the back's length, plus the back's value. |
| Staging.ImdbIdOf | transform.py:79 | Succeeds exactly when the URL has at least two `/`; the id then holds no `/`; otherwise it fails with `MalformedUrl`. |
| Staging.ImdbIdOfTitlePath | transform.py:79 | `/title/<id>/...` yields `<id>`. |
| Text.Split | transform.py:79 | Yields one more piece than there are separators, and no piece holds the separator. |
| Text.SplitWithoutSeparator | transform.py:79 | A text without the separator splits into itself alone. |
| Text.SplitAfterPiece | transform.py:79 | A separator-free piece followed by a separator is the first piece of the split. |
| Text.SplitJoin | transform.py:58-61 | Splitting a join of separator-free pieces gives the pieces back. |
| Text.JoinSplit | transform.py:58-61 | Joining the split pieces gives the text back. |
| Staging.Numeric | transform.py:81-82 | The permissive parse of one text: an integer exactly for a non-empty all-digit text, otherwise `Null`. |
| Staging.ToNumeric | transform.py:91-93 | Coercion never fails: the result is a number or `Null`, `Null` stays `Null` and numbers stay as they are. |
| Staging.StrippedNumeric | transform.py:81-90 | The runtime and earnings conversion of one cell: text loses the pattern (`" min"` or `","`) and is parsed; the result is a number or `Null`, and a cell that is not text gives `Null`. |
| Staging.RemoveUnitSuffix | transform.py:81 | Removing `" min"` from `<digits> min` leaves the digits. |
| Staging.RuntimeOfMinutes | transform.py:81-82 | `"<n> min"` gives `n`. |
| Staging.RuntimeNotAvailable | transform.py:81-82 | `"N/A"` gives `Null`, not an error. |
| Text.RemoveCharIsWithout | transform.py:81-90 | Removing a one-character pattern deletes every occurrence of that character. |
| Text.WithoutConcat | transform.py:89 | Deleting a character distributes over concatenation. |
| Staging.GrossWithSeparators | transform.py:89-90 | Earnings written with thousands separators parse to their value. |
| Text.WithoutSeparatorsValue | transform.py:89-90 | Deleting the commas of `n` written with thousands separators leaves a non-empty digit string worth `n`. |
| Text.WithoutGroup | transform.py:89 | Deleting commas from `front,ddd` gives the front without commas, followed by `ddd`. |
| Text.ParseShowNat | transform.py:89-93 | The numeric parse reads back the decimal spelling of any natural. |
| Text.Pad3Value | transform.py:89 | A three-digit group is worth its number. |
| Grouping.Merge | transform.py:58-61 | One group per distinct attribute tuple: the groups' keys have no duplicates, and a key occurs exactly when some record has it. Every group has at least one rank. |
| Grouping.RanksOf | transform.py:58-61 | A key has ranks exactly when some record carries it, and never more ranks than records. |
| Grouping.RanksAreInputRanks | transform.py:58-61 | Every rank merged under a key is the rank of an input record that carries that key. |
| Grouping.MergedRanksSplit | transform.py:58-61 | With comma-free ranks, splitting a group's rank text on `","` gives exactly its records' ranks, in input order. |
| Grouping.RanksConserved | transform.py:58-61 | Summed over all groups, the number of ranks equals the number of input records. |
| Grouping.RankTotalCovers | transform.py:58-61 | Over distinct keys that cover every record, the ranks summed per key count the records. |
| Grouping.RankPiecesConserved | transform.py:58-61 | With comma-free ranks, the `","`-pieces of all rank texts number exactly the input records. |
| Grouping.MergeIdempotent | transform.py:58-61 | Merging the merged rows again gives the same groups. |
| Grouping.TwoCategoriesMerge | transform.py:58-61 | A movie ranked 3 and 7 in two categories becomes one row with ranks `"3,7"`. |
| Staging.StagingFrame.constructor | transform.py:55-61 | The frame holds the fifteen grouped columns plus `imdb_rank`, and one row per merged group. |
| Staging.GroupRowCells | transform.py:58-61 | A merged row holds exactly the grouped columns, each with the group's value. |
| Staging.TimeStage | transform.py:63-74 | One row out per row in, each the row with its time columns set. |
| Staging.TimeRowFrame | transform.py:63-74 | The time stage adds exactly `day_key` (null), `capture_date`, `month_code`, `year` and `quarter_code` (the month's quarter) from the timestamp. It leaves every other cell as it was. |
| Staging.StagingFrame.TransformTimeDimensions | transform.py:63-74 | The time columns are added to the column list, and the rows become the time stage of the old rows. |
| Staging.UrlId | transform.py:79 | An unusable URL fails with `MalformedUrl`. |
| Staging.ReleaseYearOf | transform.py:84 | An unusable release year fails with `InvalidYear`. |
| Staging.ParseIds | transform.py:79 | Succeeds exactly when every row's URL yields an id; the ids are those of the rows, in order. |
| Staging.ParseYears | transform.py:84 | Succeeds exactly when every row's release year has digits; the years are those of the rows, in order. |
| Staging.SetColumn | transform.py:64-77 | Sets one column to one value in every row. |
| Staging.WithIds | transform.py:79 | Sets each row's `imdb_id` to its id. |
| Staging.WithRuntimes | transform.py:81-82 | Replaces each row's runtime by its numeric form. |
| Staging.WithYears | transform.py:84 | Replaces each row's release year by its number. |
| Staging.MovieRowFrame | transform.py:76-86 | The movie stage sets exactly `movie_key` (null), `imdb_id`, the numeric runtime and the release year. It leaves every other cell as it was. |
| Staging.StagingFrame.TransformMovieDimensions | transform.py:76-86 | Passes exactly when the movie stage succeeds, and the rows are then its result. Otherwise it reports that stage's error and leaves what the source leaves when it raises. If the id parse failed, `movie_key` is set to null. If the runtime column holds no text, `imdb_id` is also set and the stage fails with `NoTextValues(runtime_minutes)`. If the year parse failed, the runtimes are converted as well. |
| Staging.FactStage | transform.py:88-96 | One row out per row in, each with its fact columns retyped. |
| Staging.FactElements | transform.py:88-96 | Fails with `NoTextValues(gross_earnings)` exactly when the earnings column holds no text (the `.str` accessor's `AttributeError`); otherwise gives the fact stage of the rows. |
| Staging.FactRowFrame | transform.py:88-96 | The fact stage sets exactly gross earnings (commas removed, then parsed), metascore and votes (parsed). It leaves every other cell as it was. |
| Staging.StagingFrame.TransformFactElements | transform.py:88-96 | Passes exactly when the earnings column holds some text. The fact columns are then assigned in the column list, which is unchanged when all three are already present, and the rows become the fact stage of the old rows. On failure it reports `NoTextValues(gross_earnings)` and changes nothing. |
| Staging.DropColumn | transform.py:101 | `drop(col, axis=1)` removes that column from every row and nothing else. |
| Staging.DropFrame | transform.py:101 | Dropping a column leaves every other cell as it was. |
| Staging.RemoveColumn | transform.py:101 | The column list keeps every other column, without duplicates. |
| Staging.RemoveColumnBetween | transform.py:101 | Removing a column keeps the order of the columns around it. |
| Staging.StagingFrame.RemoveUnneededColumns | transform.py:98-103 | Passes exactly when `url` is present, and then only `url` is removed from the columns and the rows. A missing `url` raises `MissingColumn(url)` and changes nothing. |
| Staging.AddColumnsKeeps | transform.py:64-93 | Assigning columns keeps the existing ones in front, adds the new ones, and creates no duplicate. |
| Staging.AddNewColumns | transform.py:64-79 | Fresh columns are appended in assignment order. |
| Staging.AddPresentColumns | transform.py:81-93 | Reassigning existing columns leaves the column list as it is. |
| Staging.StagedColumnOrder | transform.py:98-103 | Dropping `url` after the three stages yields the staging column list. |
| Staging.TransformStagingTable | transform.py:28-42 | Runs the stages in order. It passes exactly when the staging function succeeds, and the frame then holds the staging columns and rows. Otherwise it reports the error. |
| Staging.TextColumnGiven | transform.py:81-89 | A column filled from optional scraped values holds text, so `.str` applies, exactly when some value is given or there are no rows. |
| Staging.MovieStageOfGroups | transform.py:76-86 | The movie stage on the merged rows succeeds exactly when every group converts and some group has a runtime. A malformed URL is reported first, then a runtime column without text. |
| Staging.MovieStageGross | transform.py:76-89 | After a successful movie stage, the earnings column holds text exactly when some group has earnings. |
| Staging.StageGroupsFails | transform.py:28-96 | The stages succeed exactly when every group converts, some group has a runtime and some group has earnings. |
| Staging.StageGroupsErrorOrder | transform.py:28-96 | A malformed URL anywhere is reported first. Then comes a runtime column without text, in the movie stage. An earnings column without text is reported only once the movie stage has passed. |
| Staging.StageGroupsValues | transform.py:28-42 | On success, row `i` is the staged row of group `i`. |
| Staging.StageableRecords | transform.py:58-86 | Every merged group converts exactly when every input record does. |
| Staging.StagingTableSucceeds | transform.py:28-42 | The transformer succeeds exactly when every scraped record has a usable URL and release year, some record has a runtime and some has earnings. A batch with runtimes but no earnings at all fails with `NoTextValues(gross_earnings)`. |
| Staging.OneRecordWithoutEarnings | transform.py:88-90 | One convertible record with a runtime but no earnings makes the transformer fail with `NoTextValues(gross_earnings)`. |
| Staging.StageRowColumns | transform.py:63-103 | A staged row has the merged columns minus `url`, plus the twelve added or retyped columns. |
| Staging.StageRowKeys | transform.py:64-77 | `day_key` and `movie_key` are null after staging. |
| Staging.StageRowDateCells | transform.py:65-68 | The capture date and month come from the timestamp. |
| Staging.StageRowPeriodCells | transform.py:69-72 | The year comes from the timestamp, and the quarter is that of its month. |
| Staging.StageRowIdCells | transform.py:79-101 | `imdb_id` and the release year are set, and `url` is gone. |
| Staging.StageRowDimensionNumbers | transform.py:81-91 | Runtime and metascore are their coerced numbers. |
| Staging.StageRowFactNumbers | transform.py:89-93 | Vote count and earnings are their coerced numbers. |
| Staging.StageRowKeepsCells | transform.py:63-103 | Title, rank, rating, genres, credits, summary, file name and timestamp come through unchanged. |
| Staging.StagedRowFitsLoader | transform.py:63-103 | A staged row has no `url`, null keys, its id, and time columns that agree with its capture date. |
| Staging.StagedRowsFitLoader | transform.py:28-42 | Every row of a successful staging table meets those conditions. |
| Load.NewTuples | load.py:8-58 | `EXCEPT` yields no duplicates. A tuple is in the result exactly when it is a source projection and not a target projection. |
| Load.NewTuplesEmpty | load.py:8-58 | The query is empty exactly when every source row's projection already occurs in the target. |
| Load.Keyed | load.py:61-78 | The database gives the i-th appended row the key `next + i`. |
| Load.AppendCovers | load.py:61-78 | After the new tuples are appended, every source tuple occurs in the dimension. |
| Load.AppendKeepsKeysFresh | load.py:61-78 | Appending with counted keys keeps the keys assigned, distinct and below the counter. |
| Load.DimAppended | load.py:61-78 | The dimension grows by the new tuples, and its old rows stay in front. |
| Load.TimeDimAppend | load.py:61-68 | Only `day_dim` and its counter change. The old rows stay in front and exactly the new time tuples are added; an empty delta changes nothing. Afterwards every staging time tuple is present and the query finds nothing. |
| Load.MovieDimAppend | load.py:71-78 | The same for `movie_dim`, with the nine-column movie tuples. |
| Load.Warehouse.constructor | load.py:168 | The warehouse starts from the given tables. |
| Load.Warehouse.CreateNewTimeDimValues | load.py:61-68 | The new state is the time-dimension append of the old state. |
| Load.Warehouse.CreateNewMovieDimValues | load.py:71-78 | The new state is the movie-dimension append of the old state. |
| Load.AppendWithKeys | load.py:61-78 | The loop appends the rows with keys counted up from `next`, and the counter then stands past them. |
| Load.FirstMatch | load.py:81-112 | When found, the row matches, no earlier row matches, and nothing is found exactly when no row matches. A `Null` join value never matches. |
| Load.FirstMatchIs | load.py:81-112 | The first matching row is the one found. |
| Load.FindFirstMatch | load.py:81-112 | The loop finds the first matching dimension row. |
| Load.Backfilled | load.py:81-112 | One row out per row in, each updated from the dimension. |
| Load.BackfillRowEffect | load.py:81-112 | Only the key column changes. A row without a match is unchanged; a matched row gets the key of the first matching dimension row. |
| Load.BackfillRowIdempotent | load.py:81-112 | Updating a row twice with the model's first-row pick is the same as once; see "Left out" for other picks. |
| Load.BackfillIdempotent | load.py:81-112 | Running the update twice with the model's first-row pick is the same as once; see "Left out" for other picks. |
| Load.ProjectBackfillRow | load.py:81-112 | The update does not change a row's projection onto columns without the key. |
| Load.ProjectedBackfilled | load.py:81-112 | The update leaves the table's projection onto key-free columns as it was. |
| Load.BackfillRowCommutes | load.py:81-112 | Writing a column other than the join and key columns commutes with the update. |
| Load.BackfillRows | load.py:81-112 | The row-by-row loop computes the backfilled table. |
| Load.BackfillRowAllowed | load.py:98-112 | The model's first-row pick is one of the results the `UPDATE ... FROM` may give. |
| Load.UpdateDeterminedWhenMatchesAgree | load.py:98-112 | When every matching dimension row carries the same key, each result the database may give is the model's. |
| Load.UpdateTableDeterminedWhenMatchesAgree | load.py:98-112 | The same for a whole staging table: under that condition, any per-row choice gives the backfilled table. |
| Load.SecondUpdateMayReload | load.py:98-141 | After a movie's runtime changed, `movie_dim` holds two `tt1` rows. The model's pick leaves the delta empty, but the newer row's key, which the database may also pick, makes the same snapshot a delta `[2]` again. |
| Load.SnapshotAlreadyFact | load.py:115-141 | A lone staging row whose snapshot is already a fact yields no delta key, whatever the dimensions and counters hold. |
| Load.SnapshotIsDelta | load.py:115-141 | A lone staging row with key `k` whose snapshot is not a fact yields exactly `[k]`, whatever the dimensions and counters hold. |
| Load.Warehouse.PopulateDayKeyStagingTable | load.py:81-95 | The new state is the old one with `day_key` backfilled on `capture_date`. |
| Load.Warehouse.PopulateMovieKeyStagingTable | load.py:98-112 | The new state is the old one with `movie_key` backfilled on `imdb_id`. |
| Load.MovieJoinFindsTuple | load.py:98-112 | When an `imdb_id` determines the movie tuple in `movie_dim`, the join finds a row holding the staging row's own tuple. |
| Load.ChangedMovieKeepsOldKey | load.py:107 | The join on `imdb_id` alone can give the staging row the key of a `movie_dim` row whose tuple differs from its own. With an older and a newer version of one movie, the model's first-row pick gives the older version's key. |
| Pipeline.DayJoinMatchesTimeTuple | load.py:90 | When the rows are time-consistent, the `capture_date` join picks a `day_dim` row holding the staging row's whole time tuple. |
| Pipeline.SameDateSameTimeTuple | load.py:90 | Two time-consistent rows with one capture date agree on the whole time tuple. |
| Pipeline.ProjectKeepsTimeConsistent | load.py:8-26 | Projecting onto the time columns and adding a key keeps a row time-consistent. |
| Pipeline.TimeDimStaysConsistent | load.py:61-68 | When staging and `day_dim` are time-consistent, `day_dim` stays so after the append. |
| Load.DeltaKeys | load.py:137-141 | Succeeds exactly when every delta tuple has an integer `movie_key`, listing them in order. A null key fails with `UnkeyedDelta`. |
| Load.DeltaKeysExact | load.py:115-141 | A key is listed exactly when some staging row has a 6-column tuple missing from the facts and carries that key. Every such row's key is listed. The list is empty exactly when every staging tuple is already a fact. |
| Load.Warehouse.GetMovieKeyForDelta | load.py:115-141 | The loop returns the delta keys of the current state and changes nothing. |
| Load.Selected | load.py:144-161 | Keeps exactly the rows whose `movie_key` is listed. |
| Load.FactRowsExact | load.py:144-163 | The rows to load have no duplicates. They are exactly the 9-column projections of the staging rows with a listed key, whether or not each row's own tuple changed. |
| Load.FactsAppend | load.py:144-165 | Only the fact table changes, and its old rows stay in front. Every listed staging row's tuple is then a fact. |
| Load.Warehouse.PopulateMovieFactTable | load.py:144-165 | The new state is the old one with those facts appended. |
| Load.MovieStepEffect | load.py:170-172 | The movie steps append to `movie_dim` only and write only `movie_key` in staging; afterwards every staging movie tuple is in `movie_dim`. |
| Load.FactStepEffect | load.py:178-182 | The fact steps append to `day_dim` and the facts, write only `day_key` in staging, and leave `movie_dim` as it is. |
| Load.SchemaAppendsOnly | load.py:168-185 | A run only appends to the three warehouse tables and leaves every staging movie tuple in `movie_dim`. Without new facts, `day_dim` and the facts are unchanged. |
| Load.Warehouse.PopulateSchema | load.py:168-185 | The steps run in the source's order, and the outcome and the new state are those of the schema run. |
| Load.TimeDimKeepsKeysFresh | load.py:61-68 | The time append keeps the warehouse keys fresh. |
| Load.MovieDimKeepsKeysFresh | load.py:71-78 | The movie append keeps the warehouse keys fresh. |
| Load.SchemaKeepsKeysFresh | load.py:168-185 | A whole run keeps the warehouse keys fresh. |
| Load.MovieStepKeysRows | load.py:170-172 | With fresh keys and every `imdb_id` present, every staging row holds an integer `movie_key` after the movie steps. |
| Load.KeyedRow | load.py:98-112 | A staging row whose movie tuple is in a freshly keyed `movie_dim` receives an integer key. |
| Load.DeltaKeysOfKeyedRows | load.py:139 | When every staging row has an integer key, the key conversion succeeds. |
| Load.SchemaNeverFails | load.py:168-185 | With fresh keys and every `imdb_id` present, a run never fails at the key conversion. |
| Load.MovieStepFixed | load.py:170-172 | When every movie is present and every key already settled, the movie steps change nothing. |
| Load.MovieStepSettles | load.py:170-172 | After the movie steps, every staging `movie_key` is the one the model's first-row join gives. |
| Load.FactStepKeepsSettled | load.py:178-182 | The fact steps keep the movie keys settled. |
| Load.FactStepClearsDelta | load.py:174-182 | After the fact steps load the delta, the delta query finds nothing. |
| Load.SchemaIdempotent | load.py:168-185 | With the model's first-row pick, a second run on unchanged staging takes the "no new facts" branch and changes no table; see "Left out" for other picks. |
| Pipeline.StagedLoadNeverFails | load.py:168-185 | Loading a successfully staged table into a warehouse with fresh keys never fails at the key conversion. |

## Left out

- Grouping order: pandas sorts the groups by key; the model keeps them in order of first occurrence. The content of each group, and which groups exist, are the same.
- Ratings and timestamps: `imdb_rating` is opaque, and its `to_numeric` is the identity on it. `pd.to_datetime` of the timestamp is not modelled. Floating point is not modelled.
- `datetime.strptime`: the capture timestamp is taken as an already-structured date and time.
- Column types as `read_csv` infers them: the model keeps every scraped value as text. A column with no value at all is the one case modelled: pandas reads it as numeric, and `.str` on it raises (`NoTextValues`). A column whose values all look like plain numbers, such as earnings below 1,000 without separators, would also be read as numeric; the model parses those values instead.
- A batch without rows: the model's stages pass on it; how pandas' row-wise `apply` behaves on an empty frame is not modelled.
- The numeric grammar: `to_numeric` accepts signs, decimals and exponents; the model parses a non-empty all-digit text and gives `Null` for any other text.
- The frame's column list is kept beside the rows. The model does not tie the list to each row's keys.
- `IN ()` with an empty key list: the model appends nothing; some databases reject the statement. `populate_schema` never builds it, because it only loads facts when the list is non-empty.
- `UPDATE ... FROM` with several matching dimension rows: the database may pick any of them; the model picks the first.
  `Load.UpdateMayGive` states every result the database may give, and `Load.UpdateDeterminedWhenMatchesAgree` shows the pick does not matter when the matching rows agree on the key.
- Load.SchemaIdempotent: holds for the model's first-row pick only. When `movie_dim` holds two rows for one `imdb_id` (a movie whose attributes changed, as in `Load.ChangedMovieKeepsOldKey`), the second run's update may pick the other row's key. `Load.SecondUpdateMayReload` shows the same snapshot then becomes a delta under key 2 and is loaded again.
- Load.BackfillIdempotent: holds for the model's first-row pick; a database that resolves a duplicated `imdb_id` differently on the second update may write another key.
- Load.BackfillRowIdempotent: the same dependence on the first-row pick, for one row.
- Load.MovieStepSettles: states the keys the model's first-row pick writes, not every key the database may write.
- Surrogate keys: the model assumes the database hands out `day_key` and `movie_key` from counters, `next`, `next + 1`, and so on.
- The float-to-int cast of `movie_key` (load.py:139): keys are integers; a null key is the `UnkeyedDelta` error.
- Joins: the loader's key updates join on `imdb_id` and `capture_date` alone, not on the whole dimension tuple. The model follows the code. `Load.ChangedMovieKeepsOldKey` shows the consequence for a movie whose attributes changed. `Pipeline.DayJoinMatchesTimeTuple` shows the two joins agree for time-consistent rows.
- CSV reading, SQL connections, file moves and logging (`util.py`, `ingest_new_staging_data`) are I/O and are left out. `ingest_new_staging_data` replaces the staging table with the transformer's output; the loader's `Tables` value takes that table as given.
- `extract.py`, `main.py` and `movies.py` are not part of this model. Scraping and prompts are I/O, and the record fields of `movies.py` appear as `Grouping.Attributes`.
