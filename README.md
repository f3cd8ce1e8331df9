# energi-loader, modelled in Dafny

energi-loader is a small ETL script. For every dataset of the Danish
transmission operator's open-data API and every day of an inclusive range,
it does four things:

- fetches the day's records (`start={day}T00:00&end={day+1}&limit=N`);
- flattens the JSON envelope into a pandas data frame;
- stamps every row with a `date` column and parses the known time-stamp
  columns;
- replaces that day's rows in the SQLite table named after the dataset
  ("upsert by day": delete the day's rows, then append).

This project models that core over abstract values:

- **Values**:
  - a `Record` is a map from field name to a tagged `Scalar` (text, number,
    date-time, null);
  - a `Table` is a sequence of records;
  - an absent field stands for pandas' missing value, which the store
    writes as NULL.
- **Calendar**:
  - proleptic Gregorian days;
  - the successor day, across month ends, year ends and 29 February;
  - the `YYYY-MM-DD` format (the `full-date` of section 5.6 of RFC 3339)
    and a parser that inverts it;
  - the inclusive daily range of `pd.date_range`.
- **Fetcher**:
  - the request for one day;
  - the truncation predicate (`total > limit`, a missing `total` read as 0);
  - a transport failure degrades to the empty payload.
  - The remote API is a parameter: `api: Request -> Response`.
- **Flattener**: `to_data_frame`.
- **Enricher**:
  - a `Frame` class whose `rows` field `transform` and
    `convert_known_datetime_fields` update in place;
  - specified by the pure `Enrich`/`Retagged`.
  - `pd.to_datetime` on one value is a parameter: `parse: Scalar -> Option<Reading>`.
    A `Reading` is an instant or NaT (which the frame holds as null); `None`
    means pandas raises.
- **Store writer**:
  - a `Store` class holding `tables: map<string, Table>`;
  - `DeleteIfDayExists`, `Append` and `UpsertIntoSqlite` methods, specified
    by the pure `Upserted`.
- **Pipeline**:
  - the `Etl` and `DoWork` methods drive the store;
  - they are proved equal to `Run`, a fold of the one-unit step `Step` over
    the (dataset, day) units of `Units(datasets, DateRange(start, end))`;
  - a characterisation of `Run` by the "trace" of loads it performs gives
    the re-run theorem: running the loader twice over the same units, with
    the same API answers, leaves the store as one run left it.

Error behaviour follows the code:

- A transport failure (`IOError`) becomes the empty payload, so that day is
  skipped.
- An unparseable value in a known time-stamp column makes `transform`
  raise. Nothing in `etl` or `do_work` catches the error, so the whole run
  ends there. Everything written before stays in the store.
- The model returns `completed == false` for this case, and `RunStopped`
  proves that no later unit is attempted.

## Model

| member | source | states |
|---|---|---|
| Calendar.DaysInMonth | src/main/python/energi_loader.py:15 | a month has 28 to 31 days, and February has 29 exactly in Gregorian leap years |
| Calendar.NextDay | src/main/python/energi_loader.py:15 | `day + timedelta(days=1)`: the day moves to the 1st exactly after a month's last day, otherwise the day of the month goes up by one; the year changes exactly after 31 December, to 1 January of the next year |
| Calendar.NextDayIsSuccessor | src/main/python/energi_loader.py:15 | `day + timedelta(days=1)` is the next day: its day number is one more, across month ends, year ends and 29 February |
| Calendar.DayNumberInjective | src/main/python/energi_loader.py:15 | distinct days have distinct day numbers, so the successor is unique |
| Calendar.Format | src/main/python/energi_loader.py:14 | `strftime("%Y-%m-%d")` gives at least 10 characters with dashes before the last two fields, and exactly `YYYY-MM-DD` (10 characters, dashes at 4 and 7) for years up to 9999 |
| Calendar.FormatRoundTrip | src/main/python/energi_loader.py:14 | reading the formatted day back gives the same day |
| Calendar.FormatInjective | src/main/python/energi_loader.py:87 | two days with the same `date` string are the same day, so the DELETE key names one day |
| Calendar.DigitsValueOfDigits | src/main/python/energi_loader.py:14 | the decimal digits of a number read back as that number |
| Calendar.PadLeftValue | src/main/python/energi_loader.py:14 | zero padding does not change a field's value |
| Calendar.DateRange | src/main/python/energi_loader.py:106 | `pd.date_range(start, end)`: empty exactly when start is after end, and otherwise starts at start |
| Calendar.DateRangeSpec | src/main/python/energi_loader.py:106 | `pd.date_range(start, end)` has `end - start + 1` days (none if start is after end); day i is start plus i days, and each is the successor of the one before |
| Calendar.DateRangeMembers | src/main/python/energi_loader.py:106 | a day is in the range exactly when it lies between start and end inclusive |
| Fetcher.QueryFor | src/main/python/energi_loader.py:14-19 | the request of one day: the query's `start` is the day's `YYYY-MM-DD` plus `T00:00`, its `end` is the successor day's `YYYY-MM-DD`, both parse back to those days, and the limit and dataset pass through |
| Fetcher.Truncated | src/main/python/energi_loader.py:22 | `json_dict.get("total", 0) > limit`: with a `total`, truncation means it exceeds the limit; without one, it never holds at a non-negative limit |
| Fetcher.FetchDatasetFromApi | src/main/python/energi_loader.py:13-30 | a received body is returned unchanged; a transport failure returns the empty payload without warning; the warning is raised exactly when a body arrived and its `total` (missing read as 0) exceeds the limit |
| Flattener.ToDataFrame | src/main/python/energi_loader.py:51-52 | no table exactly when `records` is missing, null or empty; otherwise one row per record, row i equal to record i |
| Flattener.FlattenIgnoresTotal | src/main/python/energi_loader.py:22 | the truncation warning changes nothing downstream: the records that arrived are flattened whatever `total` says |
| Flattener.FlattenEmptyPayload | src/main/python/energi_loader.py:30 | the empty payload of a failed fetch yields no table |
| Enricher.ToDateTime | src/main/python/energi_loader.py:63 | a converted value is a date-time or null; nulls and date-times pass through; text or numbers convert exactly when the parser accepts them, and then hold exactly the parser's instant, or null where the parser reads NaT (as pandas does for `""` or `"NaT"`) |
| Enricher.Retagged | src/main/python/energi_loader.py:63 | converting columns succeeds exactly when every value in them parses; it then keeps the row count and converts each row field by field |
| Enricher.RetaggedOneMore | src/main/python/energi_loader.py:61-63 | converting one more column after others equals converting them all at once |
| Enricher.RetaggedFailureSpreads | src/main/python/energi_loader.py:61-63 | a conversion that fails on some columns fails on any wider set of columns |
| Enricher.RetaggedOnlyPresentColumns | src/main/python/energi_loader.py:61-62 | only the columns the frame has matter, so iterating `df.columns` with the allow-list filter converts exactly the allow-list |
| Enricher.ConvertColumnStep | src/main/python/energi_loader.py:61-63 | one turn of the column loop continues the conversion, and a failure there is a failure of the whole allow-list |
| Enricher.Enrich | src/main/python/energi_loader.py:66-69 | `transform(df, day)` as a value: on success the row count is kept and every row is dated on the day |
| Enricher.EnrichDefined | src/main/python/energi_loader.py:66-69 | `transform` succeeds exactly when every allow-listed value of the frame parses |
| Enricher.EnrichRows | src/main/python/energi_loader.py:66-69 | after `transform` the row count and order are kept; every row gains `date` equal to the day's `YYYY-MM-DD`; each allow-listed value is replaced by its own conversion (so a date-time or null); every other column keeps its values |
| Enricher.EnrichDated | src/main/python/energi_loader.py:67 | every row `transform` returns is dated on its day |
| Enricher.Frame.ConvertColumn | src/main/python/energi_loader.py:63 | `df[c] = pd.to_datetime(df[c])` on the frame itself: succeeds exactly when the column parses, and then the frame holds the converted rows; when pandas raises, the frame is unchanged |
| Enricher.Frame.ConvertKnownDatetimeFields | src/main/python/energi_loader.py:60-63 | the column loop, in whatever order the frame lists its columns, succeeds exactly when the allow-listed columns parse, and then the caller's frame holds them converted; when pandas raises, the frame holds some subset of the allow-listed columns converted and nothing else changed |
| Enricher.Frame.Transform | src/main/python/energi_loader.py:66-68 | the caller's own frame gains `date` and its converted columns; success exactly when the allow-list parses; when pandas raises, the frame is the dated frame with some subset of the allow-listed columns converted |
| StoreWriter.Without | src/main/python/energi_loader.py:87 | `DELETE ... WHERE date = day` on one table: never adds rows; its exact effect follows from `WithoutMembers` (which rows are kept) and `WithoutAppend` (row by row, in order) |
| StoreWriter.WithoutMembers | src/main/python/energi_loader.py:87 | `DELETE ... WHERE date = day` keeps exactly the rows not dated on the day |
| StoreWriter.WithoutAppend | src/main/python/energi_loader.py:87 | the delete works row by row: deleting from two blocks is deleting from each |
| StoreWriter.WithoutTwice | src/main/python/energi_loader.py:87 | two deletes are one delete of both keys |
| StoreWriter.WithoutAllDated | src/main/python/energi_loader.py:87 | deleting a day from rows all dated on that day leaves nothing |
| StoreWriter.OnDayWithout | src/main/python/energi_loader.py:87 | after deleting a day, selecting that day gives nothing and selecting any other day is unchanged |
| StoreWriter.Upserted | src/main/python/energi_loader.py:90-93 | the store after `upsert_into_sqlite`: the table exists afterwards and no other is created; it ends with the new rows, in order, and holds at most its old rows besides them |
| StoreWriter.UpsertedTables | src/main/python/energi_loader.py:79-93 | the upserted table ends with the new rows in order, and what precedes them holds exactly the old rows of other days, by membership (none if it did not exist); the order and repeats of each other day's rows are `UpsertKeepsOtherDays`; the table exists afterwards; every other table is unchanged |
| StoreWriter.UpsertReplacesDay | src/main/python/energi_loader.py:79-93 | with rows dated on the day, the table afterwards holds, for that day, exactly the new rows |
| StoreWriter.UpsertKeepsOtherDays | src/main/python/energi_loader.py:87 | cross-day independence: the rows of every other day of the table are exactly as before |
| StoreWriter.UpsertIdempotent | src/main/python/energi_loader.py:79-93 | with rows dated on the day, upserting them twice gives the same store as once |
| StoreWriter.Store.DeleteIfDayExists | src/main/python/energi_loader.py:79-87 | if the table exists its rows of the day are deleted; otherwise nothing changes |
| StoreWriter.Store.Append | src/main/python/energi_loader.py:93 | `to_sql(if_exists="append")` appends the rows in order, creating the table if needed |
| StoreWriter.Store.UpsertIntoSqlite | src/main/python/energi_loader.py:90-93 | delete then append leaves the store as `Upserted` |
| Pipeline.LoadUnit | src/main/python/energi_loader.py:97-101 | a loaded unit has at least one row, and all of them are dated on the day |
| Pipeline.LoadUnitNoData | src/main/python/energi_loader.py:97-100 | with limit 10000, a unit has no data exactly when the request fails in transport or brings no records |
| Pipeline.LoadUnitFailure | src/main/python/energi_loader.py:101 | a unit fails exactly when an allow-listed value of its records does not parse |
| Pipeline.LoadUnitRows | src/main/python/energi_loader.py:97-101 | a loaded unit has one row per record, each with the record's fields plus `date` set to the day |
| Pipeline.LoadUnitSpec | src/main/python/energi_loader.py:97-101 | with limit 10000: no data exactly when the request fails in transport or brings no records; failure exactly when an allow-listed value does not parse; otherwise one row per record, each with the record's fields plus `date` |
| Pipeline.Step | src/main/python/energi_loader.py:96-102 | `etl(dataset, day, db)` on the store: a failed `transform` writes nothing; no table is dropped and only the dataset's table can be created |
| Pipeline.StepLoaded | src/main/python/energi_loader.py:101-102 | a unit that loads is upserted into its dataset's table on its day |
| Pipeline.StepTouchesOnlyItsDay | src/main/python/energi_loader.py:96-102 | one `etl` call leaves every other table, and every other day of its table, unchanged |
| Pipeline.StepReplacesItsDay | src/main/python/energi_loader.py:96-102 | a unit that loads leaves its day of its table holding exactly its rows |
| Pipeline.Run | src/main/python/energi_loader.py:105-111 | the run over a sequence of units, stopping at the first raised error: no table is dropped, and only a non-empty run can stop |
| Pipeline.RunTables | src/main/python/energi_loader.py:105-111 | a run drops no table and creates only tables named after its units' datasets |
| Pipeline.RunStopped | src/main/python/energi_loader.py:105-111 | once `transform` has raised, no later unit is attempted and the store stays as it was at that point |
| Pipeline.Units | src/main/python/energi_loader.py:107-111 | the units of the nested loops: each pairs one of the datasets with one of the days |
| Pipeline.UnitsLength | src/main/python/energi_loader.py:107-111 | the nested loops make `|datasets| * |days|` units |
| Pipeline.UnitAt | src/main/python/energi_loader.py:107-111 | unit `i * |days| + j` is dataset i on day j: dataset-major, days ascending, every pair exactly once |
| Pipeline.TraceWellDated | src/main/python/energi_loader.py:87 | every row a run has loaded into a table is dated on one of the days it replaced there |
| Pipeline.UpsertMerge | src/main/python/energi_loader.py:90-93 | one upsert on a store overlaid with a run's loads is the overlay of the loads extended by that upsert |
| Pipeline.ApplyMerge | src/main/python/energi_loader.py:96-102 | one `etl` step on an overlaid store is the overlay of the trace one step on |
| Pipeline.RunIsMerge | src/main/python/energi_loader.py:105-111 | a run leaves each table as its rows of the days not loaded, followed by the rows the run loaded there; its verdict does not depend on the store |
| Pipeline.MergeTwice | src/main/python/energi_loader.py:79-93 | overlaying the same well-dated loads twice is overlaying them once |
| Pipeline.RerunIdempotent | src/main/python/energi_loader.py:105-111 | running the same units twice with the same API answers gives the store and verdict of one run |
| Pipeline.SampleLoad | src/main/python/energi_loader.py:96-102 | loading the sample `CO2Emis` record for 2023-12-20 into an empty store creates that one table with one row: the record, dated `2023-12-20`, both time stamps parsed |
| Pipeline.FetchAndTransform | src/main/python/energi_loader.py:97-101 | fetch, flatten and `transform` on a fresh frame yield exactly the unit's result |
| Pipeline.Etl | src/main/python/energi_loader.py:96-102 | `etl` leaves the store as `Step` says, and unchanged when the flattener finds no records |
| Pipeline.DoWork | src/main/python/energi_loader.py:105-111 | the nested loops leave the store, and report completion, as `Run` over every (dataset, day) unit of the inclusive range in dataset-major order |

## Left out

- The HTTP request, the URL text and JSON decoding are not modelled. `requests.get` and `response.json()` are the `api` parameter. Any exception other than `IOError` (for example a JSON `total` of null, which Python refuses to compare with an int) is not modelled.
- The printed messages, the progress dots and the truncation warning's text are left out. The warning itself is the `truncationWarning` flag.
- The SQLite connection, its transaction scope, the SQL text built by string interpolation (and its injection risk), and store failures are left out. Only the effect on the abstract store is modelled.
- Schema evolution is left out. An append whose columns differ from the existing table's is left to pandas and SQLite. The model appends the records as they are.
- pandas' parser `pd.to_datetime` is the `parse` parameter. A column is converted only where the parser accepts every value in it. The model does not capture pandas inferring one format per column.
- `reset_index().set_index("index")` is left out. `to_sql(index=False)` drops the index, so it changes nothing stored, with one exception that is not modelled. When the records carry a field named `index`, `reset_index` names the new column `level_0`, and `set_index("index")` turns the record's own `index` field into the frame's index. The store then receives `level_0` (the row positions) instead of that field.
- Numeric fields are opaque `real` values. Floating-point behaviour is not modelled.
- `get_and_save_as_csv` (file output) and the `argparse` entry point are left out. The command line's date strings reach `DoWork` already parsed as days.
- Years are unbounded above. Python's `date` stops at 9999 and pandas' `Timestamp` at 2262, so the overflow past those is not modelled. Below year 1000 `strftime("%Y")` is platform-dependent; `Format` pads to four digits.
- Table names are compared exactly. SQLite's case-insensitive table names are not modelled.
- Enricher.Frame.ConvertKnownDatetimeFields: when a column fails to parse, the contract says only that some subset of the allow-listed columns is converted. Which subset depends on the order in which pandas lists the frame's columns, and the model leaves that order open.
- Enricher.Frame.Transform: on failure the contract says that the frame is the dated frame with some subset of the allow-listed columns converted. Which subset is left open, as for ConvertKnownDatetimeFields.
