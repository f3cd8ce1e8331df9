/** The orchestrator: `etl` runs fetch, flatten, enrich and upsert for one
    (dataset, day) unit, and `do_work` drives it over every dataset and
    every day of an inclusive range, in that order. */
module Pipeline {
  import opened Values
  import opened Calendar
  import opened Fetcher
  import opened Flattener
  import opened Enricher
  import opened StoreWriter

  /** The outside world a run depends on: the remote API and the
      date-time parser. */
  datatype Env = Env(api: Api, parse: Parser)

  /** The `limit` that `etl` asks the API for. */
  const EtlLimit: int := 10000

  /** What fetch, flatten and enrich make of one unit: no data (skipped),
      a value pandas cannot parse (`transform` raises), or the rows to
      store. */
  datatype UnitResult = NoData | ParseFailure | Loaded(rows: Table)

  /** One (dataset, day) pair of the run. */
  datatype WorkUnit = WorkUnit(dataset: string, day: Day)

  /** The store after some units, and whether the run got through them
      all (false once `transform` has raised, which ends the run). */
  datatype Outcome = Outcome(tables: Tables, completed: bool)

  /** `get_as_data_frame(dataset, day, 10000)` followed by `transform`. */
  function LoadUnit(env: Env, dataset: string, day: Day): (u: UnitResult)
    ensures u.Loaded? ==> |u.rows| > 0 && AllDated(u.rows, Format(day))
  {
    match ToDataFrame(FetchDatasetFromApi(env.api, dataset, day, EtlLimit).payload)
    case None => NoData
    case Some(table) =>
      match Enrich(table, day, env.parse)
      case None => ParseFailure
      case Some(rows) => EnrichDated(table, day, env.parse); Loaded(rows)
  }

  /** A unit yields no data exactly when the request for it, with limit
      10000, fails in transport or brings back no records. */
  lemma LoadUnitNoData(env: Env, dataset: string, day: Day)
    ensures var answer := env.api(QueryFor(dataset, day, EtlLimit));
      LoadUnit(env, dataset, day).NoData? <==>
        answer.TransportFailure? || answer.body.records.None? || answer.body.records.value == []
  {
  }

  /** A unit fails exactly when some allow-listed value of its records
      does not parse. */
  lemma LoadUnitFailure(env: Env, dataset: string, day: Day)
    ensures var answer := env.api(QueryFor(dataset, day, EtlLimit));
      LoadUnit(env, dataset, day).ParseFailure? <==>
        && answer.Received? && answer.body.records.Some?
        && exists i, k :: 0 <= i < |answer.body.records.value| && k in answer.body.records.value[i]
             && k in KnownDatetimeFields
             && ToDateTime(answer.body.records.value[i][k], env.parse).None?
  {
    var table := ToDataFrame(FetchDatasetFromApi(env.api, dataset, day, EtlLimit).payload);
    if table.Some? {
      LoadFlattened(env, dataset, day, table.value);
      EnrichDefined(table.value, day, env.parse);
    }
  }

  /** A loaded unit's rows are its records, one for one and in order,
      each stamped with the day. A truncated answer is loaded like any
      other. */
  lemma LoadUnitRows(env: Env, dataset: string, day: Day)
    requires LoadUnit(env, dataset, day).Loaded?
    ensures var answer := env.api(QueryFor(dataset, day, EtlLimit));
      var rows := LoadUnit(env, dataset, day).rows;
      && answer.Received?
      && |rows| == |answer.body.records.value|
      && forall i :: 0 <= i < |rows| ==>
           rows[i].Keys == answer.body.records.value[i].Keys + {DateColumn}
           && rows[i][DateColumn] == Text(Format(day))
  {
    var table := ToDataFrame(FetchDatasetFromApi(env.api, dataset, day, EtlLimit).payload).value;
    LoadFlattened(env, dataset, day, table);
    EnrichRows(table, day, env.parse);
  }

  /** The three outcomes of a unit together: no data, failure, or its
      records stamped with the day. */
  lemma LoadUnitSpec(env: Env, dataset: string, day: Day)
    ensures var answer := env.api(QueryFor(dataset, day, EtlLimit));
      var u := LoadUnit(env, dataset, day);
      && (u.NoData? <==>
           answer.TransportFailure? || answer.body.records.None? || answer.body.records.value == [])
      && (u.ParseFailure? <==>
           && answer.Received? && answer.body.records.Some?
           && exists i, k :: 0 <= i < |answer.body.records.value| && k in answer.body.records.value[i]
                && k in KnownDatetimeFields
                && ToDateTime(answer.body.records.value[i][k], env.parse).None?)
      && (u.Loaded? ==>
           && answer.Received?
           && |u.rows| == |answer.body.records.value|
           && forall i :: 0 <= i < |u.rows| ==>
                u.rows[i].Keys == answer.body.records.value[i].Keys + {DateColumn}
                && u.rows[i][DateColumn] == Text(Format(day)))
  {
    LoadUnitNoData(env, dataset, day);
    LoadUnitFailure(env, dataset, day);
    if LoadUnit(env, dataset, day).Loaded? {
      LoadUnitRows(env, dataset, day);
    }
  }

  /** What `etl` does to the store once the unit's result is known: no
      change when there is no data, a raised error when `transform` fails,
      and otherwise the upsert of the rows. */
  function Apply(tables: Tables, unit: WorkUnit, result: UnitResult): Outcome
  {
    match result
    case NoData => Outcome(tables, true)
    case ParseFailure => Outcome(tables, false)
    case Loaded(rows) => Outcome(Upserted(tables, unit.dataset, unit.day, rows), true)
  }

  /** What `etl(dataset, day, db)` does to the store. */
  function Step(env: Env, tables: Tables, unit: WorkUnit): (r: Outcome)
    ensures !r.completed ==> r.tables == tables
    ensures tables.Keys <= r.tables.Keys <= tables.Keys + {unit.dataset}
  {
    Apply(tables, unit, LoadUnit(env, unit.dataset, unit.day))
  }

  /** A unit that loads is upserted. */
  lemma StepLoaded(env: Env, tables: Tables, unit: WorkUnit, rows: Table)
    requires LoadUnit(env, unit.dataset, unit.day) == Loaded(rows)
    ensures Step(env, tables, unit) == Outcome(Upserted(tables, unit.dataset, unit.day, rows), true)
  {
  }

  /** One unit touches only its own day of its own table: every other
      table, and every other day of that table, keeps its rows. */
  lemma StepTouchesOnlyItsDay(env: Env, tables: Tables, unit: WorkUnit, name: string, key: string)
    requires name != unit.dataset || key != Format(unit.day)
    ensures OnDay(Lookup(Step(env, tables, unit).tables, name), key) == OnDay(Lookup(tables, name), key)
  {
    var u := LoadUnit(env, unit.dataset, unit.day);
    if u.Loaded? && name == unit.dataset {
      UpsertKeepsOtherDays(tables, name, unit.day, u.rows, key);
    }
  }

  /** A unit that loads replaces its day of its table by exactly its rows. */
  lemma StepReplacesItsDay(env: Env, tables: Tables, unit: WorkUnit)
    requires LoadUnit(env, unit.dataset, unit.day).Loaded?
    ensures var after := Step(env, tables, unit);
      after.completed
      && OnDay(Lookup(after.tables, unit.dataset), Format(unit.day)) == LoadUnit(env, unit.dataset, unit.day).rows
  {
    var rows := LoadUnit(env, unit.dataset, unit.day).rows;
    StepLoaded(env, tables, unit, rows);
    UpsertReplacesDay(tables, unit.dataset, unit.day, rows);
  }

  /** The run over a sequence of units: each unit in turn, stopping at the
      first one whose `transform` raises. */
  function Run(env: Env, tables: Tables, units: seq<WorkUnit>): (r: Outcome)
    ensures tables.Keys <= r.tables.Keys
    ensures !r.completed ==> units != []
    decreases |units|
  {
    if units == [] then Outcome(tables, true)
    else
      var before := Run(env, tables, units[..|units| - 1]);
      if before.completed then Step(env, before.tables, units[|units| - 1]) else before
  }

  /** A run drops no table and creates only tables named after the
      datasets of its units. */
  lemma {:induction false} RunTables(env: Env, tables: Tables, units: seq<WorkUnit>)
    ensures var after := Run(env, tables, units).tables;
      tables.Keys <= after.Keys <= tables.Keys + (set u | u in units :: u.dataset)
    decreases |units|
  {
    if units != [] {
      var init := units[..|units| - 1];
      RunTables(env, tables, init);
      assert forall u :: u in init ==> u in units;
    }
  }

  /** Once a run has stopped, the units after it are never attempted. */
  lemma {:induction false} RunStopped(env: Env, tables: Tables, prefix: seq<WorkUnit>, units: seq<WorkUnit>)
    requires prefix <= units
    requires !Run(env, tables, prefix).completed
    ensures Run(env, tables, units) == Run(env, tables, prefix)
    decreases |units|
  {
    if |units| > |prefix| {
      assert prefix <= units[..|units| - 1];
      RunStopped(env, tables, prefix, units[..|units| - 1]);
    } else {
      assert units == prefix;
    }
  }

  // ---------------------------------------------------------------------
  // The units of `do_work`

  /** The units of one dataset, one per day, in the days' order. */
  function Pairs(dataset: string, days: seq<Day>): (r: seq<WorkUnit>)
    ensures |r| == |days|
    ensures forall j :: 0 <= j < |days| ==> r[j] == WorkUnit(dataset, days[j])
  {
    seq(|days|, j requires 0 <= j < |days| => WorkUnit(dataset, days[j]))
  }

  /** The units of `do_work`: dataset by dataset, and within each, day by day. */
  function Units(datasets: seq<string>, days: seq<Day>): (r: seq<WorkUnit>)
    ensures forall u :: u in r ==> u.dataset in datasets && u.day in days
    decreases |datasets|
  {
    if datasets == [] then []
    else Units(datasets[..|datasets| - 1], days) + Pairs(datasets[|datasets| - 1], days)
  }

  /** One unit per (dataset, day) pair: there are `|datasets| * |days|` of them. */
  lemma {:induction false} UnitsLength(datasets: seq<string>, days: seq<Day>)
    ensures |Units(datasets, days)| == |datasets| * |days|
    decreases |datasets|
  {
    if datasets != [] {
      var n := |datasets| - 1;
      UnitsLength(datasets[..n], days);
      assert (n + 1) * |days| == n * |days| + |days|;
    }
  }

  /** Dataset-major order: unit `i * |days| + j` is dataset `i` on day
      `j`, so with the count above every pair occurs exactly once. */
  lemma {:induction false} UnitAt(datasets: seq<string>, days: seq<Day>, i: int, j: int)
    requires 0 <= i < |datasets| && 0 <= j < |days|
    ensures i * |days| + j < |Units(datasets, days)|
    ensures Units(datasets, days)[i * |days| + j] == WorkUnit(datasets[i], days[j])
    decreases |datasets|
  {
    var n := |datasets| - 1;
    var init := datasets[..n];
    UnitsLength(init, days);
    if i < n {
      UnitAt(init, days, i, j);
    }
  }

  /** The units of the first datasets come first. */
  lemma {:induction false} UnitsPrefix(datasets: seq<string>, days: seq<Day>, k: nat)
    requires k <= |datasets|
    ensures Units(datasets[..k], days) <= Units(datasets, days)
    decreases |datasets|
  {
    if k < |datasets| {
      var init := datasets[..|datasets| - 1];
      assert init[..k] == datasets[..k];
      UnitsPrefix(init, days, k);
    } else {
      assert datasets[..k] == datasets;
    }
  }

  /** Where the nested loops of `do_work` stand after dataset `i`'s first
      `j` days. */
  function Position(datasets: seq<string>, days: seq<Day>, i: nat, j: nat): seq<WorkUnit>
    requires i < |datasets| && j <= |days|
  {
    Units(datasets[..i], days) + Pairs(datasets[i], days[..j])
  }

  /** The inner loop starts where the datasets before it ended. */
  lemma PositionStart(datasets: seq<string>, days: seq<Day>, i: nat)
    requires i < |datasets|
    ensures Position(datasets, days, i, 0) == Units(datasets[..i], days)
  {
    assert Pairs(datasets[i], days[..0]) == [];
  }

  /** Each turn of the inner loop adds its unit at the end. */
  lemma PositionNext(datasets: seq<string>, days: seq<Day>, i: nat, j: nat)
    requires i < |datasets| && j < |days|
    ensures Position(datasets, days, i, j + 1) == Position(datasets, days, i, j) + [WorkUnit(datasets[i], days[j])]
  {
    assert Pairs(datasets[i], days[..j + 1]) == Pairs(datasets[i], days[..j]) + [WorkUnit(datasets[i], days[j])];
  }

  /** Finishing the inner loop finishes the dataset. */
  lemma PositionEnd(datasets: seq<string>, days: seq<Day>, i: nat)
    requires i < |datasets|
    ensures Position(datasets, days, i, |days|) == Units(datasets[..i + 1], days)
  {
    assert datasets[..i + 1][..i] == datasets[..i];
    assert datasets[..i + 1][i] == datasets[i];
    assert days[..|days|] == days;
    assert Units(datasets[..i + 1], days) == Units(datasets[..i], days) + Pairs(datasets[i], days);
  }

  /** Every position of the loops is a prefix of the whole run's units. */
  lemma PositionInUnits(datasets: seq<string>, days: seq<Day>, i: nat, j: nat)
    requires i < |datasets| && j <= |days|
    ensures Position(datasets, days, i, j) <= Units(datasets, days)
  {
    PositionEnd(datasets, days, i);
    assert Pairs(datasets[i], days[..j]) <= Pairs(datasets[i], days);
    UnitsPrefix(datasets, days, i + 1);
  }

  /** The run over one more unit. */
  lemma RunSnoc(env: Env, tables: Tables, units: seq<WorkUnit>, unit: WorkUnit)
    ensures Run(env, tables, units + [unit]) ==
      if Run(env, tables, units).completed then Step(env, Run(env, tables, units).tables, unit)
      else Run(env, tables, units)
  {
    assert (units + [unit])[..|units|] == units;
  }

  // ---------------------------------------------------------------------
  // What a run leaves in the store

  /** What a run has loaded into one table: the days it replaced, and the
      rows it has put there, in order. */
  datatype Partition = Partition(days: set<string>, rows: Table)

  /** The loads of a run, per table, and whether it ran to the end. */
  datatype Trace = Trace(completed: bool, loads: map<string, Partition>)

  function PartOf(tr: Trace, name: string): Partition
  {
    if name in tr.loads then tr.loads[name] else Partition({}, [])
  }

  /** A partition with one more day loaded. */
  function Extend(p: Partition, key: string, rows: Table): Partition
  {
    Partition(p.days + {key}, Without(p.rows, {key}) + rows)
  }

  /** The trace after one more unit, given that unit's result. */
  function Note(tr: Trace, unit: WorkUnit, result: UnitResult): Trace
  {
    match result
    case NoData => tr
    case ParseFailure => tr.(completed := false)
    case Loaded(rows) =>
      tr.(loads := tr.loads[unit.dataset := Extend(PartOf(tr, unit.dataset), Format(unit.day), rows)])
  }

  /** The loads of the units, which do not depend on what the store held. */
  function TraceOf(env: Env, units: seq<WorkUnit>): Trace
    decreases |units|
  {
    if units == [] then Trace(true, map[])
    else
      var tr := TraceOf(env, units[..|units| - 1]);
      var unit := units[|units| - 1];
      if tr.completed then Note(tr, unit, LoadUnit(env, unit.dataset, unit.day)) else tr
  }

  /** A table overlaid with a partition: its rows of other days, then the
      partition's rows. */
  function Overlay(rows: Table, p: Partition): Table
  {
    Without(rows, p.days) + p.rows
  }

  /** The store with every table overlaid with what the trace loaded there. */
  function Merge(tables: Tables, tr: Trace): Tables
  {
    map name | name in tables.Keys + tr.loads.Keys :: Overlay(Lookup(tables, name), PartOf(tr, name))
  }

  /** Every row a partition holds is of one of its days. */
  predicate WellDated(p: Partition)
  {
    forall r :: r in p.rows ==> DatedIn(r, p.days)
  }

  lemma {:induction false} WithoutNothing(rows: Table)
    ensures Without(rows, {}) == rows
  {
    if rows != [] {
      WithoutNothing(rows[1..]);
      assert rows == [rows[0]] + rows[1..];
    }
  }

  lemma MergeKeys(tables: Tables, tr: Trace)
    ensures Merge(tables, tr).Keys == tables.Keys + tr.loads.Keys
  {
  }

  lemma LookupMerge(tables: Tables, tr: Trace, name: string)
    ensures Lookup(Merge(tables, tr), name) == Overlay(Lookup(tables, name), PartOf(tr, name))
  {
    if name !in tables.Keys + tr.loads.Keys {
      WithoutNothing([]);
    }
  }

  /** Upserting a day into an overlaid table is overlaying the extended partition. */
  lemma OverlayExtend(rows: Table, p: Partition, key: string, added: Table)
    ensures Without(Overlay(rows, p), {key}) + added == Overlay(rows, Extend(p, key, added))
  {
    WithoutAppend(Without(rows, p.days), p.rows, {key});
    WithoutTwice(rows, p.days, {key});
  }

  /** Overlaying the same well-dated partition twice is overlaying it once. */
  lemma OverlayTwice(rows: Table, p: Partition)
    requires WellDated(p)
    ensures Overlay(Overlay(rows, p), p) == Overlay(rows, p)
  {
    WithoutAppend(Without(rows, p.days), p.rows, p.days);
    WithoutTwice(rows, p.days, p.days);
    assert p.days + p.days == p.days;
    WithoutAllDated(p.rows, p.days);
  }

  /** Every partition a run builds is well dated. */
  lemma {:induction false} TraceWellDated(env: Env, units: seq<WorkUnit>)
    ensures forall name :: name in TraceOf(env, units).loads ==> WellDated(TraceOf(env, units).loads[name])
    decreases |units|
  {
    if units != [] {
      var tr := TraceOf(env, units[..|units| - 1]);
      TraceWellDated(env, units[..|units| - 1]);
      var unit := units[|units| - 1];
      var u := LoadUnit(env, unit.dataset, unit.day);
      if tr.completed && u.Loaded? {
        var p := PartOf(tr, unit.dataset);
        var key := Format(unit.day);
        WithoutMembers(p.rows, {key});
        assert WellDated(Extend(p, key, u.rows));
      }
    }
  }

  lemma SameTables(a: Tables, b: Tables)
    requires a.Keys == b.Keys
    requires forall t :: t in a ==> a[t] == b[t]
    ensures a == b
  {
  }

  /** Table by table, a loaded unit on a merged store is the merge of the
      extended trace. */
  lemma UpsertMergeAt(tables: Tables, tr: Trace, unit: WorkUnit, rows: Table, t: string)
    ensures Lookup(Upserted(Merge(tables, tr), unit.dataset, unit.day, rows), t) ==
      Lookup(Merge(tables, Note(tr, unit, Loaded(rows))), t)
  {
    var name, key := unit.dataset, Format(unit.day);
    var tr' := Note(tr, unit, Loaded(rows));
    LookupMerge(tables, tr', t);
    LookupMerge(tables, tr, t);
    if t == name {
      OverlayExtend(Lookup(tables, name), PartOf(tr, name), key, rows);
    } else {
      assert PartOf(tr', t) == PartOf(tr, t);
    }
  }

  /** One loaded unit on a merged store is the merge of the extended trace. */
  lemma UpsertMerge(tables: Tables, tr: Trace, unit: WorkUnit, rows: Table)
    ensures Upserted(Merge(tables, tr), unit.dataset, unit.day, rows) == Merge(tables, Note(tr, unit, Loaded(rows)))
  {
    var tr' := Note(tr, unit, Loaded(rows));
    var lhs := Upserted(Merge(tables, tr), unit.dataset, unit.day, rows);
    var rhs := Merge(tables, tr');
    MergeKeys(tables, tr);
    MergeKeys(tables, tr');
    assert lhs.Keys == rhs.Keys;
    forall t | t in lhs ensures lhs[t] == rhs[t] {
      UpsertMergeAt(tables, tr, unit, rows, t);
    }
    SameTables(lhs, rhs);
  }

  /** A trace that loaded nothing leaves the store as it is. */
  lemma MergeNothing(tables: Tables, completed: bool)
    ensures Merge(tables, Trace(completed, map[])) == tables
  {
    var merged := Merge(tables, Trace(completed, map[]));
    forall t | t in merged ensures merged[t] == tables[t] {
      WithoutNothing(tables[t]);
    }
    SameTables(merged, tables);
  }

  /** One unit on a merged store is the merge of the trace one unit on. */
  lemma ApplyMerge(tables: Tables, tr: Trace, unit: WorkUnit, result: UnitResult)
    requires tr.completed
    ensures Apply(Merge(tables, tr), unit, result) ==
      Outcome(Merge(tables, Note(tr, unit, result)), Note(tr, unit, result).completed)
  {
    match result
    case NoData =>
    case ParseFailure =>
      assert Merge(tables, tr.(completed := false)) == Merge(tables, tr);
    case Loaded(rows) =>
      UpsertMerge(tables, tr, unit, rows);
  }

  /** A run leaves every table overlaid with what the run loaded there. */
  lemma {:induction false} RunIsMerge(env: Env, tables: Tables, units: seq<WorkUnit>)
    ensures Run(env, tables, units) ==
      Outcome(Merge(tables, TraceOf(env, units)), TraceOf(env, units).completed)
    decreases |units|
  {
    if units == [] {
      MergeNothing(tables, true);
    } else {
      var init := units[..|units| - 1];
      RunIsMerge(env, tables, init);
      var unit := units[|units| - 1];
      if TraceOf(env, init).completed {
        ApplyMerge(tables, TraceOf(env, init), unit, LoadUnit(env, unit.dataset, unit.day));
      }
    }
  }

  /** Overlaying a store twice with the same well-dated trace is
      overlaying it once. */
  lemma MergeTwice(tables: Tables, tr: Trace)
    requires forall name :: name in tr.loads ==> WellDated(tr.loads[name])
    ensures Merge(Merge(tables, tr), tr) == Merge(tables, tr)
  {
    var once := Merge(tables, tr);
    var twice := Merge(once, tr);
    MergeKeys(tables, tr);
    MergeKeys(once, tr);
    forall t | t in twice ensures twice[t] == once[t] {
      LookupMerge(once, tr, t);
      LookupMerge(tables, tr, t);
      if t in tr.loads {
        OverlayTwice(Lookup(tables, t), tr.loads[t]);
      } else {
        WithoutNothing(once[t]);
      }
    }
    SameTables(twice, once);
  }

  /** Running the same units again with the same API answers leaves the
      store, and the run's verdict, exactly as the first run left them. */
  lemma RerunIdempotent(env: Env, tables: Tables, units: seq<WorkUnit>)
    ensures Run(env, Run(env, tables, units).tables, units) == Run(env, tables, units)
  {
    var tr := TraceOf(env, units);
    RunIsMerge(env, tables, units);
    RunIsMerge(env, Merge(tables, tr), units);
    TraceWellDated(env, units);
    MergeTwice(tables, tr);
  }

  // ---------------------------------------------------------------------
  // The documented scenario

  /** The sample record of the CO2 emission dataset. */
  const SampleRecord: Record := map[
    "Minutes5UTC" := Text("2023-12-20T12:00:00"),
    "Minutes5DK" := Text("2023-12-20T13:00:00"),
    "PriceArea" := Text("DK1"),
    "CO2Emission" := Number(94.0)]

  /** The sample record as stored: dated, its two time stamps parsed. */
  function SampleRow(utc: int, dk: int): Record
  {
    map[
      "Minutes5UTC" := DateTime(utc),
      "Minutes5DK" := DateTime(dk),
      "PriceArea" := Text("DK1"),
      "CO2Emission" := Number(94.0),
      "date" := Text("2023-12-20")]
  }

  lemma SampleDay()
    ensures Format(Date(2023, 12, 20)) == "2023-12-20"
  {
  }

  lemma SampleRetag(parse: Parser, utc: int, dk: int)
    requires parse(Text("2023-12-20T12:00:00")) == Some(Instant(utc)) && parse(Text("2023-12-20T13:00:00")) == Some(Instant(dk))
    ensures FieldsParse(SampleRecord[DateColumn := Text("2023-12-20")], KnownDatetimeFields, parse)
    ensures RetagFields(SampleRecord[DateColumn := Text("2023-12-20")], KnownDatetimeFields, parse) == SampleRow(utc, dk)
  {
    var stamped := SampleRecord[DateColumn := Text("2023-12-20")];
    var r := RetagFields(stamped, KnownDatetimeFields, parse);
    assert r.Keys == SampleRow(utc, dk).Keys;
  }

  lemma SampleEnrich(parse: Parser, utc: int, dk: int)
    requires parse(Text("2023-12-20T12:00:00")) == Some(Instant(utc)) && parse(Text("2023-12-20T13:00:00")) == Some(Instant(dk))
    ensures Enrich([SampleRecord], Date(2023, 12, 20), parse) == Some([SampleRow(utc, dk)])
  {
    SampleDay();
    SampleRetag(parse, utc, dk);
    var stamped := WithColumn([SampleRecord], DateColumn, Text("2023-12-20"));
    assert stamped == [SampleRecord[DateColumn := Text("2023-12-20")]];
    var out := Retagged(stamped, KnownDatetimeFields, parse);
    assert out.value == [SampleRow(utc, dk)];
  }

  /** A run of one unit is that unit's step. */
  lemma RunOne(env: Env, tables: Tables, unit: WorkUnit)
    ensures Run(env, tables, [unit]) == Step(env, tables, unit)
  {
    RunSnoc(env, tables, [], unit);
    assert [] + [unit] == [unit];
  }

  /** Upserting into an empty store creates the one table. */
  lemma UpsertIntoEmpty(name: string, day: Day, rows: Table)
    ensures Upserted(map[], name, day, rows) == map[name := rows]
  {
    assert Lookup(map[], name) == [];
    assert Without([], {Format(day)}) == [];
    assert [] + rows == rows;
  }

  /** An API that answers every request with the sample record. */
  function SampleEnv(parse: Parser): Env
  {
    Env(q => Received(Payload(None, Some([SampleRecord]))), parse)
  }

  lemma SampleUnit(parse: Parser, utc: int, dk: int)
    requires parse(Text("2023-12-20T12:00:00")) == Some(Instant(utc)) && parse(Text("2023-12-20T13:00:00")) == Some(Instant(dk))
    ensures LoadUnit(SampleEnv(parse), "CO2Emis", Date(2023, 12, 20)) == Loaded([SampleRow(utc, dk)])
  {
    SampleEnrich(parse, utc, dk);
    var fetched := FetchDatasetFromApi(SampleEnv(parse).api, "CO2Emis", Date(2023, 12, 20), EtlLimit);
    assert fetched.payload == Payload(None, Some([SampleRecord]));
  }

  /** Loading `CO2Emis` for 2023-12-20 into an empty store, with an API
      that answers with the sample record, creates that one table holding
      one row: the record, dated `2023-12-20`, its two time stamps parsed. */
  lemma SampleLoad(parse: Parser, utc: int, dk: int)
    requires parse(Text("2023-12-20T12:00:00")) == Some(Instant(utc)) && parse(Text("2023-12-20T13:00:00")) == Some(Instant(dk))
    ensures Run(SampleEnv(parse), map[], [WorkUnit("CO2Emis", Date(2023, 12, 20))]) ==
      Outcome(map["CO2Emis" := [SampleRow(utc, dk)]], true)
  {
    var unit := WorkUnit("CO2Emis", Date(2023, 12, 20));
    var env := SampleEnv(parse);
    var rows := [SampleRow(utc, dk)];
    SampleUnit(parse, utc, dk);
    RunOne(env, map[], unit);
    StepLoaded(env, map[], unit, rows);
    UpsertIntoEmpty(unit.dataset, unit.day, rows);
  }

  // ---------------------------------------------------------------------
  // The program

  /** Once `to_data_frame` has produced a frame, the unit's result is
      what `transform` makes of it. */
  lemma LoadFlattened(env: Env, dataset: string, day: Day, table: Table)
    requires ToDataFrame(FetchDatasetFromApi(env.api, dataset, day, EtlLimit).payload) == Some(table)
    ensures Enrich(table, day, env.parse).None? ==> LoadUnit(env, dataset, day) == ParseFailure
    ensures Enrich(table, day, env.parse).Some? ==>
      LoadUnit(env, dataset, day) == Loaded(Enrich(table, day, env.parse).value)
  {
  }

  /** The part of `etl` before the upsert: `get_as_data_frame` with limit
      10000, then `transform` on a fresh frame. */
  method FetchAndTransform(env: Env, dataset: string, day: Day) returns (u: UnitResult)
    ensures u == LoadUnit(env, dataset, day)
  {
    var fetched := FetchDatasetFromApi(env.api, dataset, day, EtlLimit);
    var raw := ToDataFrame(fetched.payload);
    if raw.None? {
      return NoData;
    }
    LoadFlattened(env, dataset, day, raw.value);
    var frame := new Frame(raw.value);
    var ok := frame.Transform(day, env.parse);
    u := if ok then Loaded(frame.rows) else ParseFailure;
  }

  /** `etl(dataset, day, db)`. */
  method Etl(store: Store, env: Env, dataset: string, day: Day) returns (completed: bool)
    modifies store
    ensures Outcome(store.tables, completed) == Step(env, old(store.tables), WorkUnit(dataset, day))
    ensures ToDataFrame(FetchDatasetFromApi(env.api, dataset, day, EtlLimit).payload).None? ==>
      completed && store.tables == old(store.tables)
  {
    var u := FetchAndTransform(env, dataset, day);
    match u
    case NoData =>
      completed := true;
    case ParseFailure =>
      completed := false;
    case Loaded(rows) =>
      store.UpsertIntoSqlite(dataset, day, rows);
      completed := true;
  }

  /** `do_work(db, date_start, date_end, datasets)`: every dataset in the
      given order, each over every day from `dateStart` to `dateEnd`
      inclusive; false when a `transform` raised, which ends the run. */
  method DoWork(store: Store, env: Env, dateStart: Day, dateEnd: Day, datasets: seq<string>)
    returns (completed: bool)
    modifies store
    ensures Outcome(store.tables, completed) ==
      Run(env, old(store.tables), Units(datasets, DateRange(dateStart, dateEnd)))
  {
    var dates := DateRange(dateStart, dateEnd);
    ghost var all := Units(datasets, dates);
    var i := 0;
    while i < |datasets|
      invariant 0 <= i <= |datasets|
      invariant Outcome(store.tables, true) == Run(env, old(store.tables), Units(datasets[..i], dates))
    {
      var j := 0;
      PositionStart(datasets, dates, i);
      while j < |dates|
        invariant 0 <= j <= |dates|
        invariant Outcome(store.tables, true) == Run(env, old(store.tables), Position(datasets, dates, i, j))
      {
        PositionNext(datasets, dates, i, j);
        RunSnoc(env, old(store.tables), Position(datasets, dates, i, j), WorkUnit(datasets[i], dates[j]));
        completed := Etl(store, env, datasets[i], dates[j]);
        if !completed {
          PositionInUnits(datasets, dates, i, j + 1);
          RunStopped(env, old(store.tables), Position(datasets, dates, i, j + 1), all);
          return;
        }
        j := j + 1;
      }
      PositionEnd(datasets, dates, i);
      i := i + 1;
    }
    assert datasets[..i] == datasets;
    return true;
  }
}
