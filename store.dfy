/** The store writer: the SQLite file seen as a map from table name to its
    rows, and the delete-then-append "upsert by day". */
module StoreWriter {
  import opened Values
  import opened Calendar

  type Tables = map<string, Table>

  /** The rows of a table, or none when it does not exist. */
  function Lookup(tables: Tables, name: string): Table
  {
    if name in tables then tables[name] else []
  }

  /** `DELETE ... WHERE date IN keys`: the rows not dated on one of the
      keys, in their original order. */
  function Without(rows: Table, keys: set<string>): (r: Table)
    ensures |r| <= |rows|
  {
    if rows == [] then []
    else (if DatedIn(rows[0], keys) then [] else [rows[0]]) + Without(rows[1..], keys)
  }

  /** The rows dated on one of the keys, in their original order. */
  function Only(rows: Table, keys: set<string>): Table
  {
    if rows == [] then []
    else (if DatedIn(rows[0], keys) then [rows[0]] else []) + Only(rows[1..], keys)
  }

  /** `SELECT ... WHERE date = key`: the rows dated on the key, in order. */
  function OnDay(rows: Table, key: string): Table
  {
    Only(rows, {key})
  }

  /** The store after `upsert_into_sqlite(db, name, day, rows)`. */
  function Upserted(tables: Tables, name: string, day: Day, rows: Table): (r: Tables)
    ensures r.Keys == tables.Keys + {name}
    ensures |rows| <= |r[name]| <= |Lookup(tables, name)| + |rows|
    ensures r[name][|r[name]| - |rows|..] == rows
  {
    tables[name := Without(Lookup(tables, name), {Format(day)}) + rows]
  }

  // ---------------------------------------------------------------------
  // The algebra of the two filters

  /** The delete keeps exactly the rows not dated on a key. */
  lemma {:induction false} WithoutMembers(rows: Table, keys: set<string>)
    ensures forall x :: x in Without(rows, keys) <==> x in rows && !DatedIn(x, keys)
  {
    if rows != [] {
      WithoutMembers(rows[1..], keys);
      assert rows == [rows[0]] + rows[1..];
    }
  }

  lemma {:induction false} WithoutAppend(a: Table, b: Table, keys: set<string>)
    ensures Without(a + b, keys) == Without(a, keys) + Without(b, keys)
  {
    if a != [] {
      WithoutAppend(a[1..], b, keys);
      var head := if DatedIn(a[0], keys) then [] else [a[0]];
      assert (a + b)[0] == a[0] && (a + b)[1..] == a[1..] + b;
      assert Without(a + b, keys) == head + Without(a[1..] + b, keys);
      assert head + (Without(a[1..], keys) + Without(b, keys)) == (head + Without(a[1..], keys)) + Without(b, keys);
    } else {
      assert a + b == b;
    }
  }

  lemma {:induction false} WithoutTwice(rows: Table, keys: set<string>, more: set<string>)
    ensures Without(Without(rows, keys), more) == Without(rows, keys + more)
  {
    if rows != [] {
      WithoutTwice(rows[1..], keys, more);
      var head := if DatedIn(rows[0], keys) then [] else [rows[0]];
      WithoutAppend(head, Without(rows[1..], keys), more);
    }
  }

  lemma {:induction false} WithoutAllDated(rows: Table, keys: set<string>)
    requires forall x :: x in rows ==> DatedIn(x, keys)
    ensures Without(rows, keys) == []
  {
    if rows != [] {
      WithoutAllDated(rows[1..], keys);
    }
  }

  lemma {:induction false} OnlyAppend(a: Table, b: Table, keys: set<string>)
    ensures Only(a + b, keys) == Only(a, keys) + Only(b, keys)
  {
    if a != [] {
      OnlyAppend(a[1..], b, keys);
      var head := if DatedIn(a[0], keys) then [a[0]] else [];
      assert (a + b)[0] == a[0] && (a + b)[1..] == a[1..] + b;
      assert Only(a + b, keys) == head + Only(a[1..] + b, keys);
      assert head + (Only(a[1..], keys) + Only(b, keys)) == (head + Only(a[1..], keys)) + Only(b, keys);
    } else {
      assert a + b == b;
    }
  }

  lemma OnDayAppend(a: Table, b: Table, key: string)
    ensures OnDay(a + b, key) == OnDay(a, key) + OnDay(b, key)
  {
    OnlyAppend(a, b, {key});
  }

  /** Deleting one day does not touch what any other day selects. */
  lemma {:induction false} OnDayWithout(rows: Table, deleted: string, key: string)
    ensures OnDay(Without(rows, {deleted}), key) == if key == deleted then [] else OnDay(rows, key)
  {
    if rows != [] {
      OnDayWithout(rows[1..], deleted, key);
      var head := if DatedIn(rows[0], {deleted}) then [] else [rows[0]];
      OnDayAppend(head, Without(rows[1..], {deleted}), key);
    }
  }

  lemma {:induction false} OnDayAllDated(rows: Table, day: string, key: string)
    requires AllDated(rows, day)
    ensures OnDay(rows, key) == if key == day then rows else []
  {
    if rows != [] {
      assert rows[0] in rows && DatedIn(rows[0], {day});
      assert forall r :: r in rows[1..] ==> r in rows;
      OnDayAllDated(rows[1..], day, key);
    }
  }

  // ---------------------------------------------------------------------
  // What one upsert does

  /** The upserted table is its old rows of other days, in order, followed
      by the new rows (just the new rows if it did not exist); every other
      table is left exactly as it was. */
  lemma UpsertedTables(tables: Tables, name: string, day: Day, rows: Table)
    ensures var after := Upserted(tables, name, day, rows);
      && after.Keys == tables.Keys + {name}
      && after[name][|after[name]| - |rows|..] == rows
      && (forall x :: x in after[name][..|after[name]| - |rows|] <==>
            x in Lookup(tables, name) && !DatedIn(x, {Format(day)}))
      && (forall other :: other in tables && other != name ==> after[other] == tables[other])
  {
    var after := Upserted(tables, name, day, rows);
    assert after[name][..|after[name]| - |rows|] == Without(Lookup(tables, name), {Format(day)});
    WithoutMembers(Lookup(tables, name), {Format(day)});
  }

  /** The day's partition is replaced wholesale: afterwards the table
      holds, for that day, exactly the new rows. */
  lemma UpsertReplacesDay(tables: Tables, name: string, day: Day, rows: Table)
    requires AllDated(rows, Format(day))
    ensures OnDay(Upserted(tables, name, day, rows)[name], Format(day)) == rows
  {
    var key := Format(day);
    OnDayAppend(Without(Lookup(tables, name), {key}), rows, key);
    OnDayWithout(Lookup(tables, name), key, key);
    OnDayAllDated(rows, key, key);
  }

  /** Cross-day independence: an upsert for one day leaves the rows of
      every other day of the same table exactly as they were. */
  lemma UpsertKeepsOtherDays(tables: Tables, name: string, day: Day, rows: Table, key: string)
    requires AllDated(rows, Format(day))
    requires key != Format(day)
    ensures OnDay(Upserted(tables, name, day, rows)[name], key) == OnDay(Lookup(tables, name), key)
  {
    OnDayAppend(Without(Lookup(tables, name), {Format(day)}), rows, key);
    OnDayWithout(Lookup(tables, name), Format(day), key);
    OnDayAllDated(rows, Format(day), key);
  }

  /** Replacing a day's rows by rows of that day a second time changes nothing. */
  lemma ReplaceDayTwice(rows: Table, key: string, added: Table)
    requires AllDated(added, key)
    ensures Without(Without(rows, {key}) + added, {key}) + added == Without(rows, {key}) + added
  {
    WithoutAppend(Without(rows, {key}), added, {key});
    WithoutTwice(rows, {key}, {key});
    assert {key} + {key} == {key};
    WithoutAllDated(added, {key});
  }

  /** Idempotence: loading the same day's rows a second time leaves the
      store as the first load left it. */
  lemma UpsertIdempotent(tables: Tables, name: string, day: Day, rows: Table)
    requires AllDated(rows, Format(day))
    ensures Upserted(Upserted(tables, name, day, rows), name, day, rows) == Upserted(tables, name, day, rows)
  {
    var once := Upserted(tables, name, day, rows);
    assert Lookup(once, name) == Without(Lookup(tables, name), {Format(day)}) + rows;
    ReplaceDayTwice(Lookup(tables, name), Format(day), rows);
    assert once[name := once[name]] == once;
  }

  // ---------------------------------------------------------------------
  // The SQLite file

  /** The relational store: one table of rows per dataset name. */
  class Store {
    var tables: Tables

    constructor (initial: Tables)
      ensures tables == initial
    {
      tables := initial;
    }

    /** `delete_if_day_exits`: if the table exists, delete its rows of that day. */
    method DeleteIfDayExists(name: string, day: Day)
      modifies this
      ensures name in old(tables) ==>
        tables == old(tables)[name := Without(old(tables)[name], {Format(day)})]
      ensures name !in old(tables) ==> tables == old(tables)
    {
      if name in tables {
        tables := tables[name := Without(tables[name], {Format(day)})];
      }
    }

    /** `df.to_sql(name, if_exists="append")`: append the rows, creating
        the table if it does not exist. */
    method Append(name: string, rows: Table)
      modifies this
      ensures tables == old(tables)[name := Lookup(old(tables), name) + rows]
    {
      tables := tables[name := Lookup(tables, name) + rows];
    }

    /** `upsert_into_sqlite`: delete the day's rows, then append the new ones. */
    method UpsertIntoSqlite(name: string, day: Day, rows: Table)
      modifies this
      ensures tables == Upserted(old(tables), name, day, rows)
    {
      DeleteIfDayExists(name, day);
      Append(name, rows);
    }
  }
}
