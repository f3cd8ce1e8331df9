/** Values the loader moves around: the tagged scalars of a record, records and tables. */
module Values {

  datatype Option<+T> = None | Some(value: T)

  /** A field value as it arrives from the API's JSON or leaves pandas:
      a string, a number (treated as an opaque value), a parsed date-time
      (an instant, opaque) or JSON null. */
  datatype Scalar = Text(s: string) | Number(n: real) | DateTime(instant: int) | Null

  /** One record / one row: field name to value. A field that is absent
      stands for pandas' missing value, which the store writes as NULL. */
  type Record = map<string, Scalar>

  /** An in-memory table (a data frame): its rows in order. */
  type Table = seq<Record>

  /** The partition column the enricher adds and the store writer deletes by. */
  const DateColumn: string := "date"

  /** The row's `date` column holds one of the given day strings. A row
      without that column, or holding a non-text value, matches no key,
      as `date = '...'` never holds of NULL in SQL. */
  predicate DatedIn(r: Record, keys: set<string>)
  {
    DateColumn in r && r[DateColumn].Text? && r[DateColumn].s in keys
  }

  /** Every row carries the given day string in its `date` column. */
  predicate AllDated(rows: Table, key: string)
  {
    forall r :: r in rows ==> DatedIn(r, {key})
  }

  /** The columns of a data frame: every field name some row carries. */
  function ColumnsOf(rows: Table): set<string>
  {
    if rows == [] then {} else rows[0].Keys + ColumnsOf(rows[1..])
  }

  lemma {:induction false} ColumnsOfCovers(rows: Table)
    ensures forall i, k :: 0 <= i < |rows| && k in rows[i] ==> k in ColumnsOf(rows)
  {
    if rows != [] {
      ColumnsOfCovers(rows[1..]);
      assert forall i :: 1 <= i < |rows| ==> rows[i] == rows[1..][i - 1];
    }
  }
}
