/** The enricher: stamps every row with its day and turns the allow-listed
    columns into date-times, in place on the caller's data frame. Parsing
    a value (`pd.to_datetime`) is the `parse` parameter. */
module Enricher {
  import opened Values
  import opened Calendar

  /** The columns whose values are date-times (`KNOWN_DATETIME_FIELDS`). */
  const KnownDatetimeFields: set<string> := {"Minutes5UTC", "Minutes5DK", "HourUTC", "HourDK"}

  /** What `pd.to_datetime` reads in one text or number: an instant, or
      NaT (as for `""`, `"NaT"` or `"nan"`). */
  datatype Reading = Instant(at: int) | NaT

  /** `pd.to_datetime` on one text or number: its reading, or None where pandas raises. */
  type Parser = Scalar -> Option<Reading>

  /** One value converted to a date-time: null stays null (NaT), a
      date-time stays as it is, anything else goes through the parser,
      whose NaT becomes null. */
  function ToDateTime(v: Scalar, parse: Parser): (r: Option<Scalar>)
    ensures r.Some? ==> r.value.DateTime? || r.value.Null?
    ensures (v.DateTime? || v.Null?) ==> r == Some(v)
    ensures (v.Text? || v.Number?) ==> (r.Some? <==> parse(v).Some?)
    ensures (v.Text? || v.Number?) && r.Some? ==>
      r.value == if parse(v).value.Instant? then DateTime(parse(v).value.at) else Null
  {
    match v
    case Null => Some(Null)
    case DateTime(_) => Some(v)
    case _ =>
      match parse(v)
      case Some(Instant(at)) => Some(DateTime(at))
      case Some(NaT) => Some(Null)
      case None => None
  }

  /** Every value the record holds in one of the columns `cols` converts. */
  predicate FieldsParse(r: Record, cols: set<string>, parse: Parser)
  {
    forall k :: k in r && k in cols ==> ToDateTime(r[k], parse).Some?
  }

  /** The record with its values in `cols` converted. */
  function RetagFields(r: Record, cols: set<string>, parse: Parser): Record
    requires FieldsParse(r, cols, parse)
  {
    map k | k in r :: if k in cols then ToDateTime(r[k], parse).value else r[k]
  }

  /** `pd.to_datetime` applied to the columns `cols` of a frame: it fails
      as a whole when one value fails, and otherwise converts every row. */
  function Retagged(rows: Table, cols: set<string>, parse: Parser): (r: Option<Table>)
    ensures r.Some? <==> forall i :: 0 <= i < |rows| ==> FieldsParse(rows[i], cols, parse)
    ensures r.Some? ==> |r.value| == |rows|
    ensures r.Some? ==> forall i :: 0 <= i < |rows| ==> r.value[i] == RetagFields(rows[i], cols, parse)
  {
    if rows == [] then Some([])
    else if !FieldsParse(rows[0], cols, parse) then None
    else
      assert forall j :: 0 <= j < |rows| - 1 ==> rows[1..][j] == rows[j + 1];
      match Retagged(rows[1..], cols, parse)
      case None => None
      case Some(rest) => Some([RetagFields(rows[0], cols, parse)] + rest)
  }

  /** `df[name] = v` for a scalar `v`: every row gets the same value. */
  function WithColumn(rows: Table, name: string, v: Scalar): Table
  {
    seq(|rows|, i requires 0 <= i < |rows| => rows[i][name := v])
  }

  /** What `transform(df, day)` makes of a frame, or None where pandas raises. */
  function Enrich(table: Table, day: Day, parse: Parser): (r: Option<Table>)
    ensures r.Some? ==> |r.value| == |table|
    ensures r.Some? ==> forall i :: 0 <= i < |table| ==> DatedIn(r.value[i], {Format(day)})
  {
    assert DateColumn !in KnownDatetimeFields;
    Retagged(WithColumn(table, DateColumn, Text(Format(day))), KnownDatetimeFields, parse)
  }

  /** Converting one more column after some others is converting them all at once. */
  lemma RetaggedOneMore(rows: Table, done: set<string>, c: string, parse: Parser)
    requires c !in done
    requires Retagged(rows, done, parse).Some?
    ensures Retagged(Retagged(rows, done, parse).value, {c}, parse) == Retagged(rows, done + {c}, parse)
  {
    var mid := Retagged(rows, done, parse).value;
    forall i | 0 <= i < |rows|
      ensures FieldsParse(mid[i], {c}, parse) <==> FieldsParse(rows[i], done + {c}, parse)
      ensures FieldsParse(mid[i], {c}, parse) ==>
        RetagFields(mid[i], {c}, parse) == RetagFields(rows[i], done + {c}, parse)
    {
      assert mid[i] == RetagFields(rows[i], done, parse);
      if c in rows[i] {
        assert mid[i][c] == rows[i][c];
      }
    }
    var lhs := Retagged(mid, {c}, parse);
    var rhs := Retagged(rows, done + {c}, parse);
    if lhs.Some? {
      assert rhs.Some?;
      assert lhs.value == rhs.value;
    } else {
      var i :| 0 <= i < |mid| && !FieldsParse(mid[i], {c}, parse);
      assert !FieldsParse(rows[i], done + {c}, parse);
    }
  }

  /** Converting no column changes nothing. */
  lemma RetaggedNothing(rows: Table, parse: Parser)
    ensures Retagged(rows, {}, parse) == Some(rows)
  {
    assert forall i :: 0 <= i < |rows| ==> FieldsParse(rows[i], {}, parse);
    var r := Retagged(rows, {}, parse).value;
    forall i | 0 <= i < |rows| ensures r[i] == rows[i] {
      assert RetagFields(rows[i], {}, parse) == rows[i];
    }
    assert r == rows;
  }

  /** Once conversion fails on some columns, it fails on any wider set. */
  lemma RetaggedFailureSpreads(rows: Table, cols: set<string>, wider: set<string>, parse: Parser)
    requires cols <= wider
    requires Retagged(rows, cols, parse).None?
    ensures Retagged(rows, wider, parse).None?
  {
    var i :| 0 <= i < |rows| && !FieldsParse(rows[i], cols, parse);
    assert !FieldsParse(rows[i], wider, parse);
  }

  /** Only the columns the frame has matter. */
  lemma RetaggedOnlyPresentColumns(rows: Table, a: set<string>, b: set<string>, parse: Parser)
    requires a * ColumnsOf(rows) == b * ColumnsOf(rows)
    ensures Retagged(rows, a, parse) == Retagged(rows, b, parse)
  {
    ColumnsOfCovers(rows);
    forall i | 0 <= i < |rows|
      ensures FieldsParse(rows[i], a, parse) <==> FieldsParse(rows[i], b, parse)
      ensures FieldsParse(rows[i], a, parse) ==>
        RetagFields(rows[i], a, parse) == RetagFields(rows[i], b, parse)
    {
      forall k | k in rows[i] ensures k in a <==> k in b {
        assert k in ColumnsOf(rows);
        assert k in a <==> k in a * ColumnsOf(rows);
      }
    }
    var ra, rb := Retagged(rows, a, parse), Retagged(rows, b, parse);
    if ra.Some? {
      assert rb.Some?;
      assert ra.value == rb.value;
    }
  }

  /** `transform(df, day)` succeeds exactly when every allow-listed value
      of the frame parses; the `date` column it adds is never converted. */
  lemma EnrichDefined(table: Table, day: Day, parse: Parser)
    ensures Enrich(table, day, parse).Some? <==>
      forall i, k :: 0 <= i < |table| && k in table[i] && k in KnownDatetimeFields ==>
        ToDateTime(table[i][k], parse).Some?
  {
    assert DateColumn !in KnownDatetimeFields;
    var stamped := WithColumn(table, DateColumn, Text(Format(day)));
    forall i | 0 <= i < |table|
      ensures FieldsParse(stamped[i], KnownDatetimeFields, parse) <==>
        forall k :: k in table[i] && k in KnownDatetimeFields ==> ToDateTime(table[i][k], parse).Some?
    {
      assert stamped[i] == table[i][DateColumn := Text(Format(day))];
    }
  }

  /** After `transform(df, day)`: the frame keeps its row count and order,
      every row gains `date` set to the day's `YYYY-MM-DD`, the
      allow-listed columns hold date-times (or nulls), and every other
      column keeps its values. */
  lemma EnrichRows(table: Table, day: Day, parse: Parser)
    requires Enrich(table, day, parse).Some?
    ensures var out := Enrich(table, day, parse).value;
      && |out| == |table|
      && forall i :: 0 <= i < |table| ==>
           && out[i].Keys == table[i].Keys + {DateColumn}
           && out[i][DateColumn] == Text(Format(day))
           && (forall k :: k in table[i] && k != DateColumn && k !in KnownDatetimeFields ==>
                 out[i][k] == table[i][k])
           && (forall k :: k in out[i] && k in KnownDatetimeFields ==>
                 out[i][k].DateTime? || out[i][k].Null?)
           && (forall k :: k in table[i] && k in KnownDatetimeFields ==>
                 Some(out[i][k]) == ToDateTime(table[i][k], parse))
  {
    assert DateColumn !in KnownDatetimeFields;
    var stamped := WithColumn(table, DateColumn, Text(Format(day)));
    var out := Enrich(table, day, parse).value;
    forall i | 0 <= i < |table|
      ensures out[i] == RetagFields(stamped[i], KnownDatetimeFields, parse)
      ensures stamped[i] == table[i][DateColumn := Text(Format(day))]
    {
    }
  }

  /** Every row `transform(df, day)` returns is dated on that day. */
  lemma EnrichDated(table: Table, day: Day, parse: Parser)
    requires Enrich(table, day, parse).Some?
    ensures AllDated(Enrich(table, day, parse).value, Format(day))
  {
    var out := Enrich(table, day, parse).value;
    EnrichRows(table, day, parse);
    forall r | r in out ensures DatedIn(r, {Format(day)}) {
      var i :| 0 <= i < |out| && out[i] == r;
    }
  }

  /** The frame `rows` is the original with its allow-listed columns
      converted, except those still `pending`. */
  ghost predicate ConvertedExcept(original: Table, pending: set<string>, rows: Table, parse: Parser)
  {
    Retagged(original, (ColumnsOf(original) - pending) * KnownDatetimeFields, parse) == Some(rows)
  }

  /** Before the column loop nothing is converted. */
  lemma ConvertedNothing(rows: Table, parse: Parser)
    ensures ConvertedExcept(rows, ColumnsOf(rows), rows, parse)
  {
    assert (ColumnsOf(rows) - ColumnsOf(rows)) * KnownDatetimeFields == {};
    RetaggedNothing(rows, parse);
  }

  /** After the column loop every allow-listed column is converted. */
  lemma ConvertedEverything(original: Table, rows: Table, parse: Parser)
    requires ConvertedExcept(original, {}, rows, parse)
    ensures Retagged(original, KnownDatetimeFields, parse) == Some(rows)
  {
    assert ColumnsOf(original) - {} == ColumnsOf(original);
    RetaggedOnlyPresentColumns(original, ColumnsOf(original) * KnownDatetimeFields, KnownDatetimeFields, parse);
  }

  /** One turn of the column loop: converting pending column `c` of the
      frame converted so far continues the conversion, and a failure there
      is a failure of the whole allow-list. */
  lemma ConvertColumnStep(original: Table, pending: set<string>, rows: Table, c: string, parse: Parser)
    requires c in pending
    requires ConvertedExcept(original, pending, rows, parse)
    ensures c !in KnownDatetimeFields ==> ConvertedExcept(original, pending - {c}, rows, parse)
    ensures c in KnownDatetimeFields && Retagged(rows, {c}, parse).Some? ==>
      ConvertedExcept(original, pending - {c}, Retagged(rows, {c}, parse).value, parse)
    ensures c in KnownDatetimeFields && Retagged(rows, {c}, parse).None? ==>
      Retagged(original, KnownDatetimeFields, parse).None?
  {
    var known, all := KnownDatetimeFields, ColumnsOf(original);
    var done := (all - pending) * known;
    var next := (all - (pending - {c})) * known;
    if c in known && c in all {
      assert next == done + {c};
      RetaggedOneMore(original, done, c, parse);
      if Retagged(rows, {c}, parse).None? {
        RetaggedFailureSpreads(original, next, known, parse);
      }
    } else if c in known {
      assert next == done;
      ColumnsOfCovers(original);
      RetaggedOnlyPresentColumns(original, done + {c}, done, parse);
      RetaggedOneMore(original, done, c, parse);
    } else {
      assert next == done;
    }
  }

  /** A pandas data frame, changed in place by the enricher. */
  class Frame {
    var rows: Table

    constructor (records: Table)
      ensures rows == records
    {
      rows := records;
    }

    /** `df[c] = pd.to_datetime(df[c])`: false where pandas raises. */
    method ConvertColumn(c: string, parse: Parser) returns (ok: bool)
      modifies this
      ensures ok <==> Retagged(old(rows), {c}, parse).Some?
      ensures ok ==> rows == Retagged(old(rows), {c}, parse).value
      ensures !ok ==> rows == old(rows)
    {
      var converted := Retagged(rows, {c}, parse);
      ok := converted.Some?;
      if ok {
        rows := converted.value;
      }
    }

    /** `convert_known_datetime_fields(df)`: for each of the frame's
        columns, in whatever order the frame lists them, an allow-listed
        one is replaced by its conversion; false where pandas raises. */
    method ConvertKnownDatetimeFields(parse: Parser) returns (ok: bool)
      modifies this
      ensures ok <==> Retagged(old(rows), KnownDatetimeFields, parse).Some?
      ensures ok ==> rows == Retagged(old(rows), KnownDatetimeFields, parse).value
      ensures !ok ==> exists done :: done <= KnownDatetimeFields && Retagged(old(rows), done, parse) == Some(rows)
    {
      ghost var original := rows;
      var columns := ColumnsOf(rows);
      ConvertedNothing(rows, parse);
      while columns != {}
        invariant ConvertedExcept(original, columns, rows, parse)
        decreases |columns|
      {
        var c :| c in columns;
        ConvertColumnStep(original, columns, rows, c, parse);
        if c in KnownDatetimeFields {
          ok := ConvertColumn(c, parse);
          if !ok {
            assert (ColumnsOf(original) - columns) * KnownDatetimeFields <= KnownDatetimeFields;
            return;
          }
        }
        columns := columns - {c};
      }
      ConvertedEverything(original, rows, parse);
      return true;
    }

    /** `transform(df, day)`: adds the `date` column to this very frame,
        then converts the allow-listed columns; false where pandas raises. */
    method Transform(day: Day, parse: Parser) returns (ok: bool)
      modifies this
      ensures ok <==> Enrich(old(rows), day, parse).Some?
      ensures ok ==> rows == Enrich(old(rows), day, parse).value
      ensures !ok ==> exists done ::
        done <= KnownDatetimeFields && Retagged(WithColumn(old(rows), DateColumn, Text(Format(day))), done, parse) == Some(rows)
    {
      rows := WithColumn(rows, DateColumn, Text(Format(day)));
      ok := ConvertKnownDatetimeFields(parse);
    }
  }
}
