/** Calendar days of the proleptic Gregorian calendar: the successor day
    that closes the query window, the `YYYY-MM-DD` rendering of a day
    (the `full-date` of RFC 3339, section 5.6) and its inverse, and the
    inclusive daily range the driver walks through. */
module Calendar {
  import opened Values

  datatype Date = Date(year: int, month: int, day: int)

  predicate IsLeapYear(y: int)
  {
    y % 4 == 0 && (y % 100 != 0 || y % 400 == 0)
  }

  function DaysInMonth(y: int, m: int): (n: int)
    requires 1 <= m <= 12
    ensures 28 <= n <= 31
    ensures m == 2 ==> (n == 29 <==> IsLeapYear(y))
  {
    if m == 2 then (if IsLeapYear(y) then 29 else 28)
    else if m == 4 || m == 6 || m == 9 || m == 11 then 30
    else 31
  }

  predicate ValidDate(d: Date)
  {
    1 <= d.year && 1 <= d.month <= 12 && 1 <= d.day <= DaysInMonth(d.year, d.month)
  }

  /** A valid calendar day. */
  type Day = d: Date | ValidDate(d) witness Date(1970, 1, 1)

  function YearLength(y: int): int
  {
    if IsLeapYear(y) then 366 else 365
  }

  function DaysBeforeYear(y: int): nat
    requires 1 <= y
  {
    if y == 1 then 0 else DaysBeforeYear(y - 1) + YearLength(y - 1)
  }

  function DaysBeforeMonth(y: int, m: int): nat
    requires 1 <= m <= 12
  {
    if m == 1 then 0 else DaysBeforeMonth(y, m - 1) + DaysInMonth(y, m - 1)
  }

  /** The day's ordinal, counting 0001-01-01 as day 1 (the numbering of
      Python's `date.toordinal`). */
  function DayNumber(d: Day): int
  {
    DaysBeforeYear(d.year) + DaysBeforeMonth(d.year, d.month) + d.day
  }

  /** `day + timedelta(days=1)`: the next day, rolling over month and year ends. */
  function NextDay(d: Day): (n: Day)
    ensures n.day == 1 <==> d.day == DaysInMonth(d.year, d.month)
    ensures n.day != 1 ==> n.year == d.year && n.month == d.month && n.day == d.day + 1
    ensures n.year != d.year <==> d.month == 12 && d.day == 31
    ensures n.year != d.year ==> n == Date(d.year + 1, 1, 1)
  {
    if d.day < DaysInMonth(d.year, d.month) then Date(d.year, d.month, d.day + 1)
    else if d.month < 12 then Date(d.year, d.month + 1, 1)
    else Date(d.year + 1, 1, 1)
  }

  lemma DaysBeforeDecember(y: int)
    ensures DaysBeforeMonth(y, 12) + 31 == YearLength(y)
  {
    var feb := DaysInMonth(y, 2);
    assert DaysBeforeMonth(y, 2) == 31;
    assert DaysBeforeMonth(y, 3) == 31 + feb;
    assert DaysBeforeMonth(y, 4) == 62 + feb;
    assert DaysBeforeMonth(y, 5) == 92 + feb;
    assert DaysBeforeMonth(y, 6) == 123 + feb;
    assert DaysBeforeMonth(y, 7) == 153 + feb;
    assert DaysBeforeMonth(y, 8) == 184 + feb;
    assert DaysBeforeMonth(y, 9) == 215 + feb;
    assert DaysBeforeMonth(y, 10) == 245 + feb;
    assert DaysBeforeMonth(y, 11) == 276 + feb;
  }

  /** NextDay is the Gregorian successor: its ordinal is one more. */
  lemma NextDayIsSuccessor(d: Day)
    ensures DayNumber(NextDay(d)) == DayNumber(d) + 1
  {
    if d.day < DaysInMonth(d.year, d.month) {
      assert NextDay(d) == Date(d.year, d.month, d.day + 1);
    } else if d.month < 12 {
      assert NextDay(d) == Date(d.year, d.month + 1, 1);
    } else {
      assert NextDay(d) == Date(d.year + 1, 1, 1);
      DaysBeforeDecember(d.year);
    }
  }

  lemma {:induction false} DaysBeforeYearGrows(y: int, z: int)
    requires 1 <= y < z
    ensures DaysBeforeYear(y) + YearLength(y) <= DaysBeforeYear(z)
    decreases z - y
  {
    if y + 1 < z {
      DaysBeforeYearGrows(y, z - 1);
    }
  }

  lemma {:induction false} DaysBeforeMonthGrows(y: int, m: int, n: int)
    requires 1 <= m < n <= 12
    ensures DaysBeforeMonth(y, m) + DaysInMonth(y, m) <= DaysBeforeMonth(y, n)
    decreases n - m
  {
    if m + 1 < n {
      DaysBeforeMonthGrows(y, m, n - 1);
    }
  }

  /** Distinct days have distinct ordinals. */
  lemma DayNumberInjective(a: Day, b: Day)
    requires DayNumber(a) == DayNumber(b)
    ensures a == b
  {
    DaysBeforeDecember(a.year);
    DaysBeforeDecember(b.year);
    if a.year < b.year {
      DaysBeforeYearGrows(a.year, b.year);
      if a.month < 12 { DaysBeforeMonthGrows(a.year, a.month, 12); }
      assert false;
    } else if b.year < a.year {
      DaysBeforeYearGrows(b.year, a.year);
      if b.month < 12 { DaysBeforeMonthGrows(b.year, b.month, 12); }
      assert false;
    } else if a.month < b.month {
      DaysBeforeMonthGrows(a.year, a.month, b.month);
      assert false;
    } else if b.month < a.month {
      DaysBeforeMonthGrows(a.year, b.month, a.month);
      assert false;
    }
  }

  // ---------------------------------------------------------------------
  // `strftime("%Y-%m-%d")` and its inverse

  predicate IsDigit(c: char)
  {
    '0' <= c <= '9'
  }

  predicate AllDigits(s: string)
  {
    forall i :: 0 <= i < |s| ==> IsDigit(s[i])
  }

  function DigitChar(n: nat): (c: char)
    requires n < 10
    ensures IsDigit(c)
  {
    ('0' as int + n) as char
  }

  /** The decimal digits of `n`, most significant first, without leading zeros. */
  function Digits(n: nat): (s: string)
    ensures |s| >= 1 && AllDigits(s)
    ensures n < 10 ==> |s| == 1
    ensures n < 100 ==> |s| <= 2
    ensures n < 10000 ==> |s| <= 4
  {
    if n < 10 then [DigitChar(n)] else Digits(n / 10) + [DigitChar(n % 10)]
  }

  /** Left-pads with zeros to at least `width` characters. */
  function PadLeft(s: string, width: nat): (r: string)
    requires AllDigits(s)
    ensures AllDigits(r)
    ensures |r| == if |s| >= width then |s| else width
    decreases width - |s|
  {
    if |s| >= width then s else PadLeft(['0'] + s, width)
  }

  /** The value of a string of decimal digits. */
  function DigitsValue(s: string): nat
    requires AllDigits(s)
  {
    if s == [] then 0 else DigitsValue(s[..|s| - 1]) * 10 + (s[|s| - 1] as int - '0' as int)
  }

  lemma {:induction false} DigitsValueOfDigits(n: nat)
    ensures DigitsValue(Digits(n)) == n
  {
    if n >= 10 {
      DigitsValueOfDigits(n / 10);
      var s := Digits(n);
      assert s[..|s| - 1] == Digits(n / 10);
    }
  }

  lemma {:induction false} LeadingZero(s: string)
    requires AllDigits(s)
    ensures DigitsValue(['0'] + s) == DigitsValue(s)
    decreases |s|
  {
    if s != [] {
      LeadingZero(s[..|s| - 1]);
      assert (['0'] + s)[..|s|] == ['0'] + s[..|s| - 1];
    }
  }

  lemma {:induction false} PadLeftValue(s: string, width: nat)
    requires AllDigits(s)
    ensures DigitsValue(PadLeft(s, width)) == DigitsValue(s)
    decreases width - |s|
  {
    if |s| < width {
      LeadingZero(s);
      PadLeftValue(['0'] + s, width);
    }
  }

  /** The day as `YYYY-MM-DD`; the year takes four digits, or more once it exceeds 9999. */
  function Format(d: Day): (s: string)
    ensures |s| >= 10
    ensures s[|s| - 6] == '-' && s[|s| - 3] == '-'
    ensures d.year <= 9999 ==> |s| == 10 && s[4] == '-' && s[7] == '-'
  {
    PadLeft(Digits(d.year), 4) + ("-" + PadLeft(Digits(d.month), 2) + "-" + PadLeft(Digits(d.day), 2))
  }

  /** Reads a `YYYY-MM-DD` string (a year of four or more digits) back into a day. */
  function ParseDay(s: string): Option<Day>
  {
    if |s| < 10 || s[|s| - 6] != '-' || s[|s| - 3] != '-' then None
    else DayOfFields(s[..|s| - 6], s[|s| - 5..|s| - 3], s[|s| - 2..])
  }

  function DayOfFields(ys: string, ms: string, ds: string): Option<Day>
  {
    if !(AllDigits(ys) && AllDigits(ms) && AllDigits(ds)) then None
    else
      var date := Date(DigitsValue(ys), DigitsValue(ms), DigitsValue(ds));
      if ValidDate(date) then Some(date) else None
  }

  /** Reading `y-m-d` back splits it at the last two dashes. */
  lemma ParseParts(y: string, m: string, dd: string)
    requires |y| >= 4 && |m| == 2 && |dd| == 2
    ensures ParseDay(y + ("-" + m + "-" + dd)) == DayOfFields(y, m, dd)
  {
    var tail := "-" + m + "-" + dd;
    var s := y + tail;
    assert |tail| == 6 && tail[0] == '-' && tail[3] == '-';
    assert tail[1..3] == m && tail[4..] == dd;
    assert s[..|s| - 6] == y;
    assert s[|s| - 5..|s| - 3] == m;
    assert s[|s| - 2..] == dd;
  }

  /** Formatting a day and reading it back gives the day again. */
  lemma FormatRoundTrip(d: Day)
    ensures ParseDay(Format(d)) == Some(d)
  {
    PadLeftValue(Digits(d.year), 4);
    PadLeftValue(Digits(d.month), 2);
    PadLeftValue(Digits(d.day), 2);
    DigitsValueOfDigits(d.year);
    DigitsValueOfDigits(d.month);
    DigitsValueOfDigits(d.day);
    ParseParts(PadLeft(Digits(d.year), 4), PadLeft(Digits(d.month), 2), PadLeft(Digits(d.day), 2));
  }

  /** Distinct days never share a `date` string. */
  lemma FormatInjective(a: Day, b: Day)
    requires Format(a) == Format(b)
    ensures a == b
  {
    FormatRoundTrip(a);
    FormatRoundTrip(b);
  }

  // ---------------------------------------------------------------------
  // `pd.date_range(start, end)`: the inclusive daily range

  function DateRange(start: Day, end: Day): (r: seq<Day>)
    ensures r == [] <==> DayNumber(start) > DayNumber(end)
    ensures r != [] ==> r[0] == start
    decreases DayNumber(end) - DayNumber(start)
  {
    if DayNumber(start) > DayNumber(end) then []
    else
      NextDayIsSuccessor(start);
      [start] + DateRange(NextDay(start), end)
  }

  /** The range holds every day from `start` to `end`, each once, in
      ascending order, each the successor of the one before. */
  lemma {:induction false} DateRangeSpec(start: Day, end: Day)
    ensures |DateRange(start, end)| == if DayNumber(start) <= DayNumber(end) then DayNumber(end) - DayNumber(start) + 1 else 0
    ensures forall i :: 0 <= i < |DateRange(start, end)| ==> DayNumber(DateRange(start, end)[i]) == DayNumber(start) + i
    ensures forall i :: 0 < i < |DateRange(start, end)| ==> DateRange(start, end)[i] == NextDay(DateRange(start, end)[i - 1])
    decreases DayNumber(end) - DayNumber(start)
  {
    if DayNumber(start) <= DayNumber(end) {
      NextDayIsSuccessor(start);
      DateRangeSpec(NextDay(start), end);
      var r := DateRange(start, end);
      assert r[1..] == DateRange(NextDay(start), end);
      forall i | 0 < i < |r| ensures r[i] == NextDay(r[i - 1]) {
        assert r[i] == r[1..][i - 1];
        if i > 1 { assert r[i - 1] == r[1..][i - 2]; }
      }
    }
  }

  /** A day lies in the range exactly when it lies between its ends. */
  lemma DateRangeMembers(start: Day, end: Day, d: Day)
    ensures d in DateRange(start, end) <==> DayNumber(start) <= DayNumber(d) <= DayNumber(end)
  {
    DateRangeSpec(start, end);
    var r := DateRange(start, end);
    if DayNumber(start) <= DayNumber(d) <= DayNumber(end) {
      var i := DayNumber(d) - DayNumber(start);
      DayNumberInjective(r[i], d);
    }
  }
}
