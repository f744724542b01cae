/** Calendar dates as Python's `datetime.date` handles them: the proleptic
    Gregorian calendar for years 1 to 9999, `date.fromisoformat` on the
    strict `YYYY-MM-DD` form, `isoformat()`, subtracting whole days, the day
    number of `toordinal()` and the English weekday name of `%A`. */
module Dates {
  import opened Prelude
  import opened PyStr

  datatype Date = Date(year: int, month: int, day: int)

  predicate IsLeap(y: int)
  {
    y % 4 == 0 && (y % 100 != 0 || y % 400 == 0)
  }

  function DaysInMonth(y: int, m: int): (n: int)
    requires 1 <= m <= 12
    ensures 28 <= n <= 31
  {
    if m == 2 then (if IsLeap(y) then 29 else 28)
    else if m == 4 || m == 6 || m == 9 || m == 11 then 30
    else 31
  }

  function DaysInYear(y: int): (n: int)
  {
    if IsLeap(y) then 366 else 365
  }

  /** What `date(y, m, d)` accepts. */
  predicate Valid(d: Date)
  {
    1 <= d.year <= 9999 && 1 <= d.month <= 12 && 1 <= d.day <= DaysInMonth(d.year, d.month)
  }

  /** Days in the months of year y before month m (m = 13: the whole year). */
  function DaysBeforeMonth(y: int, m: int): (n: int)
    requires 1 <= m <= 13
    ensures n >= 0
  {
    if m == 1 then 0 else DaysBeforeMonth(y, m - 1) + DaysInMonth(y, m - 1)
  }

  /** Days in the years before year y, as CPython's `_days_before_year`. */
  function DaysBeforeYear(y: int): int
  {
    var p := y - 1;
    p * 365 + p / 4 - p / 100 + p / 400
  }

  /** `d.toordinal()`: 0001-01-01 is day 1. */
  function Ordinal(d: Date): int
    requires Valid(d)
  {
    DaysBeforeYear(d.year) + DaysBeforeMonth(d.year, d.month) + d.day
  }

  lemma WholeYear(y: int)
    ensures DaysBeforeMonth(y, 13) == DaysInYear(y)
  {
    assert DaysBeforeMonth(y, 2) == 31;
    assert DaysBeforeMonth(y, 3) == 31 + DaysInMonth(y, 2);
    assert DaysBeforeMonth(y, 4) == 62 + DaysInMonth(y, 2);
    assert DaysBeforeMonth(y, 5) == 92 + DaysInMonth(y, 2);
    assert DaysBeforeMonth(y, 6) == 123 + DaysInMonth(y, 2);
    assert DaysBeforeMonth(y, 7) == 153 + DaysInMonth(y, 2);
    assert DaysBeforeMonth(y, 8) == 184 + DaysInMonth(y, 2);
    assert DaysBeforeMonth(y, 9) == 215 + DaysInMonth(y, 2);
    assert DaysBeforeMonth(y, 10) == 245 + DaysInMonth(y, 2);
    assert DaysBeforeMonth(y, 11) == 276 + DaysInMonth(y, 2);
    assert DaysBeforeMonth(y, 12) == 306 + DaysInMonth(y, 2);
  }

  lemma NextYear(y: int)
    requires y >= 1
    ensures DaysBeforeYear(y + 1) == DaysBeforeYear(y) + DaysInYear(y)
  {
    var p := y - 1;
    assert y / 4 == p / 4 + (if y % 4 == 0 then 1 else 0);
    assert y / 100 == p / 100 + (if y % 100 == 0 then 1 else 0);
    assert y / 400 == p / 400 + (if y % 400 == 0 then 1 else 0);
  }

  lemma {:induction false} YearsBefore(y1: int, y2: int)
    requires 1 <= y1 < y2
    ensures DaysBeforeYear(y1) + DaysInYear(y1) <= DaysBeforeYear(y2)
    decreases y2 - y1
  {
    NextYear(y1);
    if y1 + 1 < y2 {
      YearsBefore(y1 + 1, y2);
    }
  }

  lemma {:induction false} MonthsBefore(y: int, m1: int, m2: int)
    requires 1 <= m1 < m2 <= 13
    ensures DaysBeforeMonth(y, m1) + DaysInMonth(y, m1) <= DaysBeforeMonth(y, m2)
    decreases m2 - m1
  {
    if m1 + 1 < m2 {
      MonthsBefore(y, m1 + 1, m2);
    }
  }

  /** Calendar order of dates. */
  predicate Before(a: Date, b: Date)
  {
    a.year < b.year || (a.year == b.year && (a.month < b.month || (a.month == b.month && a.day < b.day)))
  }

  lemma BeforeOrdinal(a: Date, b: Date)
    requires Valid(a) && Valid(b) && Before(a, b)
    ensures Ordinal(a) < Ordinal(b)
  {
    if a.year < b.year {
      MonthsBefore(a.year, a.month, 13);
      WholeYear(a.year);
      YearsBefore(a.year, b.year);
    } else if a.month < b.month {
      MonthsBefore(a.year, a.month, b.month);
    }
  }

  /** The day number orders dates as the calendar does. */
  lemma OrdinalOrder(a: Date, b: Date)
    requires Valid(a) && Valid(b)
    ensures Ordinal(a) < Ordinal(b) <==> Before(a, b)
    ensures Ordinal(a) == Ordinal(b) <==> a == b
  {
    if Before(a, b) { BeforeOrdinal(a, b); }
    if Before(b, a) { BeforeOrdinal(b, a); }
  }

  // ---------------------------------------------------------------------
  // ISO text
  // ---------------------------------------------------------------------

  /** `d.isoformat()`. */
  function Iso(d: Date): (s: string)
    requires Valid(d)
    ensures |s| == 10 && s[4] == '-' && s[7] == '-'
  {
    Padded(d.year, 4) + ("-" + (Padded(d.month, 2) + ("-" + Padded(d.day, 2))))
  }

  /** `date.fromisoformat(s)`: exactly `YYYY-MM-DD` with ASCII digits naming
      a real date; anything else raises ValueError. */
  function ParseIso(s: string): (r: Result<Date>)
    ensures r.Ok? ==> Valid(r.value)
    ensures r.Err? ==> r.error == BadIsoDate(s)
  {
    if |s| == 10 && s[4] == '-' && s[7] == '-' && AllDigits(s[..4]) && AllDigits(s[5..7]) && AllDigits(s[8..]) then
      var d := Date(DigitsValue(s[..4]), DigitsValue(s[5..7]), DigitsValue(s[8..]));
      if Valid(d) then Ok(d) else Err(BadIsoDate(s))
    else Err(BadIsoDate(s))
  }

  lemma {:induction false} DigitsOfPadded(n: nat, w: nat)
    requires n < Pow10(w)
    ensures AllDigits(Padded(n, w))
    ensures DigitsValue(Padded(n, w)) == n
    decreases w
  {
    if w > 0 {
      DigitsOfPadded(n / 10, w - 1);
      var p := Padded(n, w);
      assert p[..w - 1] == Padded(n / 10, w - 1);
    }
  }

  lemma {:induction false} PaddedOfDigits(s: string)
    requires AllDigits(s)
    ensures Padded(DigitsValue(s), |s|) == s
    decreases |s|
  {
    if s != [] {
      var t := s[..|s| - 1];
      PaddedOfDigits(t);
      assert DigitsValue(s) / 10 == DigitsValue(t);
      assert DigitsValue(s) % 10 == s[|s| - 1] as int - '0' as int;
      assert s == t + [s[|s| - 1]];
    }
  }

  /** Parsing a formatted date gives the date back. */
  lemma ParseIso_Iso(d: Date)
    requires Valid(d)
    ensures ParseIso(Iso(d)) == Ok(d)
  {
    var s := Iso(d);
    assert s[..4] == Padded(d.year, 4);
    assert s[5..7] == Padded(d.month, 2);
    assert s[8..] == Padded(d.day, 2);
    DigitsOfPadded(d.year, 4);
    DigitsOfPadded(d.month, 2);
    DigitsOfPadded(d.day, 2);
  }

  /** A string that parses is the formatted form of its date: the accepted
      form is canonical. */
  lemma Iso_ParseIso(s: string)
    requires ParseIso(s).Ok?
    ensures Iso(ParseIso(s).value) == s
  {
    PaddedOfDigits(s[..4]);
    PaddedOfDigits(s[5..7]);
    PaddedOfDigits(s[8..]);
    DashedParts(s);
  }

  /** A ten-character string with dashes at 4 and 7 is its three fields
      joined by dashes. */
  lemma DashedParts(s: string)
    requires |s| == 10 && s[4] == '-' && s[7] == '-'
    ensures s == s[..4] + ("-" + (s[5..7] + ("-" + s[8..])))
  {
    assert s[4..5] == "-" && s[7..8] == "-";
    assert s[..4] + (s[4..5] + (s[5..7] + (s[7..8] + s[8..]))) == s;
  }

  /** ISO strings compare, as Python strings, in calendar order. */
  lemma IsoOrder(a: Date, b: Date)
    requires Valid(a) && Valid(b)
    ensures Lt(Iso(a), Iso(b)) <==> Before(a, b)
  {
    PaddedOrder(a.year, b.year, 4);
    PaddedInjective(a.year, b.year, 4);
    PaddedOrder(a.month, b.month, 2);
    PaddedInjective(a.month, b.month, 2);
    PaddedOrder(a.day, b.day, 2);
    DashedOrder(Padded(a.year, 4), Padded(a.month, 2), Padded(a.day, 2),
                Padded(b.year, 4), Padded(b.month, 2), Padded(b.day, 2));
  }

  /** Three fields joined by dashes compare field by field when the widths
      agree. */
  lemma DashedOrder(ya: string, ma: string, da: string, yb: string, mb: string, db: string)
    requires |ya| == |yb| && |ma| == |mb| && |da| == |db|
    ensures Lt(ya + ("-" + (ma + ("-" + da))), yb + ("-" + (mb + ("-" + db)))) <==>
      if ya != yb then Lt(ya, yb) else if ma != mb then Lt(ma, mb) else Lt(da, db)
  {
    LtConcat(ya, "-" + (ma + ("-" + da)), yb, "-" + (mb + ("-" + db)));
    DashedPair(ma + ("-" + da), mb + ("-" + db));
    DashedPair(da, db);
    LtConcat(ma, "-" + da, mb, "-" + db);
  }

  /** A shared dash in front does not change the comparison. */
  lemma DashedPair(a: string, b: string)
    ensures Lt("-" + a, "-" + b) == Lt(a, b)
  {
    LtConcat("-", a, "-", b);
  }

  // ---------------------------------------------------------------------
  // Day arithmetic and weekdays
  // ---------------------------------------------------------------------

  /** `d - timedelta(days=1)`; OverflowError before 0001-01-01. */
  function PrevDay(d: Date): (r: Result<Date>)
    requires Valid(d)
    ensures r.Ok? ==> Valid(r.value)
    ensures r.Err? <==> d == Date(1, 1, 1)
    ensures r.Err? ==> r.error == DateOverflow
  {
    if d.day > 1 then Ok(Date(d.year, d.month, d.day - 1))
    else if d.month > 1 then Ok(Date(d.year, d.month - 1, DaysInMonth(d.year, d.month - 1)))
    else if d.year > 1 then Ok(Date(d.year - 1, 12, 31))
    else Err(DateOverflow)
  }

  /** The day before is one day number lower. */
  lemma PrevDayOrdinal(d: Date)
    requires Valid(d) && PrevDay(d).Ok?
    ensures Ordinal(PrevDay(d).value) == Ordinal(d) - 1
  {
    if d.day == 1 && d.month == 1 {
      NextYear(d.year - 1);
      WholeYear(d.year - 1);
    }
  }

  /** 0001-01-01 is the first day. */
  lemma FirstDay(d: Date)
    requires Valid(d)
    ensures Ordinal(d) >= 1
    ensures Ordinal(d) == 1 <==> d == Date(1, 1, 1)
  {
    OrdinalOrder(Date(1, 1, 1), d);
  }

  /** `d - timedelta(days=n)`. */
  function SubDays(d: Date, n: nat): (r: Result<Date>)
    requires Valid(d)
    ensures r.Ok? ==> Valid(r.value) && Ordinal(r.value) == Ordinal(d) - n
    ensures r.Ok? <==> n < Ordinal(d)
    decreases n
  {
    if n == 0 then Ok(d)
    else
      match SubDays(d, n - 1)
      case Err(e) => Err(e)
      case Ok(e) =>
        if e == Date(1, 1, 1) then FirstDay(e); Err(DateOverflow)
        else
          StepBack(d, e, n);
          PrevDay(e)
  }

  /** One more day back from the date n - 1 days before d. */
  lemma StepBack(d: Date, e: Date, n: nat)
    requires Valid(d) && Valid(e) && e != Date(1, 1, 1) && n >= 1
    requires Ordinal(e) == Ordinal(d) - (n - 1)
    ensures PrevDay(e).Ok? && Valid(PrevDay(e).value)
    ensures Ordinal(PrevDay(e).value) == Ordinal(d) - n && n < Ordinal(d)
  {
    FirstDay(e);
    PrevDayOrdinal(e);
  }

  /** `d.weekday()`: Monday is 0. */
  function Weekday(d: Date): (w: int)
    requires Valid(d)
    ensures 0 <= w < 7
  {
    (Ordinal(d) + 6) % 7
  }

  const WeekdayNames: seq<string> :=
    ["Monday", "Tuesday", "Wednesday", "Thursday", "Friday", "Saturday", "Sunday"]

  /** `d.strftime("%A")` in the C locale. */
  function WeekdayName(d: Date): (name: string)
    requires Valid(d)
    ensures name in WeekdayNames
  {
    WeekdayNames[Weekday(d)]
  }

  /** The day before has the previous weekday name, cyclically. */
  lemma WeekdayOfPrevDay(d: Date)
    requires Valid(d) && PrevDay(d).Ok?
    ensures Weekday(PrevDay(d).value) == (Weekday(d) + 6) % 7
  {
    PrevDayOrdinal(d);
    CyclicStep(Ordinal(d));
  }

  lemma CyclicStep(o: int)
    ensures (o - 1 + 6) % 7 == ((o + 6) % 7 + 6) % 7
  {
  }

  /** 0001-01-01 was a Monday and 2025-01-01 a Wednesday. */
  lemma KnownWeekdays()
    ensures WeekdayName(Date(1, 1, 1)) == "Monday"
    ensures WeekdayName(Date(2025, 1, 1)) == "Wednesday"
  {
  }
}
