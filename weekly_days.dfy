/** `daterange_days(end, days)` of scripts/weekly_summary.py: the ISO dates
    of the `days` days that end with `end`, oldest first. */
module WeeklyDays {
  import opened Prelude
  import opened PyStr
  import opened Dates

  /** `end - timedelta(days=i)` for i in range(n), newest first. The
      subtraction raises OverflowError for the first i that reaches back
      past 0001-01-01, which happens exactly when n exceeds the day number
      of `end`. */
  function BackFrom(end: Date, n: nat): (r: Result<seq<Date>>)
    requires Valid(end)
    ensures r.Ok? ==> |r.value| == n && forall i :: 0 <= i < n ==> Valid(r.value[i])
    ensures r.Err? ==> r.error == DateOverflow
  {
    if n <= Ordinal(end) then Ok(seq(n, i requires 0 <= i < n => SubDays(end, i).value))
    else Err(DateOverflow)
  }

  /** `.isoformat()` of each date, in reverse order (`[::-1]`). */
  function IsoReversed(ds: seq<Date>): (r: seq<string>)
    requires forall i :: 0 <= i < |ds| ==> Valid(ds[i])
    ensures |r| == |ds|
  {
    seq(|ds|, k requires 0 <= k < |ds| => Iso(ds[|ds| - 1 - k]))
  }

  lemma IsoReversedAt(ds: seq<Date>, r: seq<string>, n: int, k: nat)
    requires forall i :: 0 <= i < |ds| ==> Valid(ds[i])
    requires r == IsoReversed(ds) && n == |ds| && k < n
    ensures r[k] == Iso(ds[n - 1 - k])
  {
    assert r[k] == Iso(ds[|ds| - 1 - k]);
  }

  /** `daterange_days(end, days)`: a count of zero or less gives the empty
      list. */
  function DaterangeDays(end: Date, days: int): (r: Result<seq<string>>)
    requires Valid(end)
    ensures r.Ok? ==> |r.value| == if days < 0 then 0 else days
    ensures r.Err? ==> r.error == DateOverflow
  {
    var back :- BackFrom(end, if days < 0 then 0 else days);
    Ok(IsoReversed(back))
  }

  /** The list exists exactly when its first day is on or after
      0001-01-01, that is when `end` is day number `days` or later. */
  lemma DaterangeOk(end: Date, days: int)
    requires Valid(end)
    ensures DaterangeDays(end, days).Ok? <==> days <= Ordinal(end)
  {
    FirstDay(end);
  }

  /** Entry i of the newest-first list is `end` minus i days. */
  lemma BackFromAt(end: Date, n: nat, i: nat)
    requires Valid(end) && BackFrom(end, n).Ok? && i < n
    ensures SubDays(end, i) == Ok(BackFrom(end, n).value[i])
  {
  }

  lemma DaterangeValue(end: Date, days: int)
    requires Valid(end) && DaterangeDays(end, days).Ok? && days > 0
    ensures BackFrom(end, days).Ok?
    ensures DaterangeDays(end, days).value == IsoReversed(BackFrom(end, days).value)
  {
  }

  lemma DaterangeIso(end: Date, days: int, k: nat)
    requires Valid(end) && DaterangeDays(end, days).Ok? && k < days
    ensures BackFrom(end, days).Ok? && |BackFrom(end, days).value| == days
    ensures DaterangeDays(end, days).value[k] == Iso(BackFrom(end, days).value[days - 1 - k])
  {
    DaterangeValue(end, days);
    IsoReversedAt(BackFrom(end, days).value, DaterangeDays(end, days).value, days, k);
  }

  lemma DaterangeBack(end: Date, days: nat, k: nat)
    requires Valid(end) && BackFrom(end, days).Ok? && k < days
    ensures SubDays(end, days - 1 - k) == Ok(BackFrom(end, days).value[days - 1 - k])
  {
    BackFromAt(end, days, days - 1 - k);
  }

  /** Entry k is the ISO form of the date `days - 1 - k` days before `end`. */
  lemma DaterangeAt(end: Date, days: int, k: nat)
    requires Valid(end) && DaterangeDays(end, days).Ok? && k < days
    ensures BackFrom(end, days).Ok? && |BackFrom(end, days).value| == days
    ensures SubDays(end, days - 1 - k) == Ok(BackFrom(end, days).value[days - 1 - k])
    ensures DaterangeDays(end, days).value[k] == Iso(BackFrom(end, days).value[days - 1 - k])
  {
    DaterangeIso(end, days, k);
    DaterangeBack(end, days, k);
  }

  /** Entry k parses back to the date `days - 1 - k` days before `end`. */
  lemma DaterangeDates(end: Date, days: int, k: nat)
    requires Valid(end) && DaterangeDays(end, days).Ok? && k < days
    ensures ParseIso(DaterangeDays(end, days).value[k]).Ok?
    ensures Ordinal(ParseIso(DaterangeDays(end, days).value[k]).value) == Ordinal(end) - (days - 1 - k)
  {
    DaterangeAt(end, days, k);
    ParseIso_Iso(BackFrom(end, days).value[days - 1 - k]);
  }

  /** The list ends with `end` itself. */
  lemma DaterangeLast(end: Date, days: int)
    requires Valid(end) && DaterangeDays(end, days).Ok? && days >= 1
    ensures DaterangeDays(end, days).value[days - 1] == Iso(end)
  {
    DaterangeAt(end, days, days - 1);
  }

  /** Neighbouring entries are one day apart: the day before each entry is
      the entry in front of it. */
  lemma DaterangeConsecutive(end: Date, days: int, k: nat)
    requires Valid(end) && DaterangeDays(end, days).Ok? && k + 1 < days
    ensures var r := DaterangeDays(end, days).value;
      && ParseIso(r[k + 1]).Ok?
      && PrevDay(ParseIso(r[k + 1]).value).Ok?
      && Iso(PrevDay(ParseIso(r[k + 1]).value).value) == r[k]
  {
    var r := DaterangeDays(end, days).value;
    DaterangeDates(end, days, k);
    DaterangeDates(end, days, k + 1);
    var a := ParseIso(r[k]).value;
    var b := ParseIso(r[k + 1]).value;
    FirstDay(a);
    FirstDay(b);
    assert b != Date(1, 1, 1);
    var p := PrevDay(b).value;
    PrevDayOrdinal(b);
    OrdinalOrder(p, a);
    Iso_ParseIso(r[k]);
  }

  /** The entries ascend strictly, as strings and as dates. */
  lemma DaterangeAscending(end: Date, days: int, i: nat, j: nat)
    requires Valid(end) && DaterangeDays(end, days).Ok? && i < j < days
    ensures var r := DaterangeDays(end, days).value;
      && Lt(r[i], r[j])
      && ParseIso(r[i]).Ok? && ParseIso(r[j]).Ok?
      && Before(ParseIso(r[i]).value, ParseIso(r[j]).value)
  {
    var r := DaterangeDays(end, days).value;
    DaterangeDates(end, days, i);
    DaterangeDates(end, days, j);
    var a := ParseIso(r[i]).value;
    var b := ParseIso(r[j]).value;
    OrdinalOrder(a, b);
    IsoOrder(a, b);
    Iso_ParseIso(r[i]);
    Iso_ParseIso(r[j]);
  }
}
