/** The rows `build_html` in scripts/weekly_summary.py writes into the two
    tables of the weekly email: one row per user in the order `per_user`
    holds them, and one row per exercise after `sorted(per_ex.items(),
    key=lambda x: -x[1])`, a stable sort on descending count. A table with
    no rows gets the single "No data" row instead. The markup and the rate
    column are not modelled. */
module WeeklyReport {
  import opened Prelude
  import opened Json
  import opened Files
  import opened Weekly
  import WeeklyCounts

  /** The body of one table: its rows, or the one "No data" row that
      `"\n".join(rows) or '<tr>…No data…</tr>'` leaves when there are none
      (a row is never the empty string). */
  datatype Table<R> = Rows(rows: seq<R>) | NoData

  function Tabulate<R>(rows: seq<R>): Table<R>
  {
    if rows == [] then NoData else Rows(rows)
  }

  /** A row of the user table: the id, days sent and days completed. */
  datatype UserRow = UserRow(uid: string, sent: nat, done: nat)

  /** `for uid, v in per_user.items()`. */
  function UserRows(perUser: Dict<Stats>): (r: seq<UserRow>)
    ensures |r| == |perUser|
    ensures forall i :: 0 <= i < |perUser| ==>
      r[i] == UserRow(perUser[i].0, perUser[i].1.sent, perUser[i].1.done)
  {
    seq(|perUser|, i requires 0 <= i < |perUser| => UserRow(perUser[i].0, perUser[i].1.sent, perUser[i].1.done))
  }

  // ---------------------------------------------------------------------
  // sorted(per_ex.items(), key=lambda x: -x[1])
  // ---------------------------------------------------------------------

  /** Put x in front of the first entry whose count is not above its own,
      so that x stays ahead of the entries with the same count. */
  function InsertByCount(x: (string, nat), s: Dict<nat>): (r: Dict<nat>)
    ensures multiset(r) == multiset(s) + multiset{x}
    ensures |r| == |s| + 1
    decreases |s|
  {
    if s == [] then [x]
    else if s[0].1 <= x.1 then [x] + s
    else
      assert s == [s[0]] + s[1..];
      [s[0]] + InsertByCount(x, s[1..])
  }

  /** The stable sort on descending count. */
  function SortByCount(s: Dict<nat>): (r: Dict<nat>)
    ensures multiset(r) == multiset(s)
    ensures |r| == |s|
    decreases |s|
  {
    if s == [] then []
    else
      assert s == [s[0]] + s[1..];
      InsertByCount(s[0], SortByCount(s[1..]))
  }

  predicate NonIncreasing(s: Dict<nat>)
  {
    forall i, j :: 0 <= i < j < |s| ==> s[i].1 >= s[j].1
  }

  /** The entries with count c, in the order they appear. */
  function WithCount(s: Dict<nat>, c: nat): Dict<nat>
    decreases |s|
  {
    if s == [] then [] else (if s[0].1 == c then [s[0]] else []) + WithCount(s[1..], c)
  }

  predicate AtMost(s: Dict<nat>, b: nat)
  {
    forall i :: 0 <= i < |s| ==> s[i].1 <= b
  }

  /** Inserting an entry under a bound keeps every count under it. */
  lemma {:induction false} InsertByCountAtMost(x: (string, nat), s: Dict<nat>, b: nat)
    requires AtMost(s, b) && x.1 <= b
    ensures AtMost(InsertByCount(x, s), b)
    decreases |s|
  {
    if s != [] && s[0].1 > x.1 {
      InsertByCountAtMost(x, s[1..], b);
      var t := InsertByCount(x, s[1..]);
      assert forall i :: 0 < i < |t| + 1 ==> ([s[0]] + t)[i] == t[i - 1];
    }
  }

  /** A head no smaller than anything after it, over a non-increasing
      tail, is non-increasing. */
  lemma ConsNonIncreasing(h: (string, nat), t: Dict<nat>)
    requires NonIncreasing(t) && AtMost(t, h.1)
    ensures NonIncreasing([h] + t)
  {
    var r := [h] + t;
    forall i, j | 0 <= i < j < |r|
      ensures r[i].1 >= r[j].1
    {
      assert r[j] == t[j - 1];
      if i > 0 { assert r[i] == t[i - 1]; }
    }
  }

  lemma {:induction false} InsertByCountOrdered(x: (string, nat), s: Dict<nat>)
    requires NonIncreasing(s)
    ensures NonIncreasing(InsertByCount(x, s))
    decreases |s|
  {
    if s != [] {
      assert NonIncreasing(s[1..]) && AtMost(s[1..], s[0].1) by {
        forall i | 0 <= i < |s[1..]| ensures s[1..][i] == s[i + 1] { }
      }
      if s[0].1 > x.1 {
        InsertByCountOrdered(x, s[1..]);
        InsertByCountAtMost(x, s[1..], s[0].1);
        ConsNonIncreasing(s[0], InsertByCount(x, s[1..]));
      } else {
        assert s == [s[0]] + s[1..];
        assert AtMost(s, x.1);
        ConsNonIncreasing(x, s);
      }
    } else {
      ConsNonIncreasing(x, s);
    }
  }

  lemma {:induction false} SortByCountOrdered(s: Dict<nat>)
    ensures NonIncreasing(SortByCount(s))
    decreases |s|
  {
    if s != [] {
      SortByCountOrdered(s[1..]);
      InsertByCountOrdered(s[0], SortByCount(s[1..]));
    }
  }

  /** Inserting x adds x, and only x, in front of the entries that share
      its count. */
  lemma {:induction false} InsertByCountWithCount(x: (string, nat), s: Dict<nat>, c: nat)
    ensures WithCount(InsertByCount(x, s), c) == (if x.1 == c then [x] else []) + WithCount(s, c)
    decreases |s|
  {
    if s == [] {
      WithCountCons(x, [], c);
    } else if s[0].1 <= x.1 {
      WithCountCons(x, s, c);
    } else {
      var t := InsertByCount(x, s[1..]);
      WithCountCons(s[0], t, c);
      InsertByCountWithCount(x, s[1..], c);
      WithCountCons(s[0], s[1..], c);
      assert [s[0]] + s[1..] == s;
    }
  }

  lemma WithCountCons(h: (string, nat), t: Dict<nat>, c: nat)
    ensures WithCount([h] + t, c) == (if h.1 == c then [h] else []) + WithCount(t, c)
  {
    assert ([h] + t)[1..] == t;
  }

  /** The sort is stable: the entries with any one count come out in the
      order `per_ex` holds them. */
  lemma {:induction false} SortByCountStable(s: Dict<nat>, c: nat)
    ensures WithCount(SortByCount(s), c) == WithCount(s, c)
    decreases |s|
  {
    if s != [] {
      SortByCountStable(s[1..], c);
      InsertByCountWithCount(s[0], SortByCount(s[1..]), c);
    }
  }

  // ---------------------------------------------------------------------
  // The two tables
  // ---------------------------------------------------------------------

  datatype Report = Report(users: Table<UserRow>, exercises: Table<(string, nat)>)

  /** The tables `build_html(per_user, per_ex, start, end)` writes. */
  function BuildTables(perUser: Dict<Stats>, perEx: Dict<nat>): Report
  {
    Report(Tabulate(UserRows(perUser)), Tabulate(SortByCount(perEx)))
  }

  /** Each table is the "No data" row exactly when its map is empty. The
      user rows are `per_user` in its own order. The exercise rows hold
      each entry of `per_ex` once, by non-increasing count, and entries
      with equal counts keep their order in `per_ex`. */
  lemma ReportShape(perUser: Dict<Stats>, perEx: Dict<nat>)
    ensures var rep := BuildTables(perUser, perEx);
      && (rep.users == NoData <==> perUser == [])
      && (rep.exercises == NoData <==> perEx == [])
      && (rep.users.Rows? ==> rep.users.rows == UserRows(perUser))
      && (rep.exercises.Rows? ==>
            && multiset(rep.exercises.rows) == multiset(perEx)
            && NonIncreasing(rep.exercises.rows)
            && forall c: nat :: WithCount(rep.exercises.rows, c) == WithCount(perEx, c))
  {
    SortByCountOrdered(perEx);
    forall c: nat ensures WithCount(SortByCount(perEx), c) == WithCount(perEx, c) {
      SortByCountStable(perEx, c);
    }
  }

  /** The tables of a summarised week: a row for each user seen, with at
      least one day sent and no more days done than sent; an exercise row
      for each exercise completed at least once, each with a positive
      count, the largest count first. */
  lemma WeekReport(store: Store, days: seq<string>)
    requires Summarize(store, days).Ok?
    ensures var (perUser, perEx) := Summarize(store, days).value;
      var rep := BuildTables(perUser, perEx);
      && (rep.users.Rows? ==>
            forall i :: 0 <= i < |rep.users.rows| ==>
              1 <= rep.users.rows[i].sent && rep.users.rows[i].done <= rep.users.rows[i].sent)
      && (rep.exercises.Rows? ==>
            && NonIncreasing(rep.exercises.rows)
            && forall i :: 0 <= i < |rep.exercises.rows| ==>
                 rep.exercises.rows[i].1 >= 1 && rep.exercises.rows[i] in perEx)
  {
    var (perUser, perEx) := Summarize(store, days).value;
    WeeklyCounts.SummaryWellFormed(store, days);
    ReportShape(perUser, perEx);
    var rows := SortByCount(perEx);
    forall i | 0 <= i < |rows|
      ensures rows[i].1 >= 1 && rows[i] in perEx
    {
      assert rows[i] in multiset(perEx);
      var k :| 0 <= k < |perEx| && perEx[k] == rows[i];
    }
  }
}
