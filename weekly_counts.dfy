/** What the tables of `summarize_week` hold, stated as counts over the
    days' entries: `sent` is the number of entries for the user, `done` the
    number of those with a truthy value, `per_ex[ex]` the number of truthy
    values for `ex`; a key is present exactly when its count is positive. */
module WeeklyCounts {
  import opened Prelude
  import opened Json
  import opened Files
  import opened Weekly

  // ---------------------------------------------------------------------
  // Counts
  // ---------------------------------------------------------------------

  function SumOf<T>(s: seq<T>, f: T -> nat): nat
    decreases |s|
  {
    if s == [] then 0 else SumOf(s[..|s| - 1], f) + f(s[|s| - 1])
  }

  lemma {:induction false} SumPositive<T>(s: seq<T>, f: T -> nat)
    ensures SumOf(s, f) > 0 <==> exists i :: 0 <= i < |s| && f(s[i]) > 0
    decreases |s|
  {
    if s != [] {
      var init := s[..|s| - 1];
      SumPositive(init, f);
      assert forall i :: 0 <= i < |init| ==> init[i] == s[i];
    }
  }

  lemma {:induction false} SumSame<T>(s: seq<T>, f: T -> nat, g: T -> nat)
    requires forall i :: 0 <= i < |s| ==> f(s[i]) == g(s[i])
    ensures SumOf(s, f) == SumOf(s, g)
    decreases |s|
  {
    if s != [] {
      var init := s[..|s| - 1];
      assert forall i :: 0 <= i < |init| ==> init[i] == s[i];
      SumSame(init, f, g);
    }
  }

  lemma {:induction false} SumLe<T>(s: seq<T>, f: T -> nat, g: T -> nat)
    requires forall i :: 0 <= i < |s| ==> f(s[i]) <= g(s[i])
    ensures SumOf(s, f) <= SumOf(s, g)
    decreases |s|
  {
    if s != [] {
      var init := s[..|s| - 1];
      assert forall i :: 0 <= i < |init| ==> init[i] == s[i];
      SumLe(init, f, g);
    }
  }

  /** One for a truthy value of `ex`. */
  function HitOf(ex: string): ((string, Json)) -> nat
  {
    (p: (string, Json)) => if p.0 == ex && Truthy(p.1) then 1 else 0
  }

  /** Truthy values of `ex` in one exercise map. */
  function Hits(exmap: Dict<Json>, ex: string): nat
  {
    SumOf(exmap, HitOf(ex))
  }

  function EntryHitsOf(ex: string): Entry -> nat
  {
    (e: Entry) => Hits(e.1, ex)
  }

  function DayHits(es: seq<Entry>, ex: string): nat
  {
    SumOf(es, EntryHitsOf(ex))
  }

  function DayHitsOf(ex: string): seq<Entry> -> nat
  {
    es => DayHits(es, ex)
  }

  /** Truthy values of `ex` over every day and user. */
  function ExTotal(ws: seq<seq<Entry>>, ex: string): nat
  {
    SumOf(ws, DayHitsOf(ex))
  }

  function IsUser(u: string): Entry -> nat
  {
    (e: Entry) => if e.0 == u then 1 else 0
  }

  function DidUser(u: string): Entry -> nat
  {
    (e: Entry) => if e.0 == u && AnyTruthy(e.1) then 1 else 0
  }

  function DaySent(es: seq<Entry>, u: string): nat
  {
    SumOf(es, IsUser(u))
  }

  function DayDone(es: seq<Entry>, u: string): nat
  {
    SumOf(es, DidUser(u))
  }

  function DaySentOf(u: string): seq<Entry> -> nat
  {
    es => DaySent(es, u)
  }

  function DayDoneOf(u: string): seq<Entry> -> nat
  {
    es => DayDone(es, u)
  }

  /** Entries for `u` over every day. */
  function SentTotal(ws: seq<seq<Entry>>, u: string): nat
  {
    SumOf(ws, DaySentOf(u))
  }

  /** Entries for `u` with some truthy value, over every day. */
  function DoneTotal(ws: seq<seq<Entry>>, u: string): nat
  {
    SumOf(ws, DayDoneOf(u))
  }

  // ---------------------------------------------------------------------
  // per_ex
  // ---------------------------------------------------------------------

  /** A count of n added to an optional table value. */
  function AddCount(o: Option<nat>, n: nat): Option<nat>
  {
    if n == 0 then o else Some((if o.Some? then o.value else 0) + n)
  }

  lemma {:induction false} ExercisesCount(perEx: Dict<nat>, exmap: Dict<Json>, ex: string)
    ensures Get(CountExercises(perEx, exmap), ex) == AddCount(Get(perEx, ex), Hits(exmap, ex))
    decreases |exmap|
  {
    if exmap != [] {
      var init := exmap[..|exmap| - 1];
      var (k, v) := exmap[|exmap| - 1];
      ExercisesCount(perEx, init, ex);
      var before := CountExercises(perEx, init);
      if Truthy(v) {
        PutGet(before, k, GetOr(before, k, 0) + 1, ex);
      }
    }
  }

  lemma {:induction false} DayExCount(acc: Summary, es: seq<Entry>, ex: string)
    ensures Get(CountDay(acc, es).1, ex) == AddCount(Get(acc.1, ex), DayHits(es, ex))
    decreases |es|
  {
    if es != [] {
      var init := es[..|es| - 1];
      DayExCount(acc, init, ex);
      CountDayExercises(acc, es, ex);
      ExercisesCount(CountDay(acc, init).1, es[|es| - 1].1, ex);
    }
  }

  /** The exercise table after one more entry. */
  lemma CountDayExercises(acc: Summary, es: seq<Entry>, ex: string)
    requires es != []
    ensures CountDay(acc, es).1 == CountExercises(CountDay(acc, es[..|es| - 1]).1, es[|es| - 1].1)
    ensures DayHits(es, ex) == DayHits(es[..|es| - 1], ex) + Hits(es[|es| - 1].1, ex)
  {
  }

  lemma {:induction false} WeekExCount(acc: Summary, ws: seq<seq<Entry>>, ex: string)
    ensures Get(CountWeek(acc, ws).1, ex) == AddCount(Get(acc.1, ex), ExTotal(ws, ex))
    decreases |ws|
  {
    if ws != [] {
      var init := ws[..|ws| - 1];
      WeekExCount(acc, init, ex);
      DayExCount(CountWeek(acc, init), ws[|ws| - 1], ex);
    }
  }

  /** `per_ex[ex]` is the number of truthy values of `ex` over the week, and
      an exercise never truthy is absent. */
  lemma PerExercise(store: Store, days: seq<string>, ex: string)
    requires Summarize(store, days).Ok?
    ensures var n := ExTotal(Parse(store, days).value, ex);
      Get(Summarize(store, days).value.1, ex) == if n == 0 then None else Some(n)
  {
    WeekExCount(([], []), Parse(store, days).value, ex);
  }

  // ---------------------------------------------------------------------
  // per_user
  // ---------------------------------------------------------------------

  /** s more days sent, d of them done, added to an optional table value. */
  function AddStats(o: Option<Stats>, s: nat, d: nat): Option<Stats>
  {
    if s == 0 then o
    else
      var b := if o.Some? then o.value else Stats(0, 0);
      Some(Stats(b.sent + s, b.done + d))
  }

  lemma {:induction false} DayUserCount(acc: Summary, es: seq<Entry>, u: string)
    ensures DayDone(es, u) <= DaySent(es, u)
    ensures Get(CountDay(acc, es).0, u) == AddStats(Get(acc.0, u), DaySent(es, u), DayDone(es, u))
    decreases |es|
  {
    if es != [] {
      var init := es[..|es| - 1];
      var e := es[|es| - 1];
      DayUserCount(acc, init, u);
      CountDayUsers(acc, es);
      CountUserGet(CountDay(acc, init).0, e, u);
      DayCountsStep(es, u);
      AddStatsAdd(Get(acc.0, u), DaySent(init, u), DayDone(init, u), IsUser(u)(e), DidUser(u)(e));
    }
  }

  /** The user table after one more entry. */
  lemma CountDayUsers(acc: Summary, es: seq<Entry>)
    requires es != []
    ensures CountDay(acc, es).0 == CountUser(CountDay(acc, es[..|es| - 1]).0, es[|es| - 1])
  {
  }

  lemma DayCountsStep(es: seq<Entry>, u: string)
    requires es != []
    ensures DaySent(es, u) == DaySent(es[..|es| - 1], u) + IsUser(u)(es[|es| - 1])
    ensures DayDone(es, u) == DayDone(es[..|es| - 1], u) + DidUser(u)(es[|es| - 1])
    ensures DidUser(u)(es[|es| - 1]) <= IsUser(u)(es[|es| - 1])
  {
  }

  /** One entry adds one day sent for its own user, and one day done when
      any value is truthy. */
  lemma CountUserGet(d: Dict<Stats>, e: Entry, u: string)
    ensures Get(CountUser(d, e), u) == AddStats(Get(d, u), IsUser(u)(e), DidUser(u)(e))
  {
    var st := GetOr(d, e.0, Stats(0, 0));
    PutGet(d, e.0, Stats(st.sent + 1, st.done + if AnyTruthy(e.1) then 1 else 0), u);
  }

  lemma AddStatsAdd(o: Option<Stats>, s1: nat, d1: nat, s2: nat, d2: nat)
    requires d1 <= s1 && d2 <= s2
    ensures AddStats(AddStats(o, s1, d1), s2, d2) == AddStats(o, s1 + s2, d1 + d2)
  {
  }

  lemma WeekTotalsStep(acc: Summary, ws: seq<seq<Entry>>, u: string)
    requires ws != []
    ensures CountWeek(acc, ws) == CountDay(CountWeek(acc, ws[..|ws| - 1]), ws[|ws| - 1])
    ensures SentTotal(ws, u) == SentTotal(ws[..|ws| - 1], u) + DaySent(ws[|ws| - 1], u)
    ensures DoneTotal(ws, u) == DoneTotal(ws[..|ws| - 1], u) + DayDone(ws[|ws| - 1], u)
  {
  }

  lemma {:induction false} WeekUserCount(acc: Summary, ws: seq<seq<Entry>>, u: string)
    ensures DoneTotal(ws, u) <= SentTotal(ws, u)
    ensures Get(CountWeek(acc, ws).0, u) == AddStats(Get(acc.0, u), SentTotal(ws, u), DoneTotal(ws, u))
    decreases |ws|
  {
    if ws != [] {
      var init := ws[..|ws| - 1];
      WeekUserCount(acc, init, u);
      WeekTotalsStep(acc, ws, u);
      DayUserCount(CountWeek(acc, init), ws[|ws| - 1], u);
    }
  }

  /** A user's row holds the number of their entries as `sent` and the
      number with a truthy value as `done`, so `done <= sent`; a user with
      no entry has no row. */
  lemma PerUser(store: Store, days: seq<string>, u: string)
    requires Summarize(store, days).Ok?
    ensures var ws := Parse(store, days).value;
      && DoneTotal(ws, u) <= SentTotal(ws, u)
      && Get(Summarize(store, days).value.0, u) ==
           if SentTotal(ws, u) == 0 then None else Some(Stats(SentTotal(ws, u), DoneTotal(ws, u)))
  {
    WeekUserCount(([], []), Parse(store, days).value, u);
  }

  // ---------------------------------------------------------------------
  // Counted by day, for documents `json.loads` can return
  // ---------------------------------------------------------------------

  /** One for a day whose completions list `u`. */
  function SentOn(store: Store, u: string): string -> nat
  {
    day => if Completions(store, day).Ok? && HasKey(Completions(store, day).value, u) then 1 else 0
  }

  /** One for a day whose completions give `u` a dict with a truthy value. */
  function DoneOn(store: Store, u: string): string -> nat
  {
    day =>
      if && Completions(store, day).Ok?
         && HasKey(Completions(store, day).value, u)
         && Field(Completions(store, day).value, u).Obj?
         && AnyTruthy(Field(Completions(store, day).value, u).fields)
      then 1 else 0
  }

  /** The days of `days` whose completions list `u`. */
  function DaysSent(store: Store, days: seq<string>, u: string): nat
  {
    SumOf(days, SentOn(store, u))
  }

  /** The days of `days` on which `u` completed some exercise. */
  function DaysDone(store: Store, days: seq<string>, u: string): nat
  {
    SumOf(days, DoneOn(store, u))
  }

  lemma {:induction false} SumAligned<S, T>(s: seq<S>, f: S -> nat, t: seq<T>, g: T -> nat)
    requires |s| == |t|
    requires forall i :: 0 <= i < |s| ==> f(s[i]) == g(t[i])
    ensures SumOf(s, f) == SumOf(t, g)
    decreases |s|
  {
    if s != [] {
      var n := |s| - 1;
      assert forall i :: 0 <= i < n ==> s[..n][i] == s[i] && t[..n][i] == t[i];
      SumAligned(s[..n], f, t[..n], g);
    }
  }

  /** A day's completions, read from a loaded document, hold each user and
      each exercise once. */
  lemma CompletionsLoaded(store: Store, day: string)
    requires LoadedStore(store)
    requires Completions(store, day).Ok?
    ensures DistinctKeys(Completions(store, day).value)
    ensures forall i :: 0 <= i < |Completions(store, day).value| ==> Loaded(Completions(store, day).value[i].1)
  {
    var path := StatePath(day);
    if path in store {
      var doc := store[path].value.fields;
      LoadedGetOr(doc, "completions", Obj([]));
    }
  }

  /** With no user twice, one day counts each user at most once. */
  lemma {:induction false} DayOnce(es: seq<Entry>, u: string)
    requires forall i, j :: 0 <= i < j < |es| ==> es[i].0 != es[j].0
    ensures DaySent(es, u) == if exists i :: 0 <= i < |es| && es[i].0 == u then 1 else 0
    ensures DayDone(es, u) == if exists i :: 0 <= i < |es| && es[i].0 == u && AnyTruthy(es[i].1) then 1 else 0
    decreases |es|
  {
    if es != [] {
      var n := |es| - 1;
      var init := es[..n];
      assert forall i :: 0 <= i < n ==> init[i] == es[i];
      DayOnce(init, u);
      DayCountsStep(es, u);
      if es[n].0 == u {
        assert !exists i :: 0 <= i < n && init[i].0 == u;
      }
    }
  }

  /** On a loaded store, a day's entries count for `u` exactly what
      `SentOn` and `DoneOn` read from its completions. */
  lemma DayByCompletions(store: Store, day: string, u: string)
    requires LoadedStore(store)
    requires DayEntries(store, day).Ok?
    ensures DaySent(DayEntries(store, day).value, u) == SentOn(store, u)(day)
    ensures DayDone(DayEntries(store, day).value, u) == DoneOn(store, u)(day)
  {
    DayEntriesShape(store, day);
    var comp := Completions(store, day).value;
    var es := DayEntries(store, day).value;
    CompletionsLoaded(store, day);
    DayOnce(es, u);
    if HasKey(comp, u) {
      var k := IndexOf(comp, u);
      assert es[k].0 == u;
      assert Field(comp, u) == Obj(es[k].1);
      assert forall i :: 0 <= i < |es| && es[i].0 == u ==> i == k;
    } else {
      assert forall i :: 0 <= i < |es| ==> es[i].0 != u;
    }
  }

  /** For state files as `json.loads` reads them, a user's row counts days:
      `sent` is the number of days whose completions list the user, `done`
      the number of those on which some exercise value is truthy; a user
      listed on no day has no row. */
  lemma PerUserDays(store: Store, days: seq<string>, u: string)
    requires LoadedStore(store)
    requires Summarize(store, days).Ok?
    ensures DaysDone(store, days, u) <= DaysSent(store, days, u)
    ensures Get(Summarize(store, days).value.0, u) ==
      if DaysSent(store, days, u) == 0 then None
      else Some(Stats(DaysSent(store, days, u), DaysDone(store, days, u)))
  {
    var ws := Parse(store, days).value;
    PerUser(store, days, u);
    ParseAt(store, days);
    forall d | 0 <= d < |days|
      ensures DaySentOf(u)(ws[d]) == SentOn(store, u)(days[d])
      ensures DayDoneOf(u)(ws[d]) == DoneOn(store, u)(days[d])
    {
      DayByCompletions(store, days[d], u);
    }
    SumAligned(ws, DaySentOf(u), days, SentOn(store, u));
    SumAligned(ws, DayDoneOf(u), days, DoneOn(store, u));
  }

  /** One for a user whose exercise map holds a truthy value for `ex`. */
  function DidExercise(ex: string): Entry -> nat
  {
    (e: Entry) => if Truthy(Field(e.1, ex)) then 1 else 0
  }

  function DayUsersOf(ex: string): seq<Entry> -> nat
  {
    es => SumOf(es, DidExercise(ex))
  }

  /** The (day, user) pairs with a truthy value for `ex`. */
  function UsersDid(ws: seq<seq<Entry>>, ex: string): nat
  {
    SumOf(ws, DayUsersOf(ex))
  }

  /** With no exercise twice, a map holds at most one truthy value for `ex`. */
  lemma {:induction false} HitsOnce(exmap: Dict<Json>, ex: string)
    requires DistinctKeys(exmap)
    ensures Hits(exmap, ex) == if Truthy(Field(exmap, ex)) then 1 else 0
    decreases |exmap|
  {
    if exmap != [] {
      var n := |exmap| - 1;
      var init := exmap[..n];
      assert forall i :: 0 <= i < n ==> init[i] == exmap[i];
      HitsOnce(init, ex);
      if exmap[n].0 == ex {
        assert !HasKey(init, ex);
        IndexOfIs(exmap, ex, n);
      } else if HasKey(init, ex) {
        IndexOfIs(exmap, ex, IndexOf(init, ex));
      } else {
        assert !HasKey(exmap, ex);
      }
    }
  }

  /** For state files as `json.loads` reads them, `per_ex[ex]` is the number
      of (day, user) pairs whose exercise map has a truthy value for `ex`;
      an exercise no one completed has no entry. */
  lemma PerExerciseUsers(store: Store, days: seq<string>, ex: string)
    requires LoadedStore(store)
    requires Summarize(store, days).Ok?
    ensures var n := UsersDid(Parse(store, days).value, ex);
      Get(Summarize(store, days).value.1, ex) == if n == 0 then None else Some(n)
  {
    var ws := Parse(store, days).value;
    PerExercise(store, days, ex);
    ParseAt(store, days);
    forall d | 0 <= d < |ws|
      ensures DayHitsOf(ex)(ws[d]) == DayUsersOf(ex)(ws[d])
    {
      var day := days[d];
      DayEntriesShape(store, day);
      CompletionsLoaded(store, day);
      forall i | 0 <= i < |ws[d]|
        ensures EntryHitsOf(ex)(ws[d][i]) == DidExercise(ex)(ws[d][i])
      {
        assert Loaded(Obj(ws[d][i].1));
        HitsOnce(ws[d][i].1, ex);
      }
      SumSame(ws[d], EntryHitsOf(ex), DidExercise(ex));
    }
    SumSame(ws, DayHitsOf(ex), DayUsersOf(ex));
  }

  // ---------------------------------------------------------------------
  // Which keys appear
  // ---------------------------------------------------------------------

  /** `per_user` has a row for `u` exactly when some processed day lists `u`
      in its completions. */
  lemma UserSeen(store: Store, days: seq<string>, u: string)
    requires Summarize(store, days).Ok?
    ensures var ws := Parse(store, days).value;
      HasKey(Summarize(store, days).value.0, u) <==>
        exists d, i :: 0 <= d < |ws| && 0 <= i < |ws[d]| && ws[d][i].0 == u
  {
    var ws := Parse(store, days).value;
    PerUser(store, days, u);
    SumPositive(ws, DaySentOf(u));
    forall d | 0 <= d < |ws|
      ensures DaySent(ws[d], u) > 0 <==> exists i :: 0 <= i < |ws[d]| && ws[d][i].0 == u
    {
      SumPositive(ws[d], IsUser(u));
    }
  }

  /** `per_ex` has an entry for `ex` exactly when some user on some day has
      a truthy value for it. */
  lemma ExerciseSeen(store: Store, days: seq<string>, ex: string)
    requires Summarize(store, days).Ok?
    ensures var ws := Parse(store, days).value;
      HasKey(Summarize(store, days).value.1, ex) <==>
        exists d, i, j :: 0 <= d < |ws| && 0 <= i < |ws[d]| && 0 <= j < |ws[d][i].1| &&
          ws[d][i].1[j].0 == ex && Truthy(ws[d][i].1[j].1)
  {
    var ws := Parse(store, days).value;
    PerExercise(store, days, ex);
    SumPositive(ws, DayHitsOf(ex));
    forall d | 0 <= d < |ws|
      ensures DayHits(ws[d], ex) > 0 <==>
        exists i, j :: 0 <= i < |ws[d]| && 0 <= j < |ws[d][i].1| && ws[d][i].1[j].0 == ex && Truthy(ws[d][i].1[j].1)
    {
      SumPositive(ws[d], EntryHitsOf(ex));
      forall i | 0 <= i < |ws[d]|
        ensures Hits(ws[d][i].1, ex) > 0 <==>
          exists j :: 0 <= j < |ws[d][i].1| && ws[d][i].1[j].0 == ex && Truthy(ws[d][i].1[j].1)
      {
        SumPositive(ws[d][i].1, HitOf(ex));
      }
    }
  }

  // ---------------------------------------------------------------------
  // Shape of the tables
  // ---------------------------------------------------------------------

  /** Both tables are dicts (no key twice), every user was sent at least
      once and completed no more than sent, every exercise count is at
      least one. */
  ghost predicate WellFormed(acc: Summary)
  {
    && DistinctKeys(acc.0) && DistinctKeys(acc.1)
    && (forall i :: 0 <= i < |acc.0| ==> 1 <= acc.0[i].1.sent && acc.0[i].1.done <= acc.0[i].1.sent)
    && (forall i :: 0 <= i < |acc.1| ==> acc.1[i].1 >= 1)
  }

  lemma {:induction false} ExercisesWellFormed(perEx: Dict<nat>, exmap: Dict<Json>)
    requires DistinctKeys(perEx) && forall i :: 0 <= i < |perEx| ==> perEx[i].1 >= 1
    ensures var r := CountExercises(perEx, exmap);
      DistinctKeys(r) && forall i :: 0 <= i < |r| ==> r[i].1 >= 1
    decreases |exmap|
  {
    if exmap != [] {
      var init := exmap[..|exmap| - 1];
      var (k, v) := exmap[|exmap| - 1];
      ExercisesWellFormed(perEx, init);
      var before := CountExercises(perEx, init);
      if Truthy(v) {
        PutDistinct(before, k, GetOr(before, k, 0) + 1);
      }
    }
  }

  lemma UserWellFormed(perUser: Dict<Stats>, e: Entry)
    requires DistinctKeys(perUser)
    requires forall i :: 0 <= i < |perUser| ==> 1 <= perUser[i].1.sent && perUser[i].1.done <= perUser[i].1.sent
    ensures var r := CountUser(perUser, e);
      && DistinctKeys(r)
      && forall i :: 0 <= i < |r| ==> 1 <= r[i].1.sent && r[i].1.done <= r[i].1.sent
  {
    var st := GetOr(perUser, e.0, Stats(0, 0));
    PutDistinct(perUser, e.0, Stats(st.sent + 1, st.done + if AnyTruthy(e.1) then 1 else 0));
  }

  lemma {:induction false} DayWellFormed(acc: Summary, es: seq<Entry>)
    requires WellFormed(acc)
    ensures WellFormed(CountDay(acc, es))
    decreases |es|
  {
    if es != [] {
      var init := es[..|es| - 1];
      DayWellFormed(acc, init);
      var before := CountDay(acc, init);
      UserWellFormed(before.0, es[|es| - 1]);
      ExercisesWellFormed(before.1, es[|es| - 1].1);
    }
  }

  lemma {:induction false} WeekWellFormed(acc: Summary, ws: seq<seq<Entry>>)
    requires WellFormed(acc)
    ensures WellFormed(CountWeek(acc, ws))
    decreases |ws|
  {
    if ws != [] {
      WeekWellFormed(acc, ws[..|ws| - 1]);
      DayWellFormed(CountWeek(acc, ws[..|ws| - 1]), ws[|ws| - 1]);
    }
  }

  /** What `summarize_week` returns: two dicts, every row with
      `1 <= sent` and `done <= sent`, every exercise count positive. */
  lemma SummaryWellFormed(store: Store, days: seq<string>)
    requires Summarize(store, days).Ok?
    ensures var (perUser, perEx) := Summarize(store, days).value;
      && DistinctKeys(perUser) && DistinctKeys(perEx)
      && (forall i :: 0 <= i < |perUser| ==> 1 <= perUser[i].1.sent && perUser[i].1.done <= perUser[i].1.sent)
      && (forall i :: 0 <= i < |perEx| ==> perEx[i].1 >= 1)
  {
    WeekWellFormed(([], []), Parse(store, days).value);
  }
}
