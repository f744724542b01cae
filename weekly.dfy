/** `summarize_week(days)` of scripts/weekly_summary.py: for each day with a
    state file `state/<day>.json`, every user listed under `completions`
    counts one day sent, one day done when any of their exercise values is
    truthy, and one completion for each truthy exercise. */
module Weekly {
  import opened Prelude
  import opened Json
  import opened Files

  /** `{"sent": .., "done": ..}` for one user. */
  datatype Stats = Stats(sent: nat, done: nat)

  /** One user's entry of a day's `completions`: the id and the exercise
      map, already known to be a dict. */
  type Entry = (string, Dict<Json>)

  /** `per_user` and `per_ex`. */
  type Summary = (Dict<Stats>, Dict<nat>)

  function StatePath(day: string): string
  {
    "state/" + day + ".json"
  }

  /** `any(exmap.values())`. */
  predicate AnyTruthy(exmap: Dict<Json>)
  {
    exists i :: 0 <= i < |exmap| && Truthy(exmap[i].1)
  }

  // ---------------------------------------------------------------------
  // Reading the state files
  // ---------------------------------------------------------------------

  /** `j.get("completions", {})` of the day's file, the empty dict for a
      day without a file; a file that is not JSON, a document that is not a
      dict and completions that are not a dict raise. */
  function Completions(store: Store, day: string): (r: Result<Dict<Json>>)
    ensures StatePath(day) !in store ==> r == Ok([])
  {
    var path := StatePath(day);
    if path !in store then Ok([])
    else
      var j :- ReadJson(store, path);
      var doc :- AsDict(j);
      AsDict(GetOr(doc, "completions", Obj([])))
  }

  /** An exercise map on which `.values()` and `.items()` work. */
  function ParseEntry(e: (string, Json), k: nat): (r: Result<Entry>)
    ensures r.Ok? <==> e.1.Obj?
    ensures r.Ok? ==> r.value == (e.0, e.1.fields)
    ensures r.Err? ==> r.error == TypeMismatch
  {
    var exmap :- AsDict(e.1);
    Ok((e.0, exmap))
  }

  /** The entries of one day, in the order of the file. */
  function DayEntries(store: Store, day: string): Result<seq<Entry>>
  {
    var comp :- Completions(store, day);
    MapEnumerate(comp, ParseEntry)
  }

  function DayOf(store: Store): (string, nat) -> Result<seq<Entry>>
  {
    (day, k) => DayEntries(store, day)
  }

  /** The entries of every day, or the first error. */
  function Parse(store: Store, days: seq<string>): Result<seq<seq<Entry>>>
  {
    MapEnumerate(days, DayOf(store))
  }

  // ---------------------------------------------------------------------
  // The counting, as the loops perform it
  // ---------------------------------------------------------------------

  /** `for ex, val in exmap.items(): if val: per_ex[ex] = per_ex.get(ex, 0) + 1`. */
  function CountExercises(perEx: Dict<nat>, exmap: Dict<Json>): Dict<nat>
    decreases |exmap|
  {
    if exmap == [] then perEx
    else
      var (ex, val) := exmap[|exmap| - 1];
      var before := CountExercises(perEx, exmap[..|exmap| - 1]);
      if Truthy(val) then Put(before, ex, GetOr(before, ex, 0) + 1) else before
  }

  /** `st = per_user.setdefault(uid, {"sent": 0, "done": 0})`, then one
      more day sent and, when any value is truthy, one more day done. */
  function CountUser(perUser: Dict<Stats>, e: Entry): (r: Dict<Stats>)
    ensures Get(r, e.0).Some?
    ensures Get(r, e.0).value.sent == GetOr(perUser, e.0, Stats(0, 0)).sent + 1
    ensures Get(r, e.0).value.done == GetOr(perUser, e.0, Stats(0, 0)).done + if AnyTruthy(e.1) then 1 else 0
    ensures DistinctKeys(perUser) ==> DistinctKeys(r)
  {
    var st := GetOr(perUser, e.0, Stats(0, 0));
    var next := Stats(st.sent + 1, st.done + if AnyTruthy(e.1) then 1 else 0);
    PutGet(perUser, e.0, next, e.0);
    PutKeepsDistinct(perUser, e.0, next);
    Put(perUser, e.0, next)
  }

  lemma CountUserPut(perUser: Dict<Stats>, e: Entry, st: Stats)
    requires st == Stats(GetOr(perUser, e.0, Stats(0, 0)).sent + 1,
                         GetOr(perUser, e.0, Stats(0, 0)).done + if AnyTruthy(e.1) then 1 else 0)
    ensures Put(perUser, e.0, st) == CountUser(perUser, e)
  {
  }

  /** The inner loop over one day's entries. */
  function CountDay(acc: Summary, es: seq<Entry>): Summary
    decreases |es|
  {
    if es == [] then acc
    else
      var before := CountDay(acc, es[..|es| - 1]);
      var e := es[|es| - 1];
      (CountUser(before.0, e), CountExercises(before.1, e.1))
  }

  /** The outer loop over the days. */
  function CountWeek(acc: Summary, ws: seq<seq<Entry>>): Summary
    decreases |ws|
  {
    if ws == [] then acc
    else CountDay(CountWeek(acc, ws[..|ws| - 1]), ws[|ws| - 1])
  }

  lemma CountDaySnoc(acc: Summary, es: seq<Entry>, e: Entry, pu: Dict<Stats>, pe: Dict<nat>)
    requires CountDay(acc, es) == (pu, pe)
    ensures CountDay(acc, es + [e]) == (CountUser(pu, e), CountExercises(pe, e.1))
  {
    assert (es + [e])[..|es|] == es;
  }

  lemma CountWeekSnoc(acc: Summary, ws: seq<seq<Entry>>, es: seq<Entry>)
    ensures CountWeek(acc, ws + [es]) == CountDay(CountWeek(acc, ws), es)
  {
    assert (ws + [es])[..|ws|] == ws;
  }

  /** What `summarize_week(days)` returns or raises: it raises exactly
      when one of its days does. */
  function Summarize(store: Store, days: seq<string>): (r: Result<Summary>)
    ensures r.Err? <==> exists i :: 0 <= i < |days| && DayEntries(store, days[i]).Err?
  {
    MapEnumerateOk(days, DayOf(store));
    var ws :- Parse(store, days);
    Ok(CountWeek(([], []), ws))
  }

  // ---------------------------------------------------------------------
  // The loops
  // ---------------------------------------------------------------------

  /** The loop over one exercise map. */
  method TallyExercises(perEx: Dict<nat>, exmap: Dict<Json>) returns (r: Dict<nat>)
    ensures r == CountExercises(perEx, exmap)
  {
    r := perEx;
    var i := 0;
    while i < |exmap|
      invariant 0 <= i <= |exmap|
      invariant r == CountExercises(perEx, exmap[..i])
    {
      var (ex, val) := exmap[i];
      if Truthy(val) {
        r := Put(r, ex, GetOr(r, ex, 0) + 1);
      }
      assert exmap[..i + 1][..i] == exmap[..i];
      i := i + 1;
    }
    assert exmap[..i] == exmap;
  }

  /** `for uid, exmap in comp.items()`: an exercise map that is not a dict
      raises AttributeError at `exmap.values()`. */
  method TallyDay(perUser: Dict<Stats>, perEx: Dict<nat>, comp: Dict<Json>) returns (r: Result<Summary>)
    ensures MapEnumerate(comp, ParseEntry).Ok? ==> r == Ok(CountDay((perUser, perEx), MapEnumerate(comp, ParseEntry).value))
    ensures MapEnumerate(comp, ParseEntry).Err? ==> r == Err(MapEnumerate(comp, ParseEntry).error)
  {
    var pu, pe := perUser, perEx;
    ghost var es: seq<Entry> := [];
    var k := 0;
    while k < |comp|
      invariant 0 <= k <= |comp|
      invariant MapEnumerate(comp[..k], ParseEntry) == Ok(es)
      invariant (pu, pe) == CountDay((perUser, perEx), es)
    {
      var (uid, value) := comp[k];
      if !value.Obj? {
        MapEnumerateStop(comp, ParseEntry, k);
        MapEnumerateSticky(comp, ParseEntry, k + 1);
        return Err(TypeMismatch);
      }
      var exmap := value.fields;
      MapEnumerateSnoc(comp, ParseEntry, k);
      CountDaySnoc((perUser, perEx), es, (uid, exmap), pu, pe);
      ghost var before := pu;
      var st := GetOr(pu, uid, Stats(0, 0));
      st := st.(sent := st.sent + 1);
      if AnyTruthy(exmap) {
        st := st.(done := st.done + 1);
      }
      CountUserPut(before, (uid, exmap), st);
      pu := Put(pu, uid, st);
      pe := TallyExercises(pe, exmap);
      es := es + [(uid, exmap)];
      k := k + 1;
    }
    assert comp[..k] == comp;
    return Ok((pu, pe));
  }

  /** One day of the outer loop: skip a missing file, else load it and
      count its completions. */
  method TallyFile(store: Store, day: string, perUser: Dict<Stats>, perEx: Dict<nat>) returns (r: Result<Summary>)
    ensures DayEntries(store, day).Ok? ==> r == Ok(CountDay((perUser, perEx), DayEntries(store, day).value))
    ensures DayEntries(store, day).Err? ==> r == Err(DayEntries(store, day).error)
  {
    var path := StatePath(day);
    if path !in store {
      return Ok((perUser, perEx));
    }
    var j := ReadJson(store, path);
    if j.Err? {
      return Err(j.error);
    }
    var doc := AsDict(j.value);
    if doc.Err? {
      return Err(doc.error);
    }
    var comp := AsDict(GetOr(doc.value, "completions", Obj([])));
    if comp.Err? {
      return Err(comp.error);
    }
    r := TallyDay(perUser, perEx, comp.value);
  }

  /** `summarize_week(days)`. */
  method SummarizeWeek(store: Store, days: seq<string>) returns (r: Result<Summary>)
    ensures r == Summarize(store, days)
  {
    var pu: Dict<Stats> := [];
    var pe: Dict<nat> := [];
    ghost var ws: seq<seq<Entry>> := [];
    var i := 0;
    while i < |days|
      invariant 0 <= i <= |days|
      invariant Parse(store, days[..i]) == Ok(ws)
      invariant (pu, pe) == CountWeek(([], []), ws)
    {
      var day := TallyFile(store, days[i], pu, pe);
      if day.Err? {
        MapEnumerateStop(days, DayOf(store), i);
        MapEnumerateSticky(days, DayOf(store), i + 1);
        return Err(day.error);
      }
      MapEnumerateSnoc(days, DayOf(store), i);
      CountWeekSnoc(([], []), ws, DayEntries(store, days[i]).value);
      ws := ws + [DayEntries(store, days[i]).value];
      pu, pe := day.value.0, day.value.1;
      i := i + 1;
    }
    assert days[..i] == days;
    return Ok((pu, pe));
  }

  // ---------------------------------------------------------------------
  // Days, files and errors
  // ---------------------------------------------------------------------

  /** Each day's entries are its completions in file order, with the
      exercise maps unwrapped. */
  lemma DayEntriesShape(store: Store, day: string)
    requires DayEntries(store, day).Ok?
    ensures Completions(store, day).Ok?
    ensures var comp := Completions(store, day).value;
      var es := DayEntries(store, day).value;
      && |es| == |comp|
      && forall i :: 0 <= i < |es| ==> es[i].0 == comp[i].0 && comp[i].1 == Obj(es[i].1)
  {
    MapEnumerateAt(Completions(store, day).value, ParseEntry);
  }

  /** The parsed week holds each day's entries, in the order of `days`. */
  lemma ParseAt(store: Store, days: seq<string>)
    requires Parse(store, days).Ok?
    ensures forall d :: 0 <= d < |days| ==> DayEntries(store, days[d]) == Ok(Parse(store, days).value[d])
  {
    MapEnumerateAt(days, DayOf(store));
  }

  /** A day without a state file changes neither table. */
  lemma MissingDay(store: Store, days: seq<string>, day: string)
    requires StatePath(day) !in store
    ensures Summarize(store, days + [day]) == Summarize(store, days)
  {
    var xs := days + [day];
    assert xs[..|days|] == days;
    assert DayEntries(store, day) == Ok([]);
    if Parse(store, days).Ok? {
      CountWeekSnoc(([], []), Parse(store, days).value, []);
    }
  }

  /** A week without any state file summarises to two empty tables. */
  lemma {:induction false} NoFiles(store: Store, days: seq<string>)
    requires forall i :: 0 <= i < |days| ==> StatePath(days[i]) !in store
    ensures Summarize(store, days) == Ok(([], []))
    decreases |days|
  {
    if days != [] {
      var init := days[..|days| - 1];
      NoFiles(store, init);
      MissingDay(store, init, days[|days| - 1]);
      assert init + [days[|days| - 1]] == days;
    }
  }

  /** One day raises exactly when its file exists and is not JSON, is not
      a dict, holds completions that are not a dict, or lists a user whose
      exercise map is not a dict. */
  lemma DayFails(store: Store, day: string)
    ensures DayEntries(store, day).Err? <==>
      var path := StatePath(day);
      && path in store
      && (|| store[path].Unparseable?
          || !store[path].value.Obj?
          || !GetOr(store[path].value.fields, "completions", Obj([])).Obj?
          || exists i :: 0 <= i < |GetOr(store[path].value.fields, "completions", Obj([])).fields| &&
               !GetOr(store[path].value.fields, "completions", Obj([])).fields[i].1.Obj?)
  {
    var c := Completions(store, day);
    if c.Ok? {
      MapEnumerateOk(c.value, ParseEntry);
    }
  }
}
