/** scripts/lib/plans.py: a user's own plan (`workout_splits/<u>/plan.json`)
    or the three-title default rotation, a rotation index that advances on
    every call unless a skip was recorded yesterday or later, and the
    normalisation of plan days and exercises into the email schema. */
module Plans {
  import opened Prelude
  import opened PyStr
  import opened Json
  import opened Dates
  import opened Files
  import opened Schedules
  import opened Slug

  const Rotation: seq<string> := ["Push day", "Pull day", "Leg day"]

  // ---------------------------------------------------------------------
  // Rotation
  // ---------------------------------------------------------------------

  /** `(date.fromisoformat(today) - timedelta(days=1)).isoformat()`. */
  function Yesterday(today: string): (r: Result<string>)
    ensures r.Ok? ==>
      ParseIso(today).Ok? && PrevDay(ParseIso(today).value).Ok? &&
      r.value == Iso(PrevDay(ParseIso(today).value).value)
  {
    var t :- ParseIso(today);
    var yd :- PrevDay(t);
    Ok(Iso(yd))
  }

  /** `last_action == "SKIPPED" and last_date is not None and last_date >= yd`,
      evaluated left to right: comparing a non-string date with a string
      raises TypeError. */
  function Frozen(lastAction: Json, lastDate: Json, yd: string): (r: Result<bool>)
    ensures r == Ok(true) <==> lastAction == Str("SKIPPED") && lastDate.Str? && !Lt(lastDate.s, yd)
    ensures r.Err? <==> lastAction == Str("SKIPPED") && !lastDate.Null? && !lastDate.Str?
  {
    if lastAction != Str("SKIPPED") then Ok(false)
    else if lastDate.Null? then Ok(false)
    else if lastDate.Str? then Ok(!Lt(lastDate.s, yd))
    else Err(TypeMismatch)
  }

  /** One call of `pick_today_index` on the loaded document: the index
      returned and the document saved. */
  function Step(doc: Json, today: string, total: nat): (r: Result<(nat, Dict<Json>)>)
    ensures r.Ok? ==> r.value.0 < AtLeastOne(total)
  {
    var sched :- AsDict(doc);
    var start :- IntOf(GetOr(sched, "current_index", Num(0)));
    var lastAction := GetOr(sched, "last_action", Str("NONE"));
    var lastDate := Field(sched, "last_action_date");
    var yd :- Yesterday(today);
    var freeze :- Frozen(lastAction, lastDate, yd);
    var next := NextIndex(start, AtLeastOne(total), freeze);
    Ok((next, Update(sched, next, Str("NONE"), today)))
  }

  function StoredIndex(doc: Json): Result<int>
  {
    var sched :- AsDict(doc);
    IntOf(GetOr(sched, "current_index", Num(0)))
  }

  lemma StepShape(doc: Json, today: string, total: nat)
    requires Step(doc, today, total).Ok?
    ensures doc.Obj? && StoredIndex(doc).Ok? && Yesterday(today).Ok?
    ensures Frozen(GetOr(doc.fields, "last_action", Str("NONE")), Field(doc.fields, "last_action_date"), Yesterday(today).value).Ok?
    ensures Step(doc, today, total).value.0 ==
      NextIndex(StoredIndex(doc).value, AtLeastOne(total),
                Frozen(GetOr(doc.fields, "last_action", Str("NONE")), Field(doc.fields, "last_action_date"), Yesterday(today).value).value)
  {
    var yd := Yesterday(today).value;
    var freeze := Frozen(GetOr(doc.fields, "last_action", Str("NONE")), Field(doc.fields, "last_action_date"), yd).value;
    StepOf(doc, today, total, StoredIndex(doc).value, yd, freeze);
  }

  lemma StepSavedShape(doc: Json, today: string, total: nat)
    requires Step(doc, today, total).Ok?
    ensures doc.Obj?
    ensures Step(doc, today, total).value.1 == Update(doc.fields, Step(doc, today, total).value.0, Str("NONE"), today)
  {
    var yd := Yesterday(today).value;
    var freeze := Frozen(GetOr(doc.fields, "last_action", Str("NONE")), Field(doc.fields, "last_action_date"), yd).value;
    StepOf(doc, today, total, StoredIndex(doc).value, yd, freeze);
  }

  /** Every call saves the returned index, "NONE" as the last action and
      today as its date, and leaves every other key as it was. */
  lemma StepSaves(doc: Json, today: string, total: nat, k: string)
    requires Step(doc, today, total).Ok?
    ensures var (i, saved) := Step(doc, today, total).value;
      Get(saved, k) ==
        if k == "last_action_date" then Some(Str(today))
        else if k == "last_action" then Some(Str("NONE"))
        else if k == "current_index" then Some(Num(i))
        else Get(doc.fields, k)
  {
    StepSavedShape(doc, today, total);
    var (i, saved) := Step(doc, today, total).value;
    UpdateGet(doc.fields, i, Str("NONE"), today, k);
  }

  /** The index stays exactly when a skip is recorded with a date on or
      after yesterday (as strings); otherwise it moves one step round. */
  lemma FreezeRule(doc: Json, today: string, total: nat)
    requires Step(doc, today, total).Ok?
    ensures doc.Obj? && StoredIndex(doc).Ok? && Yesterday(today).Ok?
    ensures var action := GetOr(doc.fields, "last_action", Str("NONE"));
      var date := Field(doc.fields, "last_action_date");
      var frozen := action == Str("SKIPPED") && date.Str? && !Lt(date.s, Yesterday(today).value);
      var idx := StoredIndex(doc).value % AtLeastOne(total);
      Step(doc, today, total).value.0 == if frozen then idx else (idx + 1) % AtLeastOne(total)
  {
    StepShape(doc, today, total);
  }

  /** For ISO dates the string test `last_date >= yesterday` is the calendar
      test: the recorded day is yesterday or later. */
  lemma FreezeIsCalendar(last: Date, today: Date)
    requires Valid(last) && Valid(today) && PrevDay(today).Ok?
    ensures !Lt(Iso(last), Iso(PrevDay(today).value)) <==> Ordinal(last) >= Ordinal(today) - 1
  {
    var yd := PrevDay(today).value;
    PrevDayOrdinal(today);
    IsoOrder(last, yd);
    OrdinalOrder(last, yd);
  }

  /** A second call on the same day is never frozen, since the first one
      reset the last action to "NONE": it advances again. */
  lemma SecondCallAdvances(doc: Json, today: string, total: nat, i: nat, saved: Dict<Json>)
    requires Step(doc, today, total) == Ok((i, saved))
    ensures Step(Obj(saved), today, total).Ok?
    ensures Step(Obj(saved), today, total).value.0 == (i + 1) % AtLeastOne(total)
  {
    StepSavedShape(doc, today, total);
    assert Yesterday(today).Ok?;
    UpdateGet(doc.fields, i, Str("NONE"), today, "current_index");
    UpdateGet(doc.fields, i, Str("NONE"), today, "last_action");
    SecondStep(saved, i, today, total);
  }

  lemma SecondStep(saved: Dict<Json>, i: nat, today: string, total: nat)
    requires i < AtLeastOne(total) && Yesterday(today).Ok?
    requires Get(saved, "current_index") == Some(Num(i))
    requires Get(saved, "last_action") == Some(Str("NONE"))
    ensures Step(Obj(saved), today, total).Ok?
    ensures Step(Obj(saved), today, total).value.0 == (i + 1) % AtLeastOne(total)
  {
    assert GetOr(saved, "current_index", Num(0)) == Num(i);
    assert GetOr(saved, "last_action", Str("NONE")) == Str("NONE");
    var yd := Yesterday(today).value;
    assert Frozen(Str("NONE"), Field(saved, "last_action_date"), yd) == Ok(false);
    StepOf(Obj(saved), today, total, i, yd, false);
    NextIndexInRange(i, AtLeastOne(total), false);
  }

  /** `Step` once each of its reads is known. */
  lemma StepOf(doc: Json, today: string, total: nat, start: int, yd: string, freeze: bool)
    requires doc.Obj? && IntOf(GetOr(doc.fields, "current_index", Num(0))) == Ok(start)
    requires Yesterday(today) == Ok(yd)
    requires Frozen(GetOr(doc.fields, "last_action", Str("NONE")), Field(doc.fields, "last_action_date"), yd) == Ok(freeze)
    ensures Step(doc, today, total).Ok?
    ensures Step(doc, today, total).value == (NextIndex(start, AtLeastOne(total), freeze), Update(doc.fields, NextIndex(start, AtLeastOne(total), freeze), Str("NONE"), today))
  {
  }

  /** With nothing to rotate through the index is 0. */
  lemma NoRotation(doc: Json, today: string)
    requires Step(doc, today, 0).Ok?
    ensures Step(doc, today, 0).value.0 == 0
  {
  }

  /** The step taken on what `load_sched` returned. */
  function StepFor(loaded: Result<Json>, today: string, total: nat): (r: Result<(nat, Dict<Json>)>)
    ensures r.Ok? ==> r.value.0 < AtLeastOne(total)
  {
    var doc :- loaded;
    Step(doc, today, total)
  }

  /** `pick_today_index(username, today, total)`. */
  method PickTodayIndex(store: ScheduleStore, username: string, today: string, total: nat)
    returns (r: Result<nat>)
    modifies store
    ensures var step := StepFor(old(store.Load(username)), today, total);
      && store.docs == DocsAfter(old(store.docs), username, step)
      && (step.Ok? ==> r == Ok(step.value.0))
      && (step.Err? ==> r == Err(step.error))
  {
    var loaded := store.Load(username);
    if loaded.Err? {
      return Err(loaded.error);
    }
    var step := Step(loaded.value, today, total);
    if step.Err? {
      return Err(step.error);
    }
    var sched := loaded.value.fields;
    var idx := step.value.0;
    StepSavedShape(loaded.value, today, total);
    sched := Update(sched, idx, Str("NONE"), today);
    store.Save(username, sched);
    return Ok(idx);
  }

  // ---------------------------------------------------------------------
  // Normalisation
  // ---------------------------------------------------------------------

  /** `normalize_ex(e, i)`: it fails exactly when the entry is not a dict
      or the chosen name is not a string (`.strip()` raises); the result
      has the keys id, name, sets and reps, in that order. */
  function NormalizeEx(e: Json, i: nat): (r: Result<Dict<Json>>)
    ensures r.Ok? <==> e.Obj? && RawName(e.fields, i).Str?
    ensures r.Err? ==> r.error == TypeMismatch
    ensures r.Ok? ==> Keys(r.value) == ["id", "name", "sets", "reps"]
  {
    var ed :- AsDict(e);
    var nameJ := RawName(ed, i);
    if !nameJ.Str? then Err(TypeMismatch)
    else
      NormalizedKeys(ed, i, Strip(nameJ.s));
      Ok(Normalized(ed, i, Strip(nameJ.s)))
  }

  /** `e.get("name") or e.get("exercise") or f"Exercise {i+1}"`: the name
      before stripping. */
  function RawName(ed: Dict<Json>, i: nat): (r: Json)
    ensures r == Or(Or(Field(ed, "name"), Field(ed, "exercise")), Str("Exercise " + Decimal(i + 1)))
  {
    if Truthy(Field(ed, "name")) then Field(ed, "name")
    else if Truthy(Field(ed, "exercise")) then Field(ed, "exercise")
    else Str("Exercise " + Decimal(i + 1))
  }

  /** The dict `normalize_ex` builds once the name is known. */
  function Normalized(ed: Dict<Json>, i: nat, name: string): Dict<Json>
  {
    var id := Or(Field(ed, "id"), Str(GeneratedId(name, i)));
    [("id", id), ("name", Str(name)), ("sets", Field(ed, "sets")), ("reps", Field(ed, "reps"))]
  }

  /** The id made up for an exercise without one: the slug of its name and
      position, never empty since the position contributes a digit. */
  function GeneratedId(name: string, i: nat): (r: string)
    ensures r == Slug.Slug(name + "-" + Decimal(i + 1))
    ensures r != []
  {
    var s := name + "-" + Decimal(i + 1);
    SlugShape(s);
    assert IsAsciiAlnum(s[|s| - 1]);
    Slug.Slug(s)
  }

  /** A normalised exercise has exactly the keys id, name, sets and reps; the
      name is the first truthy of name and exercise, else "Exercise i+1",
      stripped; the id is the given one when truthy, else a slug of the
      name and position, which is never empty; sets and reps are copied or
      None. It fails exactly when the entry is not a dict or the chosen name
      is not a string. */
  lemma NormalizeExFields(e: Json, i: nat)
    ensures NormalizeEx(e, i).Ok? <==> e.Obj? && RawName(e.fields, i).Str?
    ensures NormalizeEx(e, i).Ok? ==>
      var ed := e.fields;
      var r := NormalizeEx(e, i).value;
      var name := Strip(RawName(ed, i).s);
      && Keys(r) == ["id", "name", "sets", "reps"]
      && r[1].1 == Str(name)
      && (Truthy(Field(ed, "id")) ==> r[0].1 == Field(ed, "id"))
      && (!Truthy(Field(ed, "id")) ==> r[0].1 == Str(GeneratedId(name, i)))
      && r[2].1 == Field(ed, "sets") && r[3].1 == Field(ed, "reps")
  {
    if e.Obj? && RawName(e.fields, i).Str? {
      var name := Strip(RawName(e.fields, i).s);
      assert NormalizeEx(e, i) == Ok(Normalized(e.fields, i, name));
      NormalizedKeys(e.fields, i, name);
      NormalizedFields(e.fields, i, name);
    }
  }

  lemma NormalizedKeys(ed: Dict<Json>, i: nat, name: string)
    ensures Keys(Normalized(ed, i, name)) == ["id", "name", "sets", "reps"]
  {
    KeysOfFour("id", Or(Field(ed, "id"), Str(GeneratedId(name, i))), "name", Str(name),
               "sets", Field(ed, "sets"), "reps", Field(ed, "reps"));
  }

  lemma NormalizedFields(ed: Dict<Json>, i: nat, name: string)
    ensures |Normalized(ed, i, name)| == 4
    ensures Normalized(ed, i, name)[1].1 == Str(name)
    ensures Truthy(Field(ed, "id")) ==> Normalized(ed, i, name)[0].1 == Field(ed, "id")
    ensures !Truthy(Field(ed, "id")) ==> Normalized(ed, i, name)[0].1 == Str(GeneratedId(name, i))
    ensures Normalized(ed, i, name)[2].1 == Field(ed, "sets") && Normalized(ed, i, name)[3].1 == Field(ed, "reps")
  {
  }

  /** The normalised exercise wrapped as a JSON dict. */
  function NormalizeExObj(e: Json, i: nat): Result<Json>
  {
    var d :- NormalizeEx(e, i);
    Ok(Obj(d))
  }

  /** `[normalize_ex(e, i) for i, e in enumerate(raw)]`. */
  function NormalizeList(raw: seq<Json>): (r: Result<seq<Json>>)
    ensures r.Ok? ==> |r.value| == |raw|
  {
    MapEnumerate(raw, NormalizeExObj)
  }

  /** The list succeeds exactly when every entry normalises; then its i-th
      element is the i-th entry normalised at position i. Otherwise the
      first failing entry's error is the one raised. */
  lemma NormalizeListAt(raw: seq<Json>)
    ensures NormalizeList(raw).Ok? <==> forall i :: 0 <= i < |raw| ==> NormalizeEx(raw[i], i).Ok?
    ensures NormalizeList(raw).Ok? ==>
      forall i :: 0 <= i < |raw| ==> NormalizeList(raw).value[i] == Obj(NormalizeEx(raw[i], i).value)
    ensures NormalizeList(raw).Err? ==>
      exists i :: 0 <= i < |raw| && NormalizeEx(raw[i], i).Err? &&
        NormalizeList(raw).error == NormalizeEx(raw[i], i).error &&
        forall j :: 0 <= j < i ==> NormalizeEx(raw[j], j).Ok?
  {
    MapEnumerateOk(raw, NormalizeExObj);
    if NormalizeList(raw).Ok? {
      MapEnumerateAt(raw, NormalizeExObj);
    } else {
      MapEnumerateError(raw, NormalizeExObj);
      var i :| FirstFailure(raw, NormalizeExObj, i) && NormalizeList(raw).error == NormalizeExObj(raw[i], i).error;
    }
  }

  /** `normalize_user_day(day, idx)`. A normalised day is exactly {title,
      exercises}: the title is the first truthy of title and name, else
      "Day idx+1", and the exercises are the day's list normalised entry by
      entry (see NormalizeListAt). It fails when the day is not a dict, its
      exercises are not iterable, or an entry does not normalise. */
  function NormalizeUserDay(day: Json, idx: nat): (r: Result<Dict<Json>>)
    ensures r.Ok? <==>
      day.Obj? && Iterate(GetOr(day.fields, "exercises", Arr([]))).Ok? &&
      NormalizeList(Iterate(GetOr(day.fields, "exercises", Arr([]))).value).Ok?
    ensures r.Ok? ==>
      && Keys(r.value) == ["title", "exercises"]
      && r.value[0].1 == DayTitle(day.fields, idx)
      && r.value[1].1 == Arr(NormalizeList(Iterate(GetOr(day.fields, "exercises", Arr([]))).value).value)
  {
    var dd :- AsDict(day);
    var title := DayTitle(dd, idx);
    var raw :- Iterate(GetOr(dd, "exercises", Arr([])));
    var exs :- NormalizeList(raw);
    Ok([("title", title), ("exercises", Arr(exs))])
  }

  /** `day.get("title") or day.get("name") or f"Day {idx+1}"`. */
  function DayTitle(dd: Dict<Json>, idx: nat): (r: Json)
    ensures r == Or(Or(Field(dd, "title"), Field(dd, "name")), Str("Day " + Decimal(idx + 1)))
  {
    if Truthy(Field(dd, "title")) then Field(dd, "title")
    else if Truthy(Field(dd, "name")) then Field(dd, "name")
    else Str("Day " + Decimal(idx + 1))
  }


  // ---------------------------------------------------------------------
  // Loading splits and the plan
  // ---------------------------------------------------------------------

  function SplitPath(title: string): string
  {
    "splits/" + Slug.Slug(title) + ".json"
  }

  /** `load_split_by_title(title)`: read `splits/<slug(title)>.json`, keep
      its title or set the given one, and normalise its exercises. A
      missing file raises FileNotFoundError; a loaded split always holds a
      list under `exercises`. */
  function SplitByTitle(files: Store, title: string): (r: Result<Dict<Json>>)
    ensures SplitPath(title) !in files ==> r == Err(FileNotFound(SplitPath(title)))
    ensures r.Ok? ==> SplitPath(title) in files && files[SplitPath(title)].Parsed? && files[SplitPath(title)].value.Obj?
    ensures r.Ok? ==> Get(r.value, "exercises").Some? && Get(r.value, "exercises").value.Arr?
  {
    var path := SplitPath(title);
    if path !in files then Err(FileNotFound(path))
    else
      var j :- ReadJson(files, path);
      var data :- AsDict(j);
      var data := SetDefault(data, "title", Str(title));
      var raw :- Iterate(GetOr(data, "exercises", Arr([])));
      var exs :- NormalizeList(raw);
      PutGet(data, "exercises", Arr(exs), "exercises");
      Ok(Put(data, "exercises", Arr(exs)))
  }

  /** `load_split_by_title(title)` step by step: `data.setdefault("title",
      title)`, then `data["exercises"] = [normalize_ex(e, i) ...]`. */
  method LoadSplitByTitle(files: Store, title: string) returns (r: Result<Dict<Json>>)
    ensures r == SplitByTitle(files, title)
  {
    var path := SplitPath(title);
    if path !in files {
      return Err(FileNotFound(path));
    }
    var j := ReadJson(files, path);
    if j.Err? {
      return Err(j.error);
    }
    var d := AsDict(j.value);
    if d.Err? {
      return Err(d.error);
    }
    var data := d.value;
    data := SetDefault(data, "title", Str(title));
    var raw := Iterate(GetOr(data, "exercises", Arr([])));
    if raw.Err? {
      return Err(raw.error);
    }
    var exs := NormalizeList(raw.value);
    if exs.Err? {
      return Err(exs.error);
    }
    data := Put(data, "exercises", Arr(exs.value));
    return Ok(data);
  }

  /** The loaded split keeps the file's title if it has one, else takes the
      requested title; its exercises are normalised position by position;
      every other key is the file's. A missing file raises
      FileNotFoundError. */
  lemma SplitByTitleFields(files: Store, title: string, k: string)
    ensures SplitPath(title) !in files ==> SplitByTitle(files, title) == Err(FileNotFound(SplitPath(title)))
    ensures SplitByTitle(files, title).Ok? ==>
      var path := SplitPath(title);
      && path in files && files[path].Parsed? && files[path].value.Obj?
      && var d := files[path].value.fields;
         var r := SplitByTitle(files, title).value;
         var raw := Iterate(GetOr(d, "exercises", Arr([])));
         && Get(r, "title") == (if HasKey(d, "title") then Get(d, "title") else Some(Str(title)))
         && raw.Ok? && NormalizeList(raw.value).Ok?
         && Get(r, "exercises") == Some(Arr(NormalizeList(raw.value).value))
         && (k != "title" && k != "exercises" ==> Get(r, k) == Get(d, k))
  {
    var path := SplitPath(title);
    if SplitByTitle(files, title).Ok? {
      var d := files[path].value.fields;
      var d1 := SetDefault(d, "title", Str(title));
      assert GetOr(d1, "exercises", Arr([])) == GetOr(d, "exercises", Arr([])) by {
        if !HasKey(d, "title") {
          PutGet(d, "title", Str(title), "exercises");
          assert d1 == Put(d, "title", Str(title));
        }
      }
      var raw := Iterate(GetOr(d, "exercises", Arr([])));
      var exs := NormalizeList(raw.value).value;
      PutGet(d1, "exercises", Arr(exs), "title");
      PutGet(d1, "exercises", Arr(exs), "exercises");
      PutGet(d1, "exercises", Arr(exs), k);
      if !HasKey(d, "title") {
        assert d1 == Put(d, "title", Str(title));
        PutGet(d, "title", Str(title), "title");
        PutGet(d, "title", Str(title), k);
      }
    }
  }

  /** `len(days)`: lists, strings and dicts have a length. */
  function Len(j: Json): (r: Result<nat>)
    ensures r.Ok? ==> (r.value == 0 <==> !Truthy(j))
  {
    match j
    case Arr(xs) => Ok(|xs|)
    case Str(s) => Ok(|s|)
    case Obj(fs) => Ok(|fs|)
    case _ => Err(TypeMismatch)
  }

  /** `days[idx]`: a list item, a one-character string, or KeyError for a
      dict (its keys are strings). */
  function Index(j: Json, idx: nat): Result<Json>
    requires Len(j).Ok? && idx < Len(j).value
  {
    match j
    case Arr(xs) => Ok(xs[idx])
    case Str(s) => Ok(Str([s[idx]]))
    case Obj(_) => Err(KeyMissing(Decimal(idx)))
  }

  const NoDays: Dict<Json> := [("title", Str("No days configured")), ("exercises", Arr([]))]

  function PlanPath(username: string): string
  {
    "workout_splits/" + username + "/plan.json"
  }

  /** `load_user_plan(username)`: the parsed plan, or None without a file. */
  function LoadUserPlan(files: Store, username: string): (r: Result<Option<Json>>)
    ensures PlanPath(username) !in files ==> r == Ok(None)
    ensures PlanPath(username) in files ==> (r.Ok? <==> files[PlanPath(username)].Parsed?)
    ensures r.Ok? && r.value.Some? ==> r.value.value == files[PlanPath(username)].value
  {
    var path := PlanPath(username);
    if path in files then
      var j :- ReadJson(files, path);
      Ok(Some(j))
    else Ok(None)
  }

  /** Whether `if user_plan:` takes the plan branch. */
  predicate HasPlan(plan: Result<Option<Json>>)
  {
    plan.Ok? && plan.value.Some? && Truthy(plan.value.value)
  }

  /** `load_split_by_title(ROTATION[idx])`. */
  function DefaultDay(files: Store, idx: nat): Result<Dict<Json>>
    requires idx < |Rotation|
  {
    SplitByTitle(files, Rotation[idx])
  }

  /** `normalize_user_day(days[idx], idx)`. */
  function UserDay(days: Json, idx: nat): Result<Dict<Json>>
    requires Len(days).Ok? && idx < Len(days).value
  {
    var day :- Index(days, idx);
    NormalizeUserDay(day, idx)
  }

  /** Lines 28-34 of `pick_plan_and_day`, for a truthy plan: a plan whose
      days are empty answers "No days configured" without touching the
      rotation; otherwise the rotation runs over `len(days)` and the chosen
      day is normalised. The rotation is saved even when the chosen day
      then fails to normalise. */
  method PickFromPlan(store: ScheduleStore, username: string, today: string, plan: Json)
    returns (r: Result<(Option<Json>, Dict<Json>)>)
    modifies store
    ensures !plan.Obj? ==> r == Err(TypeMismatch) && store.docs == old(store.docs)
    ensures plan.Obj? && !Truthy(GetOr(plan.fields, "days", Arr([]))) ==>
      r == Ok((Some(plan), NoDays)) && store.docs == old(store.docs)
    ensures plan.Obj? && Truthy(GetOr(plan.fields, "days", Arr([]))) ==>
      var days := GetOr(plan.fields, "days", Arr([]));
      && (Len(days).Err? ==> r == Err(Len(days).error) && store.docs == old(store.docs))
      && (Len(days).Ok? ==>
           var step := StepFor(old(store.Load(username)), today, Len(days).value);
           && store.docs == DocsAfter(old(store.docs), username, step)
           && (step.Err? ==> r == Err(step.error))
           && (step.Ok? ==>
                 && step.value.0 < Len(days).value
                 && var day := UserDay(days, step.value.0);
                    && (day.Err? ==> r == Err(day.error))
                    && (day.Ok? ==> r == Ok((Some(plan), day.value)))))
  {
    if !plan.Obj? {
      return Err(TypeMismatch);
    }
    var days := GetOr(plan.fields, "days", Arr([]));
    if !Truthy(days) {
      return Ok((Some(plan), NoDays));
    }
    var n := Len(days);
    if n.Err? {
      return Err(n.error);
    }
    var idx := PickTodayIndex(store, username, today, n.value);
    if idx.Err? {
      return Err(idx.error);
    }
    var day := Index(days, idx.value);
    if day.Err? {
      return Err(day.error);
    }
    var normalized := NormalizeUserDay(day.value, idx.value);
    if normalized.Err? {
      return Err(normalized.error);
    }
    return Ok((Some(plan), normalized.value));
  }

  /** Lines 37-39 of `pick_plan_and_day`: rotate over the three default
      titles and load the split named by the chosen one. */
  method PickFromDefaults(files: Store, store: ScheduleStore, username: string, today: string)
    returns (r: Result<(Option<Json>, Dict<Json>)>)
    modifies store
    ensures var step := StepFor(old(store.Load(username)), today, |Rotation|);
      && store.docs == DocsAfter(old(store.docs), username, step)
      && (step.Err? ==> r == Err(step.error))
      && (step.Ok? ==>
            && step.value.0 < |Rotation|
            && var split := DefaultDay(files, step.value.0);
               && (split.Err? ==> r == Err(split.error))
               && (split.Ok? ==> r == Ok((None, split.value))))
  {
    var idx := PickTodayIndex(store, username, today, |Rotation|);
    if idx.Err? {
      return Err(idx.error);
    }
    var split := DefaultDay(files, idx.value);
    if split.Err? {
      return Err(split.error);
    }
    return Ok((None, split.value));
  }

  /** `pick_plan_and_day(username, today)`: a truthy user plan decides the
      day (see PickFromPlan); no plan, or a falsy one, falls back to the
      default rotation (see PickFromDefaults). A plan file that is not JSON
      raises before anything is saved. */
  method PickPlanAndDay(files: Store, store: ScheduleStore, username: string, today: string)
    returns (r: Result<(Option<Json>, Dict<Json>)>)
    modifies store
    ensures LoadUserPlan(files, username).Err? ==>
      r == Err(LoadUserPlan(files, username).error) && store.docs == old(store.docs)
    ensures HasPlan(LoadUserPlan(files, username)) ==>
      var plan := LoadUserPlan(files, username).value.value;
      && (!plan.Obj? ==> r == Err(TypeMismatch) && store.docs == old(store.docs))
      && (plan.Obj? && !Truthy(GetOr(plan.fields, "days", Arr([]))) ==>
            r == Ok((Some(plan), NoDays)) && store.docs == old(store.docs))
      && (plan.Obj? && Truthy(GetOr(plan.fields, "days", Arr([]))) ==>
            var days := GetOr(plan.fields, "days", Arr([]));
            && (Len(days).Err? ==> r == Err(Len(days).error) && store.docs == old(store.docs))
            && (Len(days).Ok? ==>
                 var step := StepFor(old(store.Load(username)), today, Len(days).value);
                 && store.docs == DocsAfter(old(store.docs), username, step)
                 && (step.Err? ==> r == Err(step.error))
                 && (step.Ok? ==>
                       && step.value.0 < Len(days).value
                       && var day := UserDay(days, step.value.0);
                          && (day.Err? ==> r == Err(day.error))
                          && (day.Ok? ==> r == Ok((Some(plan), day.value))))))
    ensures LoadUserPlan(files, username).Ok? && !HasPlan(LoadUserPlan(files, username)) ==>
      var step := StepFor(old(store.Load(username)), today, |Rotation|);
      && store.docs == DocsAfter(old(store.docs), username, step)
      && (step.Err? ==> r == Err(step.error))
      && (step.Ok? ==>
            && step.value.0 < |Rotation|
            && var split := DefaultDay(files, step.value.0);
               && (split.Err? ==> r == Err(split.error))
               && (split.Ok? ==> r == Ok((None, split.value))))
  {
    var userPlan := LoadUserPlan(files, username);
    if userPlan.Err? {
      return Err(userPlan.error);
    }
    if userPlan.value.Some? && Truthy(userPlan.value.value) {
      r := PickFromPlan(store, username, today, userPlan.value.value);
    } else {
      r := PickFromDefaults(files, store, username, today);
    }
  }
}
