/** How scripts/send_daily.py chooses the day's split: the weekday schedule
    in `config/schedule.json` first (a split file or a rest day), then a
    one-day custom plan in the user's activity file, then the default
    rotation over five titles. */
module DailySplits {
  import opened Prelude
  import opened PyStr
  import opened Json
  import opened Dates
  import opened Files
  import opened Schedules
  import Slug
  import DailyRotation

  /** `DEFAULT_ROTATION_TITLES`. */
  const RotationTitles: seq<string> :=
    ["Push Day", "Pull Day", "Leg + Abs Day", "Focus Day", "Full Body Power Day"]

  /** `TITLE_TO_FILE`: the file under `splits/` for each default title. */
  const TitleToFile: Dict<string> := [
    ("Push Day", "Push_Day.json"),
    ("Pull Day", "Pull_Day.json"),
    ("Leg + Abs Day", "Leg_plus_Abs_Day.json"),
    ("Focus Day", "Focus_Day.json"),
    ("Full Body Power Day", "Full_Body_Power_Day.json")
  ]

  function SplitsPath(name: string): string
  {
    "splits/" + name
  }

  // ---------------------------------------------------------------------
  // load_split_file
  // ---------------------------------------------------------------------

  /** The title given to a split file without one: its stem with `-` and
      then `_` written as spaces. */
  function StemTitle(path: string): string
  {
    Replace(Replace(Stem(path), "-", " "), "_", " ")
  }

  /** What `load_split_file(p)` returns: it loads exactly when the file
      exists and holds a JSON dict, and raises FileNotFoundError exactly
      when the file is missing. */
  function SplitFile(files: Store, path: string): (r: Result<Dict<Json>>)
    ensures r.Ok? <==> path in files && files[path].Parsed? && files[path].value.Obj?
    ensures path !in files ==> r == Err(FileNotFound(path))
    ensures r.Err? && r.error.FileNotFound? ==> path !in files
  {
    var j :- ReadJson(files, path);
    var data :- AsDict(j);
    var titled := if HasKey(data, "title") then data else Put(data, "title", Str(StemTitle(path)));
    Ok(Put(titled, "exercises", GetOr(titled, "exercises", Arr([]))))
  }

  /** `load_split_file(p)`: read the file, fill in a missing title, and
      store `exercises` (an empty list when absent). */
  method LoadSplitFile(files: Store, path: string) returns (r: Result<Dict<Json>>)
    ensures r == SplitFile(files, path)
  {
    var j := ReadJson(files, path);
    if j.Err? {
      return Err(j.error);
    }
    if !j.value.Obj? {
      return Err(TypeMismatch);
    }
    var data := j.value.fields;
    if !HasKey(data, "title") {
      data := Put(data, "title", Str(StemTitle(path)));
    }
    data := Put(data, "exercises", GetOr(data, "exercises", Arr([])));
    return Ok(data);
  }

  /** A split file loads exactly when it exists, is JSON and holds a dict.
      The result keeps the file's title or takes the stem title, has
      `exercises` (the file's, else an empty list), and keeps every other
      key as the file has it. */
  lemma SplitFileFields(files: Store, path: string, k: string)
    ensures SplitFile(files, path).Ok? <==> path in files && files[path].Parsed? && files[path].value.Obj?
    ensures path !in files ==> SplitFile(files, path) == Err(FileNotFound(path))
    ensures SplitFile(files, path).Ok? ==>
      var d := files[path].value.fields;
      var r := SplitFile(files, path).value;
      && Get(r, "title") == (if HasKey(d, "title") then Get(d, "title") else Some(Str(StemTitle(path))))
      && Get(r, "exercises") == Some(GetOr(d, "exercises", Arr([])))
      && (k != "title" && k != "exercises" ==> Get(r, k) == Get(d, k))
  {
    if SplitFile(files, path).Ok? {
      var d := files[path].value.fields;
      var titled := if HasKey(d, "title") then d else Put(d, "title", Str(StemTitle(path)));
      var ex := GetOr(titled, "exercises", Arr([]));
      if !HasKey(d, "title") {
        PutGet(d, "title", Str(StemTitle(path)), "title");
        PutGet(d, "title", Str(StemTitle(path)), "exercises");
        PutGet(d, "title", Str(StemTitle(path)), k);
      }
      assert ex == GetOr(d, "exercises", Arr([]));
      PutGet(titled, "exercises", ex, "title");
      PutGet(titled, "exercises", ex, "exercises");
      PutGet(titled, "exercises", ex, k);
    }
  }

  // ---------------------------------------------------------------------
  // load_default_split_by_title
  // ---------------------------------------------------------------------

  /** The file `TITLE_TO_FILE` names for a title, if any. */
  function MappedPath(title: string): Option<string>
  {
    match Get(TitleToFile, title)
    case Some(f) => Some(SplitsPath(f))
    case None => None
  }

  /** The fallback file `splits/<slug(title)>.json`. */
  function SlugPath(title: string): string
  {
    SplitsPath(Slug.Slug(title) + ".json")
  }

  /** `load_default_split_by_title(title)`: it raises FileNotFoundError
      exactly when neither the mapped file nor the slug file exists. */
  function DefaultSplitByTitle(files: Store, title: string): (r: Result<Dict<Json>>)
    ensures r.Err? && r.error.FileNotFound? <==>
      !(MappedPath(title).Some? && MappedPath(title).value in files) && SlugPath(title) !in files
  {
    var mapped := MappedPath(title);
    if mapped.Some? && mapped.value in files then SplitFile(files, mapped.value)
    else if SlugPath(title) in files then SplitFile(files, SlugPath(title))
    else Err(FileNotFound(SlugPath(title)))
  }

  /** The mapped file wins when it exists; otherwise the slug file is
      tried; with neither the call raises FileNotFoundError, which no
      existing file can raise. */
  lemma DefaultSplitOrder(files: Store, title: string)
    ensures var mapped := MappedPath(title);
      && (mapped.Some? && mapped.value in files ==> DefaultSplitByTitle(files, title) == SplitFile(files, mapped.value))
      && (!(mapped.Some? && mapped.value in files) && SlugPath(title) in files ==>
            DefaultSplitByTitle(files, title) == SplitFile(files, SlugPath(title)))
      && (DefaultSplitByTitle(files, title) == Err(FileNotFound(SlugPath(title))) <==>
            !(mapped.Some? && mapped.value in files) && SlugPath(title) !in files)
  {
    var mapped := MappedPath(title);
    if mapped.Some? && mapped.value in files {
      SplitFileFields(files, mapped.value, "");
    } else if SlugPath(title) in files {
      SplitFileFields(files, SlugPath(title), "");
    }
  }

  /** Every default rotation title has a mapped file, so the slug fallback
      only matters when that file is missing. */
  lemma RotationTitlesMapped(i: nat)
    requires i < |RotationTitles|
    ensures MappedPath(RotationTitles[i]).Some?
    ensures MappedPath(RotationTitles[i]).value == SplitsPath(TitleToFile[i].1)
  {
    IndexOfIs(TitleToFile, RotationTitles[i], i);
  }

  // ---------------------------------------------------------------------
  // load_custom_plan_for_today
  // ---------------------------------------------------------------------

  /** `User History/<username>/<yyyy>-<mm>/<today>.json`. */
  function HistoryPath(username: string, yyyy: string, mm: string, today: string): string
  {
    "User History/" + username + "/" + yyyy + "-" + mm + "/" + today + ".json"
  }

  /** `{"title": plan.get("title", "Custom Session"), "exercises":
      plan.get("exercises", [])}`. */
  function CustomSplit(plan: Dict<Json>): Dict<Json>
  {
    [("title", GetOr(plan, "title", Str("Custom Session"))), ("exercises", GetOr(plan, "exercises", Arr([])))]
  }

  /** What `load_custom_plan_for_today(username, today)` returns: None for
      no file, an unreadable file or no truthy `custom_plan`. The date must
      split into three parts on `-`; the activity document and the plan
      must be dicts (their `.get` is outside the `try`). */
  function CustomPlanForToday(files: Store, username: string, today: string): (r: Result<Option<Dict<Json>>>)
    ensures |SplitOn(today, '-')| != 3 ==> r == Err(BadDateSplit(today))
    ensures r.Err? ==> r.error == BadDateSplit(today) || r.error == TypeMismatch
    ensures r.Ok? && r.value.Some? ==>
      |r.value.value| == 2 && r.value.value[0].0 == "title" && r.value.value[1].0 == "exercises"
  {
    var parts := SplitOn(today, '-');
    if |parts| != 3 then Err(BadDateSplit(today))
    else
      var path := HistoryPath(username, parts[0], parts[1], today);
      if path !in files || files[path].Unparseable? then Ok(None)
      else
        var data :- AsDict(files[path].value);
        var plan := Field(data, "custom_plan");
        if !Truthy(plan) then Ok(None)
        else
          var pd :- AsDict(plan);
          Ok(Some(CustomSplit(pd)))
  }

  lemma CustomSplitGet(plan: Dict<Json>)
    ensures Keys(CustomSplit(plan)) == ["title", "exercises"]
    ensures Get(CustomSplit(plan), "title") == Some(GetOr(plan, "title", Str("Custom Session")))
    ensures Get(CustomSplit(plan), "exercises") == Some(GetOr(plan, "exercises", Arr([])))
  {
    IndexOfIs(CustomSplit(plan), "title", 0);
    IndexOfIs(CustomSplit(plan), "exercises", 1);
  }

  /** A formatted date splits on `-` into its year, month and day. */
  lemma IsoSplit(s: string)
    requires ParseIso(s).Ok?
    ensures SplitOn(s, '-') == [s[..4], s[5..7], s[8..]]
  {
    assert s == s[..4] + "-" + s[5..7] + "-" + s[8..];
    assert s == s[..4] + ['-'] + (s[5..7] + ['-'] + s[8..]);
    assert '-' !in s[..4] && '-' !in s[5..7] && '-' !in s[8..] by {
      assert AllDigits(s[..4]) && AllDigits(s[5..7]) && AllDigits(s[8..]);
    }
    SplitPrefix(s[..4], '-', s[5..7] + ['-'] + s[8..]);
    SplitPrefix(s[5..7], '-', s[8..]);
    SplitNoSep(s[8..], '-');
  }

  /** For an ISO date the activity file is `User History/<u>/<YYYY-MM>/<date>.json`;
      a plan is found only in a readable dict file with a truthy dict
      `custom_plan`, and has exactly `title` (default "Custom Session") and
      `exercises` (default []). */
  lemma CustomPlanShape(files: Store, username: string, today: string)
    requires ParseIso(today).Ok?
    ensures var path := "User History/" + username + "/" + today[..7] + "/" + today + ".json";
      var r := CustomPlanForToday(files, username, today);
      && (path !in files || files[path].Unparseable? ==> r == Ok(None))
      && (r.Ok? && r.value.Some? ==>
            && path in files && files[path].Parsed? && files[path].value.Obj?
            && var plan := Field(files[path].value.fields, "custom_plan");
               && Truthy(plan) && plan.Obj?
               && Keys(r.value.value) == ["title", "exercises"]
               && Get(r.value.value, "title") == Some(GetOr(plan.fields, "title", Str("Custom Session")))
               && Get(r.value.value, "exercises") == Some(GetOr(plan.fields, "exercises", Arr([]))))
  {
    IsoSplit(today);
    assert today[..7] == today[..4] + "-" + today[5..7];
    var path := HistoryPath(username, today[..4], today[5..7], today);
    assert path == "User History/" + username + "/" + today[..7] + "/" + today + ".json";
    var r := CustomPlanForToday(files, username, today);
    if r.Ok? && r.value.Some? {
      CustomSplitGet(Field(files[path].value.fields, "custom_plan").fields);
    }
  }

  // ---------------------------------------------------------------------
  // pick_scheduled_split_or_rest
  // ---------------------------------------------------------------------

  datatype Scheduled = NoSchedule | Rest(payload: Dict<Json>) | Split(split: Dict<Json>)

  const SchedulePath: string := "config/schedule.json"

  const RestPayload: Dict<Json> := [
    ("title", Str("Rest Day")),
    ("message", Str("Today is a rest day. If you still want to train, use Customized Session to log a light or mobility workout."))
  ]

  /** None, a blank string or any-case "rest" (after stripping). */
  predicate IsRestEntry(e: Json)
  {
    e.Null? || (e.Str? && Strip(e.s) == "") || (e.Str? && Lower(Strip(e.s)) == "rest")
  }

  /** What `pick_scheduled_split_or_rest(today)` returns: the caller falls
      back exactly when there is no schedule file, and the only rest
      payload is the fixed one. */
  function ScheduledSplit(files: Store, today: string): (r: Result<Scheduled>)
    ensures r == Ok(NoSchedule) <==> SchedulePath !in files
    ensures r.Ok? && r.value.Rest? ==> r.value.payload == RestPayload
  {
    if SchedulePath !in files then Ok(NoSchedule)
    else
      var sched :- ReadJson(files, SchedulePath);
      var day :- ParseIso(today);
      var sd :- AsDict(sched);
      var weekday := WeekdayName(day);
      var entry := Field(sd, weekday);
      if IsRestEntry(entry) then Ok(Rest(RestPayload))
      else if !entry.Str? then Err(BadScheduleEntry(weekday))
      else if SplitsPath(entry.s) !in files then Err(FileNotFound(SplitsPath(entry.s)))
      else
        var s :- SplitFile(files, SplitsPath(entry.s));
        Ok(Split(s))
  }

  /** The schedule's entry for today's weekday. */
  function TodayEntry(files: Store, today: string): Json
    requires SchedulePath in files && files[SchedulePath].Parsed? && files[SchedulePath].value.Obj?
    requires ParseIso(today).Ok?
  {
    Field(files[SchedulePath].value.fields, WeekdayName(ParseIso(today).value))
  }

  /** With a readable schedule: today is a rest day exactly when its entry
      is null, blank or "rest" in any case; a non-string entry raises; a
      string entry names the split file under `splits/` that is loaded. */
  lemma ScheduleRule(files: Store, today: string)
    requires SchedulePath in files && files[SchedulePath].Parsed? && files[SchedulePath].value.Obj?
    requires ParseIso(today).Ok?
    ensures var entry := TodayEntry(files, today);
      var r := ScheduledSplit(files, today);
      var weekday := WeekdayName(ParseIso(today).value);
      && (r == Ok(Rest(RestPayload)) <==> IsRestEntry(entry))
      && (r == Err(BadScheduleEntry(weekday)) <==> !entry.Null? && !entry.Str?)
      && (r.Ok? && r.value.Split? ==>
            && entry.Str? && !IsRestEntry(entry)
            && Ok(r.value.split) == SplitFile(files, SplitsPath(entry.s)))
      && (entry.Str? && !IsRestEntry(entry) ==>
            if SplitsPath(entry.s) !in files then r == Err(FileNotFound(SplitsPath(entry.s)))
            else SplitFile(files, SplitsPath(entry.s)).Ok? ==> r == Ok(Split(SplitFile(files, SplitsPath(entry.s)).value)))
  {
    var entry := TodayEntry(files, today);
    if entry.Str? && !IsRestEntry(entry) && SplitsPath(entry.s) in files {
      var p := SplitsPath(entry.s);
      if files[p].Unparseable? {
        assert SplitFile(files, p) == Err(JsonDecodeError(p));
      } else if !files[p].value.Obj? {
        assert SplitFile(files, p) == Err(TypeMismatch);
      }
    }
  }

  /** The rest test ignores letter case ... */
  lemma RestAnyCase()
    ensures IsRestEntry(Null) && IsRestEntry(Str("")) && IsRestEntry(Str("REST"))
  {
    assert !IsSpace('R') && !IsSpace('T');
    assert LStripWhere("REST", IsSpace) == "REST";
    assert RStripWhere("REST", IsSpace) == "REST";
    assert Lower("REST") == "rest";
  }

  /** ... and surrounding blanks. */
  lemma RestPadded()
    ensures IsRestEntry(Str(" Rest "))
  {
    RestSpelled();
    LStripOne(' ', "Rest" + [' ']);
    RStripOne("Rest", ' ');
    LowerRest();
  }

  lemma RestSpelled()
    ensures " Rest " == [' '] + ("Rest" + [' '])
    ensures !IsSpace('R') && !IsSpace('t')
  {
  }

  lemma LowerRest()
    ensures Lower("Rest") == "rest"
  {
  }

  /** One leading blank in front of a non-blank is stripped. */
  lemma LStripOne(c: char, u: string)
    requires IsSpace(c) && u != [] && !IsSpace(u[0])
    ensures LStripWhere([c] + u, IsSpace) == u
  {
    assert ([c] + u)[1..] == u;
  }

  /** One trailing blank behind a non-blank is stripped. */
  lemma RStripOne(u: string, c: char)
    requires IsSpace(c) && u != [] && !IsSpace(u[|u| - 1])
    ensures RStripWhere(u + [c], IsSpace) == u
  {
    assert (u + [c])[..|u|] == u;
  }

  /** A file name and a number are not rest entries. */
  lemma NotRest()
    ensures !IsRestEntry(Str("Push_Day.json")) && !IsRestEntry(Num(0))
  {
    var f := "Push_Day.json";
    assert !IsSpace('P') && !IsSpace('n');
    assert LStripWhere(f, IsSpace) == f;
    assert RStripWhere(f, IsSpace) == f;
    assert |Lower(f)| == 13;
  }

  // ---------------------------------------------------------------------
  // pick_split_for_today
  // ---------------------------------------------------------------------

  /** `custom and custom.get("exercises")`. */
  predicate HasCustomExercises(custom: Option<Dict<Json>>)
  {
    custom.Some? && custom.value != [] && Truthy(Field(custom.value, "exercises"))
  }

  /** The rest marker put in front of the rest payload: `{"__rest__": True, **payload}`. */
  function RestSplit(payload: Dict<Json>): Dict<Json>
  {
    [("__rest__", Bool(true))] + payload
  }

  /** Whether `pick_split_for_today` reaches the rotation: no schedule file
      and a custom-plan lookup that did not raise. */
  predicate Rotates(files: Store, username: string, today: string)
  {
    ScheduledSplit(files, today) == Ok(NoSchedule) && CustomPlanForToday(files, username, today).Ok?
  }

  /** What `pick_split_for_today` returns, given the rotation step it takes
      when it reaches the rotation. */
  function PickedSplit(files: Store, username: string, today: string,
                       step: Result<(nat, Dict<Json>)>): (r: Result<Dict<Json>>)
    requires step.Ok? ==> step.value.0 < |RotationTitles|
    ensures ScheduledSplit(files, today).Err? ==> r == Err(ScheduledSplit(files, today).error)
    ensures Rotates(files, username, today) && step.Err? ==> r == Err(step.error)
  {
    var mode :- ScheduledSplit(files, today);
    match mode
    case Rest(p) => Ok(RestSplit(p))
    case Split(s) => Ok(s)
    case NoSchedule =>
      var custom :- CustomPlanForToday(files, username, today);
      if step.Err? then Err(step.error)
      else if HasCustomExercises(custom) then Ok(custom.value)
      else DefaultSplitByTitle(files, RotationTitles[step.value.0])
  }

  /** The rotation step `pick_today_index(username, today, 5)` takes. */
  function RotationStep(loaded: Result<Json>, today: string): (r: Result<(nat, Dict<Json>)>)
    ensures r.Ok? ==> r.value.0 < |RotationTitles|
  {
    DailyRotation.StepFor(loaded, today, |RotationTitles|)
  }

  /** `pick_split_for_today(username, today)`. The rotation is advanced
      only when there is no schedule, and then even when a custom plan is
      used instead of the rotation's split. */
  method PickSplitForToday(files: Store, store: ScheduleStore, username: string, today: string)
    returns (r: Result<Dict<Json>>)
    modifies store
    ensures var step := RotationStep(old(store.Load(username)), today);
      && r == PickedSplit(files, username, today, step)
      && store.docs == (if Rotates(files, username, today) then DocsAfter(old(store.docs), username, step) else old(store.docs))
  {
    var mode := ScheduledSplit(files, today);
    if mode.Err? {
      return Err(mode.error);
    }
    if mode.value.Rest? {
      return Ok(RestSplit(mode.value.payload));
    }
    if mode.value.Split? {
      return Ok(mode.value.split);
    }
    var custom := CustomPlanForToday(files, username, today);
    if custom.Err? {
      return Err(custom.error);
    }
    var idx := DailyRotation.PickTodayIndex(store, username, today, |RotationTitles|);
    if idx.Err? {
      return Err(idx.error);
    }
    if HasCustomExercises(custom.value) {
      return Ok(custom.value.value);
    }
    r := DefaultSplitByTitle(files, RotationTitles[idx.value]);
  }

  /** A schedule decides alone: whatever the rotation would do, a rest day
      is the marked rest payload and a scheduled split is returned as
      loaded, and the rotation is not touched. */
  lemma ScheduleFirst(files: Store, username: string, today: string, step: Result<(nat, Dict<Json>)>)
    requires step.Ok? ==> step.value.0 < |RotationTitles|
    requires ScheduledSplit(files, today).Ok? && !ScheduledSplit(files, today).value.NoSchedule?
    ensures !Rotates(files, username, today)
    ensures ScheduledSplit(files, today).value.Rest? ==>
      && PickedSplit(files, username, today, step) == Ok(RestSplit(RestPayload))
      && Get(RestSplit(RestPayload), "__rest__") == Some(Bool(true))
      && Get(RestSplit(RestPayload), "exercises") == None
    ensures ScheduledSplit(files, today).value.Split? ==>
      PickedSplit(files, username, today, step) == Ok(ScheduledSplit(files, today).value.split)
  {
    var m := ScheduledSplit(files, today).value;
    PickedScheduled(files, username, today, step, m);
    if m.Rest? {
        RestSplitFields();
    }
  }

  lemma PickedScheduled(files: Store, username: string, today: string,
                        step: Result<(nat, Dict<Json>)>, m: Scheduled)
    requires step.Ok? ==> step.value.0 < |RotationTitles|
    requires ScheduledSplit(files, today) == Ok(m) && !m.NoSchedule?
    ensures !Rotates(files, username, today)
    ensures m.Rest? ==> PickedSplit(files, username, today, step) == Ok(RestSplit(m.payload))
    ensures m.Split? ==> PickedSplit(files, username, today, step) == Ok(m.split)
  {
  }

  /** The rest split is marked and lists no exercises. */
  lemma RestSplitFields()
    ensures Get(RestSplit(RestPayload), "__rest__") == Some(Bool(true))
    ensures Get(RestSplit(RestPayload), "exercises") == None
  {
    var rs := RestSplit(RestPayload);
    IndexOfIs(rs, "__rest__", 0);
    assert !HasKey(rs, "exercises") by {
      assert forall i :: 0 <= i < |rs| ==> rs[i].0 in {"__rest__", "title", "message"};
    }
  }

  /** Without a schedule, a custom plan with exercises is used for today in
      place of the rotation's split, yet the rotation still advances. */
  lemma CustomSecond(files: Store, username: string, today: string, step: Result<(nat, Dict<Json>)>)
    requires step.Ok?
    requires step.value.0 < |RotationTitles|
    requires ScheduledSplit(files, today) == Ok(NoSchedule)
    requires CustomPlanForToday(files, username, today).Ok?
    requires HasCustomExercises(CustomPlanForToday(files, username, today).value)
    ensures Rotates(files, username, today)
    ensures PickedSplit(files, username, today, step) == Ok(CustomPlanForToday(files, username, today).value.value)
  {
  }

  /** Otherwise the split is the default titled by the rotation index: its
      mapped file under `splits/` when that exists. */
  lemma RotationLast(files: Store, username: string, today: string, step: Result<(nat, Dict<Json>)>)
    requires step.Ok?
    requires step.value.0 < |RotationTitles|
    requires ScheduledSplit(files, today) == Ok(NoSchedule)
    requires CustomPlanForToday(files, username, today).Ok?
    requires !HasCustomExercises(CustomPlanForToday(files, username, today).value)
    ensures PickedSplit(files, username, today, step) == DefaultSplitByTitle(files, RotationTitles[step.value.0])
    ensures SplitsPath(TitleToFile[step.value.0].1) in files ==>
      PickedSplit(files, username, today, step) == SplitFile(files, SplitsPath(TitleToFile[step.value.0].1))
  {
    RotationTitlesMapped(step.value.0);
  }
}
