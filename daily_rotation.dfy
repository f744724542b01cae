/** `pick_today_index` of scripts/send_daily.py: the rotation advances only
    when the calendar day changes, and stays put for a day that follows a
    skipped one. */
module DailyRotation {
  import opened Prelude
  import opened PyStr
  import opened Json
  import opened Dates
  import opened Schedules
  import opened Files

  /** One call on the loaded schedule document: the index returned and the
      document saved. */
  function Step(doc: Json, today: string, total: nat): (r: Result<(nat, Dict<Json>)>)
    ensures r.Ok? ==> r.value.0 < AtLeastOne(total)
  {
    var sched :- AsDict(doc);
    var start :- IntOf(GetOr(sched, "current_index", Num(0)));
    var m := AtLeastOne(total);
    var idx := start % m;
    var lastAction := GetOr(sched, "last_action", Str("NONE"));
    var lastDate := Field(sched, "last_action_date");
    var next :- if lastDate == Str(today) then Ok(idx) else NewDayIndex(idx, m, lastAction, lastDate, today);
    Ok((next, Update(sched, next, lastAction, today)))
  }

  /** The index on a day other than the recorded one: frozen when the last
      action was a skip recorded yesterday, else one step on. */
  function NewDayIndex(idx: nat, m: nat, lastAction: Json, lastDate: Json, today: string): (r: Result<nat>)
    requires idx < m
    ensures r.Ok? ==> r.value < m
  {
    var t :- ParseIso(today);
    var yd :- PrevDay(t);
    var freeze := lastAction == Str("SKIPPED") && lastDate == Str(Iso(yd));
    Ok(if freeze then idx else (idx + 1) % m)
  }

  // The pieces of the stored document the rule reads.

  function StoredIndex(doc: Json): Result<int>
  {
    var sched :- AsDict(doc);
    IntOf(GetOr(sched, "current_index", Num(0)))
  }

  function StoredAction(doc: Json): Json
    requires doc.Obj?
  {
    GetOr(doc.fields, "last_action", Str("NONE"))
  }

  function StoredDate(doc: Json): Json
    requires doc.Obj?
  {
    Field(doc.fields, "last_action_date")
  }

  /** The day before `today` in calendar terms: the stored date is an ISO
      date whose day number is one less than today's. */
  predicate IsYesterday(stored: Json, today: Date)
    requires Valid(today)
  {
    stored.Str? && ParseIso(stored.s).Ok? && Ordinal(ParseIso(stored.s).value) == Ordinal(today) - 1
  }

  /** Comparing the stored text with the formatted previous day is the
      calendar test. */
  lemma YesterdayText(stored: Json, today: Date)
    requires Valid(today) && PrevDay(today).Ok?
    ensures stored == Str(Iso(PrevDay(today).value)) <==> IsYesterday(stored, today)
  {
    var yd := PrevDay(today).value;
    PrevDayOrdinal(today);
    ParseIso_Iso(yd);
    if IsYesterday(stored, today) {
      var l := ParseIso(stored.s).value;
      Iso_ParseIso(stored.s);
      OrdinalOrder(l, yd);
    }
  }

  lemma StepShape(doc: Json, today: string, total: nat)
    requires Step(doc, today, total).Ok?
    ensures doc.Obj? && StoredIndex(doc).Ok?
    ensures Step(doc, today, total).value.1 ==
      Update(doc.fields, Step(doc, today, total).value.0, StoredAction(doc), today)
  {
  }

  /** The document saved on the recorded day, read again, takes the
      same-day branch. */
  lemma SameDayStep(doc: Json, today: string, total: nat)
    requires doc.Obj? && StoredIndex(doc).Ok? && StoredDate(doc) == Str(today)
    ensures Step(doc, today, total) ==
      var idx := StoredIndex(doc).value % AtLeastOne(total);
      Ok((idx, Update(doc.fields, idx, StoredAction(doc), today)))
  {
  }

  /** What every successful call saves: the returned index, today's date,
      the old `last_action` (or "NONE"), and every other key as it was. */
  lemma StepSaves(doc: Json, today: string, total: nat, k: string)
    requires Step(doc, today, total).Ok?
    ensures var (i, saved) := Step(doc, today, total).value;
      Get(saved, k) ==
        if k == "last_action_date" then Some(Str(today))
        else if k == "last_action" then Some(StoredAction(doc))
        else if k == "current_index" then Some(Num(i))
        else Get(doc.fields, k)
  {
    var (i, saved) := Step(doc, today, total).value;
    StepShape(doc, today, total);
    UpdateGet(doc.fields, i, StoredAction(doc), today, k);
  }

  /** On the day already recorded the index does not move. */
  lemma SameDayKeeps(doc: Json, today: string, total: nat)
    requires Step(doc, today, total).Ok?
    requires StoredDate(doc) == Str(today)
    ensures Step(doc, today, total).value.0 == StoredIndex(doc).value % AtLeastOne(total)
  {
  }

  /** The saved document, read again, holds the index, the action and
      today's date that were written. */
  lemma UpdateReadsBack(sched: Dict<Json>, i: nat, action: Json, today: string)
    ensures var saved := Update(sched, i, action, today);
      && Get(saved, "current_index") == Some(Num(i))
      && Get(saved, "last_action") == Some(action)
      && Get(saved, "last_action_date") == Some(Str(today))
      && StoredIndex(Obj(saved)) == Ok(i)
      && StoredDate(Obj(saved)) == Str(today)
      && StoredAction(Obj(saved)) == action
  {
    UpdateGet(sched, i, action, today, "current_index");
    UpdateGet(sched, i, action, today, "last_action");
    UpdateGet(sched, i, action, today, "last_action_date");
  }

  /** A second call on the same day returns the same index and saves the
      same document. */
  lemma SameDayIdempotent(doc: Json, today: string, total: nat)
    requires Step(doc, today, total).Ok?
    ensures var (i, saved) := Step(doc, today, total).value;
      Step(Obj(saved), today, total) == Ok((i, saved))
  {
    var (i, saved) := Step(doc, today, total).value;
    StepShape(doc, today, total);
    UpdateReadsBack(doc.fields, i, StoredAction(doc), today);
    UpdateSame(saved, i, StoredAction(doc), today);
    StepOnSaved(Obj(saved), today, total, i, StoredAction(doc));
  }

  /** A document that already records index i, today and its action steps
      to i and to itself. */
  lemma StepOnSaved(doc: Json, today: string, total: nat, i: nat, action: Json)
    requires doc.Obj? && StoredIndex(doc) == Ok(i) && StoredDate(doc) == Str(today)
    requires StoredAction(doc) == action && i < AtLeastOne(total)
    requires Update(doc.fields, i, action, today) == doc.fields
    ensures Step(doc, today, total) == Ok((i, doc.fields))
  {
    ModOfSmall(i, AtLeastOne(total));
    SameDayStep(doc, today, total);
  }

  /** On a new day the index moves one step round the cycle, unless
      yesterday was skipped; then it stays. */
  lemma NewDayRule(doc: Json, today: string, total: nat)
    requires Step(doc, today, total).Ok?
    requires StoredDate(doc) != Str(today)
    ensures ParseIso(today).Ok? && PrevDay(ParseIso(today).value).Ok?
    ensures var idx := StoredIndex(doc).value % AtLeastOne(total);
      var skippedYesterday := StoredAction(doc) == Str("SKIPPED") && IsYesterday(StoredDate(doc), ParseIso(today).value);
      Step(doc, today, total).value.0 == if skippedYesterday then idx else (idx + 1) % AtLeastOne(total)
  {
    NewDayStep(doc, today, total);
    YesterdayText(StoredDate(doc), ParseIso(today).value);
  }

  lemma NewDayStep(doc: Json, today: string, total: nat)
    requires Step(doc, today, total).Ok?
    requires StoredDate(doc) != Str(today)
    ensures ParseIso(today).Ok? && PrevDay(ParseIso(today).value).Ok?
    ensures Step(doc, today, total).value.0 ==
      if StoredAction(doc) == Str("SKIPPED") && StoredDate(doc) == Str(Iso(PrevDay(ParseIso(today).value).value))
      then StoredIndex(doc).value % AtLeastOne(total)
      else (StoredIndex(doc).value % AtLeastOne(total) + 1) % AtLeastOne(total)
  {
    StepNewDay(doc, today, total);
    NewDayIndexValue(StoredIndex(doc).value % AtLeastOne(total), AtLeastOne(total),
                     StoredAction(doc), StoredDate(doc), today);
  }

  lemma StepNewDay(doc: Json, today: string, total: nat)
    requires Step(doc, today, total).Ok?
    requires StoredDate(doc) != Str(today)
    ensures StoredIndex(doc).Ok?
    ensures NewDayIndex(StoredIndex(doc).value % AtLeastOne(total), AtLeastOne(total),
                        StoredAction(doc), StoredDate(doc), today).Ok?
    ensures Step(doc, today, total).value.0 ==
      NewDayIndex(StoredIndex(doc).value % AtLeastOne(total), AtLeastOne(total),
                  StoredAction(doc), StoredDate(doc), today).value
  {
  }

  lemma NewDayIndexValue(idx: nat, m: nat, lastAction: Json, lastDate: Json, today: string)
    requires idx < m && NewDayIndex(idx, m, lastAction, lastDate, today).Ok?
    ensures ParseIso(today).Ok? && PrevDay(ParseIso(today).value).Ok?
    ensures NewDayIndex(idx, m, lastAction, lastDate, today).value ==
      if lastAction == Str("SKIPPED") && lastDate == Str(Iso(PrevDay(ParseIso(today).value).value))
      then idx else (idx + 1) % m
  {
  }

  /** With nothing to rotate through, the index is always 0. */
  lemma NoRotation(doc: Json, today: string)
    requires Step(doc, today, 0).Ok?
    ensures Step(doc, today, 0).value.0 == 0
  {
  }

  /** A call fails exactly when the document is not a dict, its index is not
      an integer, or, on a new day, today does not parse or is 0001-01-01. */
  lemma StepFails(doc: Json, today: string, total: nat)
    ensures Step(doc, today, total).Err? <==>
      || !doc.Obj?
      || StoredIndex(doc).Err?
      || (StoredDate(doc) != Str(today) &&
          (ParseIso(today).Err? || ParseIso(today).value == Date(1, 1, 1)))
  {
  }

  /** The step taken on what `load_sched` returned. */
  function StepFor(loaded: Result<Json>, today: string, total: nat): (r: Result<(nat, Dict<Json>)>)
    ensures r.Ok? ==> r.value.0 < AtLeastOne(total)
  {
    var doc :- loaded;
    Step(doc, today, total)
  }

  /** `pick_today_index(username, today_iso, total)`: load, decide, update
      the dict in place, save. */
  method PickTodayIndex(store: ScheduleStore, username: string, today: string, total: nat)
    returns (r: Result<nat>)
    modifies store
    ensures var step := StepFor(old(store.Load(username)), today, total);
      && store.docs == DocsAfter(old(store.docs), username, step)
      && (step.Ok? ==> r == Ok(step.value.0))
      && (step.Err? ==> r == Err(step.error))
  {
    var loaded := store.Load(username);
    if loaded.Err? {
      return Err(loaded.error);
    }
    var step := Step(loaded.value, today, total);
    if step.Err? {
      return Err(step.error);
    }
    var sched := loaded.value.fields;
    var idx := step.value.0;
    sched := Update(sched, idx, GetOr(sched, "last_action", Str("NONE")), today);
    store.Save(username, sched);
    return Ok(idx);
  }
}
