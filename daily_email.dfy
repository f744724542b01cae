/** The values `render_email_html` in scripts/send_daily.py hands to the
    email template: the recipient's name, the title, one item per exercise
    with its signed completion link, and the signed action links (complete
    all, skip, customise, delete a day, a month or everything). The
    template markup itself is not modelled. */
module DailyEmail {
  import opened Prelude
  import opened PyStr
  import opened Json
  import opened PercentEncoding
  import Signing
  import DailyLinks

  /** The environment the script reads: `NETLIFY_BASE`, `SUBMIT_BASE_URL`
      and `SIGNING_SECRET`, already stripped. */
  datatype Config = Config(netlifyBase: string, submitBaseUrl: string, secret: string)

  /** One entry of the template's `items`. */
  datatype Item = Item(name: Json, sets: Json, reps: Json, link: string)

  /** The keyword arguments of `tmpl.render`. */
  datatype Email = Email(
    name: Json, title: Json, date: string, items: seq<Item>,
    completeAllLink: string, myActivityLink: string, skipTodayLink: string,
    customizedSessionLink: string, deleteActivityLink: string,
    deleteMonthLink: string, deleteAllLink: string, restNote: Option<Json>)

  /** What every link is built from: the user, the date, the timestamp
      `str(int(time.time()))`, the environment and the MAC. */
  datatype Ctx = Ctx(user: Json, date: string, ts: string, cfg: Config, mac: Signing.Mac)

  function SubmitBase(cfg: Config): string
  {
    if cfg.netlifyBase != "" then cfg.netlifyBase + "/submit" else cfg.submitBaseUrl
  }

  function DeleteFunc(cfg: Config): (r: string)
    ensures r != "" <==> cfg.netlifyBase != ""
  {
    if cfg.netlifyBase != "" then cfg.netlifyBase + "/.netlify/functions/delete_activity" else ""
  }

  function CustomizeBase(cfg: Config): string
  {
    cfg.netlifyBase + "/customize"
  }

  /** `recipient.get("username") or recipient["id"]`. */
  function UserOf(recipient: Dict<Json>): (r: Result<Json>)
    ensures Truthy(Field(recipient, "username")) ==> r == Ok(Field(recipient, "username"))
    ensures !Truthy(Field(recipient, "username")) ==>
      r == (if HasKey(recipient, "id") then Ok(Field(recipient, "id")) else Err(KeyMissing("id")))
  {
    var name := Field(recipient, "username");
    if Truthy(name) then Ok(name)
    else match Get(recipient, "id")
      case Some(v) => Ok(v)
      case None => Err(KeyMissing("id"))
  }

  function Signed(ctx: Ctx, base: string, params: Dict<Json>): Result<string>
  {
    DailyLinks.SignedUrl(base, params, ctx.cfg.secret, ctx.mac)
  }

  // The parameter sets of the links.

  /** `{"u": user, "d": date, "ex": ex, "ts": ts}`. */
  function SubmitParams(ctx: Ctx, ex: Json): Dict<Json>
  {
    [("u", ctx.user), ("d", Str(ctx.date)), ("ex", ex), ("ts", Str(ctx.ts))]
  }

  function CustomizeParams(ctx: Ctx): Dict<Json>
  {
    [("u", ctx.user), ("ts", Str(ctx.ts))]
  }

  function DayParams(ctx: Ctx): Dict<Json>
  {
    [("u", ctx.user), ("scope", Str("day")), ("d", Str(ctx.date)), ("ts", Str(ctx.ts))]
  }

  function MonthParams(ctx: Ctx, yyyy: string, mm: string): Dict<Json>
  {
    [("u", ctx.user), ("scope", Str("month")), ("y", Str(yyyy)), ("m", Str(mm)), ("ts", Str(ctx.ts))]
  }

  function AllParams(ctx: Ctx): Dict<Json>
  {
    [("u", ctx.user), ("scope", Str("all")), ("ts", Str(ctx.ts))]
  }

  /** `f"{NETLIFY_BASE}/activity?u={quote_plus(user)}"`, unsigned. */
  function ActivityLink(ctx: Ctx): string
  {
    if ctx.cfg.netlifyBase != "" then ctx.cfg.netlifyBase + "/activity?u=" + DailyLinks.Quote(ctx.user) else ""
  }

  /** The customise link, present only with `NETLIFY_BASE`. */
  function CustomizeLink(ctx: Ctx): Result<string>
  {
    if ctx.cfg.netlifyBase != "" then Signed(ctx, CustomizeBase(ctx.cfg), CustomizeParams(ctx)) else Ok("")
  }

  // ---------------------------------------------------------------------
  // The exercise items
  // ---------------------------------------------------------------------

  /** One item: the exercise must be a dict; its name falls back to its id
      and then to "Exercise". */
  function ItemFor(ctx: Ctx, ex: Json): (r: Result<Item>)
    ensures !ex.Obj? ==> r == Err(TypeMismatch)
    ensures r.Ok? ==> ex.Obj? && r.value.name == GetOr(ex.fields, "name", GetOr(ex.fields, "id", Str("Exercise")))
  {
    var ed :- AsDict(ex);
    var link :- Signed(ctx, SubmitBase(ctx.cfg), SubmitParams(ctx, GetOr(ed, "id", Str(""))));
    Ok(Item(GetOr(ed, "name", GetOr(ed, "id", Str("Exercise"))), Field(ed, "sets"), Field(ed, "reps"), link))
  }

  function ItemOf(ctx: Ctx): (Json, nat) -> Result<Item>
  {
    (ex: Json, i: nat) => ItemFor(ctx, ex)
  }

  /** The items of the exercises, stopping at the first that raises. */
  function Items(ctx: Ctx, exs: seq<Json>): Result<seq<Item>>
  {
    MapEnumerate(exs, ItemOf(ctx))
  }

  /** The items are the exercises' items, one per exercise, in order; when
      the list raises, it is the first raising exercise's error. */
  lemma ItemsAt(ctx: Ctx, exs: seq<Json>)
    ensures Items(ctx, exs).Ok? <==> forall i :: 0 <= i < |exs| ==> ItemFor(ctx, exs[i]).Ok?
    ensures Items(ctx, exs).Ok? ==>
      && |Items(ctx, exs).value| == |exs|
      && forall i :: 0 <= i < |exs| ==> Items(ctx, exs).value[i] == ItemFor(ctx, exs[i]).value
    ensures Items(ctx, exs).Err? ==>
      exists i :: 0 <= i < |exs| && ItemFor(ctx, exs[i]) == Err(Items(ctx, exs).error) &&
        forall j :: 0 <= j < i ==> ItemFor(ctx, exs[j]).Ok?
  {
    var f := ItemOf(ctx);
    MapEnumerateOk(exs, f);
    if Items(ctx, exs).Ok? {
      MapEnumerateAt(exs, f);
    } else {
      MapEnumerateError(exs, f);
      var i :| FirstFailure(exs, f, i) && Items(ctx, exs).error == f(exs[i], i).error;
      assert ItemFor(ctx, exs[i]) == Err(Items(ctx, exs).error);
    }
  }

  /** The `for ex in split.get("exercises", [])` loop that appends one item
      per exercise. */
  method BuildItems(ctx: Ctx, exs: seq<Json>) returns (r: Result<seq<Item>>)
    ensures r == Items(ctx, exs)
  {
    var f := ItemOf(ctx);
    var items: seq<Item> := [];
    var i := 0;
    while i < |exs|
      invariant 0 <= i <= |exs|
      invariant MapEnumerate(exs[..i], f) == Ok(items)
    {
      var ex := exs[i];
      if !ex.Obj? {
        assert f(ex, i) == Err(TypeMismatch);
        MapEnumerateStop(exs, f, i);
        MapEnumerateSticky(exs, f, i + 1);
        return Err(TypeMismatch);
      }
      var params := SubmitParams(ctx, GetOr(ex.fields, "id", Str("")));
      var link := DailyLinks.BuildSignedUrl(SubmitBase(ctx.cfg), params, ctx.cfg.secret, ctx.mac);
      if link.Err? {
        assert f(ex, i) == Err(link.error);
        MapEnumerateStop(exs, f, i);
        MapEnumerateSticky(exs, f, i + 1);
        return Err(link.error);
      }
      var ed := ex.fields;
      var item := Item(GetOr(ed, "name", GetOr(ed, "id", Str("Exercise"))), Field(ed, "sets"), Field(ed, "reps"), link.value);
      assert f(ex, i) == Ok(item);
      MapEnumerateSnoc(exs, f, i);
      items := items + [item];
      i := i + 1;
    }
    assert exs[..i] == exs;
    return Ok(items);
  }

  // ---------------------------------------------------------------------
  // The two kinds of email
  // ---------------------------------------------------------------------

  const DefaultRestNote: string := "Today is a rest day. If you want, you can log a custom session."

  /** A rest day: no items, no completion, skip or delete links, and a
      rest note. */
  function RestEmail(ctx: Ctx, recipient: Dict<Json>, split: Dict<Json>): (r: Result<Email>)
    ensures r.Ok? ==> r.value.items == [] && r.value.restNote.Some?
    ensures r.Ok? ==> r.value.completeAllLink == "" && r.value.skipTodayLink == ""
    ensures r.Ok? ==> r.value.deleteActivityLink == "" && r.value.deleteMonthLink == "" && r.value.deleteAllLink == ""
  {
    var customize :- CustomizeLink(ctx);
    Ok(Email(GetOr(recipient, "name", ctx.user), GetOr(split, "title", Str("Rest Day")), ctx.date, [],
             "", ActivityLink(ctx), "", customize, "", "", "",
             Some(GetOr(split, "message", Str(DefaultRestNote)))))
  }

  /** A training day, given its items: the action links in the order the
      script builds them; the date is split for the month link after the
      day link is built. */
  function DayEmailWith(ctx: Ctx, recipient: Dict<Json>, split: Dict<Json>, items: seq<Item>): (r: Result<Email>)
    ensures r.Ok? ==> r.value.items == items && r.value.restNote == None
  {
    var completeAll :- Signed(ctx, SubmitBase(ctx.cfg), SubmitParams(ctx, Str("ALL")));
    var skip :- Signed(ctx, SubmitBase(ctx.cfg), SubmitParams(ctx, Str("SKIP")));
    var customize :- CustomizeLink(ctx);
    var df := DeleteFunc(ctx.cfg);
    var delDay :- if df != "" then Signed(ctx, df, DayParams(ctx)) else Ok("");
    var parts := SplitOn(ctx.date, '-');
    if |parts| != 3 then Err(BadDateSplit(ctx.date))
    else
      var delMonth :- if df != "" then Signed(ctx, df, MonthParams(ctx, parts[0], parts[1])) else Ok("");
      var delAll :- if df != "" then Signed(ctx, df, AllParams(ctx)) else Ok("");
      Ok(Email(GetOr(recipient, "name", ctx.user), GetOr(split, "title", Str("Today's Workout")), ctx.date, items,
               completeAll, ActivityLink(ctx), skip, customize, delDay, delMonth, delAll, None))
  }

  /** A training day: one item per exercise of the split and no rest
      note. */
  function DayEmail(ctx: Ctx, recipient: Dict<Json>, split: Dict<Json>): (r: Result<Email>)
    ensures r.Ok? ==> r.value.restNote == None
    ensures r.Ok? ==>
      Iterate(GetOr(split, "exercises", Arr([]))).Ok? &&
      |r.value.items| == |Iterate(GetOr(split, "exercises", Arr([]))).value|
  {
    var exs :- Iterate(GetOr(split, "exercises", Arr([])));
    var items :- Items(ctx, exs);
    DayEmailWith(ctx, recipient, split, items)
  }

  function MakeCtx(user: Json, date: string, now: int, cfg: Config, mac: Signing.Mac): Ctx
  {
    Ctx(user, date, Decimal(now), cfg, mac)
  }

  /** What `render_email_html(recipient, split, date)` renders, at time
      `now`: a recipient that is not a dict raises, and a rendered email
      is the rest email exactly when the split is marked `__rest__`. */
  function EmailFor(recipient: Json, split: Dict<Json>, date: string, now: int, cfg: Config, mac: Signing.Mac): (r: Result<Email>)
    ensures !recipient.Obj? ==> r == Err(TypeMismatch)
    ensures r.Ok? ==> (r.value.restNote.Some? <==> Truthy(Field(split, "__rest__")))
  {
    var rd :- AsDict(recipient);
    var user :- UserOf(rd);
    var ctx := MakeCtx(user, date, now, cfg, mac);
    if Truthy(Field(split, "__rest__")) then RestEmail(ctx, rd, split) else DayEmail(ctx, rd, split)
  }

  /** `render_email_html`: pick the user, then build the rest email or loop
      over the exercises and add the action links. */
  method RenderEmailHtml(recipient: Json, split: Dict<Json>, date: string, now: int, cfg: Config, mac: Signing.Mac)
    returns (r: Result<Email>)
    ensures r == EmailFor(recipient, split, date, now, cfg, mac)
  {
    if !recipient.Obj? {
      return Err(TypeMismatch);
    }
    var user := UserOf(recipient.fields);
    if user.Err? {
      return Err(user.error);
    }
    var ctx := MakeCtx(user.value, date, now, cfg, mac);
    if Truthy(Field(split, "__rest__")) {
      return RestEmail(ctx, recipient.fields, split);
    }
    var exs := Iterate(GetOr(split, "exercises", Arr([])));
    if exs.Err? {
      return Err(exs.error);
    }
    var items := BuildItems(ctx, exs.value);
    if items.Err? {
      return Err(items.error);
    }
    r := DayEmailWith(ctx, recipient.fields, split, items.value);
  }

  // ---------------------------------------------------------------------
  // What the links carry
  // ---------------------------------------------------------------------

  /** A rest-day email has no exercise items and no completion, skip or
      delete links; it carries the split's message (or the default note);
      it has a customise link exactly when `NETLIFY_BASE` is set, and it
      fails only when that link needs a secret that is not set. */
  lemma RestEmailNoLinks(ctx: Ctx, recipient: Dict<Json>, split: Dict<Json>)
    ensures RestEmail(ctx, recipient, split).Ok? <==> ctx.cfg.netlifyBase == "" || ctx.cfg.secret != ""
    ensures RestEmail(ctx, recipient, split).Ok? ==>
      var e := RestEmail(ctx, recipient, split).value;
      && e.items == []
      && e.completeAllLink == "" && e.skipTodayLink == ""
      && e.deleteActivityLink == "" && e.deleteMonthLink == "" && e.deleteAllLink == ""
      && e.restNote == Some(GetOr(split, "message", Str(DefaultRestNote)))
      && (e.customizedSessionLink != "" <==> ctx.cfg.netlifyBase != "")
  {
    DailyLinks.SignedUrlShape(CustomizeBase(ctx.cfg), CustomizeParams(ctx), ctx.cfg.secret, ctx.mac);
  }

  /** A training-day email has one item per exercise, in order: the name
      falls back to the id and then "Exercise", and the link is the submit
      link signed over the user, the date, the exercise id (or "") and the
      timestamp. `rest_note` is None. */
  lemma DayEmailItems(ctx: Ctx, recipient: Dict<Json>, split: Dict<Json>)
    requires DayEmail(ctx, recipient, split).Ok?
    ensures var exs := Iterate(GetOr(split, "exercises", Arr([])));
      var e := DayEmail(ctx, recipient, split).value;
      && exs.Ok?
      && |e.items| == |exs.value|
      && e.restNote == None
      && forall i :: 0 <= i < |exs.value| ==>
           && exs.value[i].Obj?
           && var ed := exs.value[i].fields;
              && e.items[i].name == GetOr(ed, "name", GetOr(ed, "id", Str("Exercise")))
              && Ok(e.items[i].link) == Signed(ctx, SubmitBase(ctx.cfg), SubmitParams(ctx, GetOr(ed, "id", Str(""))))
  {
    var exs := Iterate(GetOr(split, "exercises", Arr([]))).value;
    var items := Items(ctx, exs).value;
    assert DayEmail(ctx, recipient, split) == DayEmailWith(ctx, recipient, split, items);
    DeleteLinks(ctx, recipient, split, items);
    ItemsAt(ctx, exs);
  }

  /** The delete links exist exactly when `NETLIFY_BASE` is set; then they
      point at the delete function and are signed over the day, month and
      all parameter sets, the month's year and month being the first two
      `-`-separated parts of the date. */
  lemma DeleteLinks(ctx: Ctx, recipient: Dict<Json>, split: Dict<Json>, items: seq<Item>)
    requires DayEmailWith(ctx, recipient, split, items).Ok?
    ensures var e := DayEmailWith(ctx, recipient, split, items).value;
      var parts := SplitOn(ctx.date, '-');
      && |parts| == 3
      && e.items == items && e.restNote == None
      && (ctx.cfg.netlifyBase == "" ==> e.deleteActivityLink == "" && e.deleteMonthLink == "" && e.deleteAllLink == "")
      && (ctx.cfg.netlifyBase != "" ==>
            && Ok(e.deleteActivityLink) == Signed(ctx, DeleteFunc(ctx.cfg), DayParams(ctx))
            && Ok(e.deleteMonthLink) == Signed(ctx, DeleteFunc(ctx.cfg), MonthParams(ctx, parts[0], parts[1]))
            && Ok(e.deleteAllLink) == Signed(ctx, DeleteFunc(ctx.cfg), AllParams(ctx)))
  {
  }
}
