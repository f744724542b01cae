# Gym Split: signed links, rotation, split selection and the weekly summary

This Dafny project models the core of the Gym Split email scripts. Every
morning `scripts/send_daily.py` picks each user's workout split and mails
it. The email carries HMAC-signed links that let the user mark exercises
done, skip the day, open a customised session or delete logged activity.
`scripts/lib/plans.py` is an older plan picker with its own rotation rule.
`scripts/weekly_summary.py` counts a week of completion records and lays
them out as two tables.

The model covers these parts:

- **The link signer.** `sign_params` in `scripts/lib/signing.py` and in
  `send_daily.py` builds a canonical `k=quote_plus(v)` string from the
  sorted parameters, takes the HMAC of it, and emits the MAC as unpadded
  base64url. `build_signed_url` appends that token as `t`. Percent-encoding
  (UTF-8, then `%XX` for every byte outside the unreserved set, space as
  `+`) and base64url are written out with their decoders. That is what
  lets the model prove the round trips and that the canonical string
  parses back unambiguously. HMAC-SHA-256 itself is a function-typed
  parameter `Mac`, so every property holds for any MAC.
- **The two rotation state machines.** Each is `pick_today_index` over
  the per-user schedule file `{current_index, last_action,
  last_action_date}`:
  - `send_daily.py` advances only when the calendar day changes, and
    freezes when yesterday was `SKIPPED`. A second call on the same day
    is idempotent.
  - `plans.py` advances on every call unless it is frozen. The freeze
    test is `last_action_date >= yesterday` on strings, which the model
    proves equal to calendar order.

  The schedule directory is the class `Schedules.ScheduleStore`, whose
  map field the methods update in place.
- **Split selection.** This covers the weekday schedule with its rest-day
  rule, the one-day custom plan and the default rotation
  (`pick_split_for_today`, `pick_scheduled_split_or_rest`). It also covers
  the field defaults of `load_split_file`, `load_split_by_title`,
  `normalize_ex` and `normalize_user_day`, and `slug`.
- **The email's link sets.** `render_email_html` builds the per-exercise
  submit links and the day, month and all delete links. Each link signs
  exactly the parameters that name its target. A rest-day email has no
  item, submit or delete links.
- **The weekly summary.** `daterange_days` gives the dates of the week.
  `summarize_week` is a counting fold, with exact per-user and
  per-exercise counts and `done <= sent`. `build_html` writes the user
  rows in dict order and the exercise rows by a stable descending sort,
  with a single "No data" row for an empty table.

Python values are modelled as follows:

- A dict is an association list in insertion order (`Json.Dict`).
- JSON is the `Json` datatype, with integer numbers only.
- An exception is an `Err` of `Prelude.Error`, one constructor per kind
  the scripts raise.
- A directory of JSON files is a map from path to parsed document
  (`Files.Store`). A document that `json.loads` returns never holds a
  dict with a repeated key (`Json.Loaded`). The day-count lemmas of the
  weekly summary assume this of every stored document
  (`Files.LoadedStore`).
- `Json.Get` reads the first entry with a key, and Python reads the last.
  The two agree on the dicts `json.loads` returns, which have distinct
  keys.
- The clock, the environment variables and the MAC are inputs.

The schedule-saving steps, the item loop of `render_email_html`,
`build_signed_url`, the loaders and the weekly tally loops are methods.
Each is proved equal to a specification function, and the lemmas are
stated about those functions.

The two signers build their canonical strings differently:

- `scripts/lib/signing.py` drops any `t` entry, turns each value into
  text with `str`, and sorts the `(key, str(value))` pairs.
- `sign_params` in `scripts/send_daily.py` sorts the keys and keeps
  every key, `t` included.

`DailyLinks.SameAsShared` proves that the two give the same canonical
string and the same token for a dict with distinct keys and no `t`.
That is every dict `send_daily.py` signs.

## Model

| member | source | states |
|---|---|---|
| Signing.PairLtStrictTotal | scripts/lib/signing.py:11 | the tuple order `sorted` uses on (key, value) pairs is a strict total order |
| Signing.ItemsOf | scripts/lib/signing.py:11 | a pair is an item iff some entry with key other than `t` has that key and `str` of its value |
| Signing.ItemsAppend | scripts/lib/signing.py:11 | the items of a concatenation are the items of each part, in order |
| Signing.ItemsPermutation | scripts/lib/signing.py:11 | maps holding the same entries in any order give the same multiset of items |
| Signing.ItemsIgnoreT | scripts/lib/signing.py:11 | adding or changing a `t` entry leaves the items unchanged |
| Signing.CanonicalItemsSorted | scripts/lib/signing.py:11 | the sorted items are ascending in tuple order, so keys are non-decreasing |
| Signing.CanonicalItemsAreEntries | scripts/lib/signing.py:11 | the sorted items are a permutation of the items, and each one comes from an entry whose key is not `t` |
| Signing.Assignment | scripts/lib/signing.py:12 | a `k=enc(v)` assignment holds `&` only if the key does |
| Signing.OrderIndependent | scripts/lib/signing.py:11-13 | two maps with the same entries in any insertion order give the same canonical string and the same token |
| Signing.IgnoresT | scripts/lib/signing.py:11-13 | adding or changing `t` changes neither the canonical string nor the token |
| Signing.Canonical | scripts/lib/signing.py:12 | the canonical string is empty iff there are no items (in particular for the empty map) |
| Signing.JoinStartsWith | scripts/lib/signing.py:12 | the `&`-join starts with its first part: no leading separator |
| Signing.ParseAssignmentsOf | scripts/lib/signing.py:12 | splitting each assignment at its first `=` gives back the key and the encoded value, when keys hold no `=` |
| Signing.CanonicalParses | scripts/lib/signing.py:12 | for keys free of `&` and `=`, splitting the canonical string on `&` and then the first `=` gives the sorted keys with their encoded values |
| Signing.CanonicalDetermines | scripts/lib/signing.py:12 | equal canonical strings come from equal sorted (key, encoded value) lists: the form is unambiguous |
| Signing.TokenShape | scripts/lib/signing.py:13-14 | the token uses only `A-Z a-z 0-9 - _`, holds no `=`, has ceil(4n/3) characters for an n-byte MAC, and 43 for a 32-byte MAC |
| Signing.SignParams | scripts/lib/signing.py:13-15 | the token holds no `=`, and re-padded and decoded it is the MAC of (secret, canonical string), so it depends on those two alone |
| PercentEncoding.Utf8Char | scripts/send_daily.py:62-63 | a character encodes to 1 to 4 UTF-8 bytes; to one byte, itself, iff it is ASCII |
| PercentEncoding.QuoteBytesAlphabet | scripts/send_daily.py:62-63 | percent-encoded bytes use only unreserved characters, `%`, hex digits and `+` |
| PercentEncoding.QuotePlusAlphabet | scripts/send_daily.py:62-63 | `quote_plus` output never holds `&`, `=` or a space |
| PercentEncoding.UnquoteQuoteBytes | scripts/send_daily.py:62-63 | decoding the percent-encoding of bytes gives the bytes back |
| PercentEncoding.QuotePlus | scripts/send_daily.py:62-63 | decoding `quote_plus(s)` gives the UTF-8 bytes of s |
| PercentEncoding.QuotePlusUnreserved | scripts/send_daily.py:62-63 | a string of unreserved characters passes through `quote_plus` unchanged |
| Base64Url.SextetChar | scripts/send_daily.py:68-69 | each 6-bit value maps into the URL-safe alphabet |
| Base64Url.SextetRoundTrip | scripts/send_daily.py:68-69 | the alphabet maps back to the 6-bit value it came from |
| Base64Url.GroupRoundTrip | scripts/send_daily.py:68-69 | three bytes split into four sextets and recombine to the same bytes |
| Base64Url.Encode | scripts/send_daily.py:68-69 | the padded encoding has a length that is a multiple of 4, and is empty iff the input is |
| Base64Url.B64Url | scripts/send_daily.py:68-69 | `b64url(b)` is the padded encoding with its `=` stripped, and holds no `=` |
| Base64Url.EncodeIsUnpaddedPlusPads | scripts/send_daily.py:68-69 | the padded encoding is the unpadded groups followed by 0, 1 or 2 `=` |
| Base64Url.UnpaddedShape | scripts/send_daily.py:68-69 | the unpadded encoding has ceil(4n/3) characters, all in the URL-safe alphabet |
| Base64Url.B64UrlShape | scripts/send_daily.py:68-69 | `b64url(b)` is the unpadded encoding: URL-safe alphabet, no `=`, ceil(4n/3) characters |
| Base64Url.B64UrlOf32 | scripts/send_daily.py:68-69 | a 32-byte input gives 43 characters |
| Base64Url.DecodeEncode | scripts/send_daily.py:68-69 | decoding the padded encoding gives the bytes back |
| Base64Url.RepadB64Url | scripts/send_daily.py:68-69 | re-padding `b64url(b)` to a multiple of 4 restores the padded encoding |
| Base64Url.DecodeRepadB64Url | scripts/send_daily.py:68-69 | re-padding and decoding `b64url(b)` recovers b |
| Slug.SlugShape | scripts/send_daily.py:65-66 | a slug holds only lowercase ASCII alphanumerics and `-`, neither starts nor ends with `-`, and is empty iff the input has no alphanumeric |
| Slug.SlugChars | scripts/send_daily.py:65-66 | every character of a slug is a lowercase alphanumeric or `-` |
| Slug.Slug | scripts/send_daily.py:65-66 | the slug neither starts nor ends with `-`, and is empty iff the input has no alphanumeric |
| Slug.ReplaceDashes | scripts/send_daily.py:66 | the single-pass `replace("--", "-")` adds no character but `-`, keeps emptiness, and keeps a non-dash first and last character |
| Slug.NoDoubleDash | scripts/send_daily.py:66 | a string without `--` is left unchanged by the replace |
| Slug.SlugKeepsDoubleDash | scripts/send_daily.py:65-66 | `slug("Leg + Abs Day")` is `leg--abs-day`: a run of three dashes leaves a double dash |
| DailyLinks.QuoteStr | scripts/send_daily.py:62-63 | `quote_plus(str(s))` of a string value is the percent-encoding of s |
| DailyLinks.SignParams | scripts/send_daily.py:76-77 | signing fails with "SIGNING_SECRET is not set" iff the secret is empty |
| DailyLinks.LtStrictTotal | scripts/send_daily.py:78 | string order, used to sort the keys, is a strict total order |
| DailyLinks.ItemsAreKeyItems | scripts/send_daily.py:78-79 | for distinct keys without `t`, the shared signer's items are the (key, `str` value) pairs in key order |
| DailyLinks.KeyItemsPermutation | scripts/send_daily.py:78-79 | permuted key lists give permuted pairs |
| DailyLinks.KeyItemsSorted | scripts/send_daily.py:78-79 | pairs taken in sorted key order are sorted as tuples |
| DailyLinks.SameAsShared | scripts/send_daily.py:76-81 | for a map without `t` and with a non-empty secret, this signer builds the same canonical string and token as `scripts/lib/signing.py` |
| DailyLinks.EncodedPermutation | scripts/send_daily.py:79 | encoding the values of permuted pairs gives permuted pairs |
| DailyLinks.SignedPairs | scripts/send_daily.py:78-79 | the canonical string parses into exactly the encoded (key, value) pairs of the map, in some order |
| DailyLinks.BuildSignedUrl | scripts/send_daily.py:83-89 | the copy-assign-join steps give `SignedUrl`; the caller's map is a value and cannot change |
| DailyLinks.AlphabetIsUnreserved | scripts/send_daily.py:87 | base64url characters are unreserved, so the token is not re-encoded in the query |
| DailyLinks.QueryParses | scripts/send_daily.py:85-87 | the query parses to the original pairs in insertion order, then `("t", token)` |
| DailyLinks.SignedUrlShape | scripts/send_daily.py:83-89 | the URL exists iff the secret is set; it starts with base; the joiner is `&` iff base holds `?`; its query is the encoded pairs in insertion order followed by `t` signed over the map without `t` |
| DailyLinks.SignedUrlToken | scripts/send_daily.py:86 | the `t` appended is the shared signer's token over the map before `t` is added |
| Schedules.NextIndex | scripts/lib/plans.py:52-60 | the next index lies in `[0, max(1,total))` |
| Schedules.NextIndexInRange | scripts/lib/plans.py:59-60 | from an index in range, the step keeps it when frozen and otherwise adds one modulo the length |
| Schedules.IntOf | scripts/lib/plans.py:52 | `int(...)` keeps integers and fails exactly on None, lists, dicts and non-numeric strings |
| Schedules.UpdateGet | scripts/send_daily.py:149 | after `sched.update(...)` the three keys read the new values and every other key reads as before |
| Schedules.UpdateSame | scripts/send_daily.py:149 | an update writing the values already stored leaves the dict equal |
| Schedules.ScheduleStore.Load | scripts/send_daily.py:120-125 | a missing file gives the default schedule, a JSON file its content, and an unparseable file an error |
| Schedules.ScheduleStore.Save | scripts/send_daily.py:127-130 | saving replaces exactly that user's file and leaves every other file unchanged |
| DailyRotation.Step | scripts/send_daily.py:138-149 | the returned index lies in `[0, max(1,total))` |
| DailyRotation.NewDayIndex | scripts/send_daily.py:143-146 | the index after a new-day step stays in range |
| DailyRotation.YesterdayText | scripts/send_daily.py:143-144 | the stored date equals the ISO text of the day before today iff it names yesterday |
| DailyRotation.StepShape | scripts/send_daily.py:137-149 | a successful step read a dict with a valid index and saves it updated with the new index, the unchanged `last_action` and today |
| DailyRotation.SameDayStep | scripts/send_daily.py:142-149 | when the stored date is today the index is the stored one reduced modulo total, with no advance |
| DailyRotation.StepSaves | scripts/send_daily.py:149 | the saved schedule holds the returned index, the previous `last_action` and today's date, and every other key as before |
| DailyRotation.SameDayKeeps | scripts/send_daily.py:142 | a same-day call never advances the index |
| DailyRotation.UpdateReadsBack | scripts/send_daily.py:149 | the saved schedule reads back the index, action and date it was given |
| DailyRotation.SameDayIdempotent | scripts/send_daily.py:142-150 | a second call the same day returns the same index and saves the same schedule |
| DailyRotation.StepOnSaved | scripts/send_daily.py:142-149 | a step on a schedule already saved today returns its index and leaves it unchanged |
| DailyRotation.NewDayRule | scripts/send_daily.py:142-146 | on a new day the index advances by one modulo total unless the last action was `SKIPPED` exactly yesterday |
| DailyRotation.NewDayStep | scripts/send_daily.py:142-146 | the new-day rule with yesterday as the ISO text of today minus one day |
| DailyRotation.StepNewDay | scripts/send_daily.py:142-146 | a new-day step returns the index the new-day rule computes |
| DailyRotation.NewDayIndexValue | scripts/send_daily.py:143-146 | the new-day rule freezes iff `SKIPPED` yesterday, and otherwise adds one modulo the length |
| DailyRotation.NoRotation | scripts/send_daily.py:138 | with total 0 the index is 0 |
| DailyRotation.StepFails | scripts/send_daily.py:137-143 | a step fails iff the file is not a dict, the index is not an integer, or, on a new day, today is not an ISO date or is 0001-01-01 |
| DailyRotation.StepFor | scripts/send_daily.py:137-149 | a loaded schedule gives an index in range or the loader's error |
| DailyRotation.PickTodayIndex | scripts/send_daily.py:132-151 | returns the step's index and saves the step's schedule for that user alone, or returns the error and writes nothing |
| DailySplits.LoadSplitFile | scripts/send_daily.py:94-100 | the read-fill-assign steps give `SplitFile` |
| DailySplits.SplitFile | scripts/send_daily.py:94-100 | a split loads iff its file exists and holds a JSON dict; a missing file raises FileNotFoundError for that path, and only a missing file does |
| DailySplits.SplitFileFields | scripts/send_daily.py:94-100 | a split loads iff its file is a JSON dict; it keeps the file's title or takes the stem with `-`/`_` as spaces, has `exercises` (else `[]`), and keeps every other key |
| DailySplits.DefaultSplitOrder | scripts/send_daily.py:102-118 | the mapped file is tried first, then `slug(title).json`; FileNotFoundError iff neither exists |
| DailySplits.DefaultSplitByTitle | scripts/send_daily.py:102-118 | FileNotFoundError iff neither the mapped file nor `slug(title).json` exists |
| DailySplits.RotationTitlesMapped | scripts/send_daily.py:43-58 | every default rotation title has an entry in `TITLE_TO_FILE` |
| DailySplits.CustomSplitGet | scripts/send_daily.py:170-173 | a custom split has exactly `title` (default "Custom Session") and `exercises` (default `[]`) |
| DailySplits.IsoSplit | scripts/send_daily.py:159 | an ISO date splits on `-` into year, month and day |
| DailySplits.CustomPlanShape | scripts/send_daily.py:153-173 | looks at `User History/<u>/<YYYY-MM>/<date>.json`; a missing or unparseable file gives None; a result is the truthy dict `custom_plan` with its title and exercises defaulted |
| DailySplits.CustomPlanForToday | scripts/send_daily.py:153-173 | a date that does not split into three parts on `-` raises; any other raise is a type error; a custom plan has exactly `title` then `exercises` |
| DailySplits.ScheduledSplit | scripts/send_daily.py:177-207 | no schedule mode iff `config/schedule.json` is missing; a rest day carries the fixed "Rest Day" title and message |
| DailySplits.ScheduleRule | scripts/send_daily.py:189-207 | rest iff today's weekday entry is null, blank or any-case `rest`; a raise iff it is neither null nor a string; otherwise the named split file, or FileNotFoundError when it is missing |
| DailySplits.RestAnyCase | scripts/send_daily.py:193-195 | null, `""` and `REST` are rest entries |
| DailySplits.RestPadded | scripts/send_daily.py:193-195 | `" Rest "` is a rest entry |
| DailySplits.NotRest | scripts/send_daily.py:193-202 | a file name and a number are not rest entries |
| DailySplits.RotationStep | scripts/send_daily.py:228-231 | the rotation index is below the number of default titles |
| DailySplits.PickSplitForToday | scripts/send_daily.py:211-232 | returns the picked split; the schedule file changes only when the rotation is consulted, and then exactly as `pick_today_index` writes it |
| DailySplits.PickedSplit | scripts/send_daily.py:211-232 | an error from the schedule is returned as is, and so is an error of the rotation whenever the rotation is consulted |
| DailySplits.ScheduleFirst | scripts/send_daily.py:220-224 | with a schedule, a rest day gives the rest payload flagged `__rest__` with no exercises, a named split gives that split, and the rotation is not touched |
| DailySplits.PickedScheduled | scripts/send_daily.py:220-224 | any scheduled result is returned as is, without advancing the rotation |
| DailySplits.RestSplitFields | scripts/send_daily.py:222 | the rest split carries `__rest__ = True` and no `exercises` |
| DailySplits.CustomSecond | scripts/send_daily.py:226-229 | without a schedule, a custom plan with exercises wins and the rotation still advances |
| DailySplits.RotationLast | scripts/send_daily.py:231-232 | otherwise the default title at the rotation index is loaded, from its mapped file when present |
| DailyEmail.DeleteFunc | scripts/send_daily.py:243 | the delete endpoint exists iff `NETLIFY_BASE` is set |
| DailyEmail.UserOf | scripts/send_daily.py:239 | the user is a truthy `username`, else `id`, else KeyError |
| DailyEmail.ItemFor | scripts/send_daily.py:267-275 | an exercise that is not a dict raises; an item is named by the exercise's name, else its id, else "Exercise" |
| DailyEmail.RestEmail | scripts/send_daily.py:246-264 | a rest-day email has no items, a rest note, and no complete-all, skip or delete links |
| DailyEmail.DayEmailWith | scripts/send_daily.py:276-311 | a workout email carries exactly the items given and no rest note |
| DailyEmail.DayEmail | scripts/send_daily.py:267-311 | a workout email has no rest note and one item per exercise of the split |
| DailyEmail.EmailFor | scripts/send_daily.py:236-311 | a recipient that is not a dict raises; the email has a rest note iff the split's `__rest__` is truthy |
| DailyEmail.ItemsAt | scripts/send_daily.py:267-275 | the items succeed iff each exercise's item does; item i is built from exercise i; a failure is the first failing exercise's error |
| DailyEmail.BuildItems | scripts/send_daily.py:267-275 | the append loop gives `Items` |
| DailyEmail.RenderEmailHtml | scripts/send_daily.py:236-311 | the rendering steps give `EmailFor` |
| DailyEmail.RestEmailNoLinks | scripts/send_daily.py:246-264 | a rest-day email has no items and no complete-all, skip or delete links, carries the split's message as rest note, and has a customise link iff `NETLIFY_BASE` is set |
| DailyEmail.DayEmailItems | scripts/send_daily.py:267-275 | one item per exercise, named name then id then "Exercise", with the link signed over that exercise's submit parameters; no rest note |
| DailyEmail.DeleteLinks | scripts/send_daily.py:284-296 | the delete links are empty without `NETLIFY_BASE`, and otherwise are the day, month and all links signed over their scope parameters |
| DailyEmailLinks.DayPairs | scripts/send_daily.py:285 | a day delete link signs four pairs including `scope=day`, `d` and `u` |
| DailyEmailLinks.MonthPairs | scripts/send_daily.py:288-291 | a month delete link signs five pairs including `scope=month`, `y` and `m` from the date, and `u` |
| DailyEmailLinks.AllPairs | scripts/send_daily.py:293-295 | an all delete link signs only `u`, `scope=all` and `ts` |
| DailyEmailLinks.DayScope | scripts/send_daily.py:285 | the day link's canonical string parses to those four pairs |
| DailyEmailLinks.MonthScope | scripts/send_daily.py:288-291 | the month link's canonical string parses to those five pairs |
| DailyEmailLinks.AllScope | scripts/send_daily.py:293-295 | the all link's canonical string parses to exactly `u`, `scope`, `ts` |
| DailyEmailLinks.ScopesDiffer | scripts/send_daily.py:284-296 | the day, month and all canonical strings differ pairwise, so a token for one scope is not valid for another |
| DailyEmailLinks.SubmitPairs | scripts/send_daily.py:269 | a submit link's pairs are `u`, `d`, `ex`, `ts` in that order |
| DailyEmailLinks.SubmitKeys | scripts/send_daily.py:269 | the submit parameters have distinct plain keys and no `t` |
| DailyEmailLinks.SubmitLinkQuery | scripts/send_daily.py:269-274 | a submit link starts with the submit base and its query is the encoded pairs then the token |
| DailyEmailLinks.SubmitLinkShape | scripts/send_daily.py:269-274 | a submit link's query is exactly `u, d, ex, ts, t` |
| Plans.Yesterday | scripts/lib/plans.py:56 | yesterday is the ISO text of today minus one day |
| Plans.Frozen | scripts/lib/plans.py:57 | frozen iff `SKIPPED` with a string date not below yesterday; comparing a non-string, non-None date raises |
| Plans.Step | scripts/lib/plans.py:51-63 | the index lies in `[0, max(1,total))` |
| Plans.StepShape | scripts/lib/plans.py:51-60 | the index is the stored index modulo total, advanced unless frozen |
| Plans.StepSavedShape | scripts/lib/plans.py:63 | the saved schedule is the loaded one updated with the index, `NONE` and today |
| Plans.StepSaves | scripts/lib/plans.py:63 | every call stores the index, resets `last_action` to `NONE` and `last_action_date` to today, and keeps other keys |
| Plans.FreezeRule | scripts/lib/plans.py:52-60 | the index advances by one modulo total unless `SKIPPED` with a date at or after yesterday |
| Plans.FreezeIsCalendar | scripts/lib/plans.py:56-57 | for ISO dates, `last >= yesterday` as strings iff last is at most one day before today |
| Plans.SecondCallAdvances | scripts/lib/plans.py:57-63 | a second call on the same day advances again, because the first reset `last_action` |
| Plans.SecondStep | scripts/lib/plans.py:57-63 | a schedule saved with `NONE` always advances on the next call |
| Plans.StepOf | scripts/lib/plans.py:51-63 | the step is the cyclic next index with the saved update |
| Plans.NoRotation | scripts/lib/plans.py:52-60 | with total 0 the index is 0 |
| Plans.StepFor | scripts/lib/plans.py:51-64 | a loaded schedule gives an index in range or the error |
| Plans.PickTodayIndex | scripts/lib/plans.py:44-65 | returns the step's index and saves the step's schedule for that user alone, or writes nothing on error |
| Plans.GeneratedId | scripts/lib/plans.py:124 | a generated id is the slug of `name-(i+1)` and is never empty |
| Plans.NormalizeEx | scripts/lib/plans.py:122-127 | it succeeds iff the entry is a dict whose chosen name is a string; otherwise a type error; the result has exactly the keys `id, name, sets, reps` |
| Plans.NormalizeExFields | scripts/lib/plans.py:122-127 | normalisation succeeds iff the entry is a dict with a string name; the result has exactly `id, name, sets, reps`; the name falls back name, exercise, "Exercise i+1" and is stripped; the id is kept if truthy, else generated |
| Plans.NormalizedKeys | scripts/lib/plans.py:127 | the normalised exercise has exactly the keys `id, name, sets, reps` in order |
| Plans.NormalizeList | scripts/lib/plans.py:118 | the normalised list has the input's length |
| Plans.NormalizeListAt | scripts/lib/plans.py:118 | element i is `normalize_ex(raw[i], i)`; a failure is the first failing element's error |
| Plans.NormalizeUserDay | scripts/lib/plans.py:109-119 | it succeeds iff the day is a dict whose exercises all normalise; the day has exactly `title` (title, name, "Day idx+1") and `exercises` normalised position by position |
| Plans.LoadSplitByTitle | scripts/lib/plans.py:91-104 | the setdefault-assign steps give `SplitByTitle` |
| Plans.SplitByTitle | scripts/lib/plans.py:91-104 | a missing `splits/<slug(title)>.json` raises FileNotFoundError; a loaded split came from a JSON dict file and has a list of `exercises` |
| Plans.SplitByTitleFields | scripts/lib/plans.py:97-103 | reads `splits/<slug(title)>.json`; a missing file raises; the title is the file's or the given one; exercises are normalised; every other key is kept |
| Plans.Len | scripts/lib/plans.py:29-30 | a length is zero iff the value is falsy |
| Plans.LoadUserPlan | scripts/lib/plans.py:84-88 | a missing plan file gives None, a JSON file its content |
| Plans.PickFromPlan | scripts/lib/plans.py:28-34 | a plan with no days gives "No days configured" and leaves the rotation untouched; otherwise the day at the rotation index, normalised |
| Plans.PickFromDefaults | scripts/lib/plans.py:36-39 | without a plan the rotation index picks a default title, whose split is loaded |
| Plans.PickPlanAndDay | scripts/lib/plans.py:20-39 | the user plan path or the default path as above, with the schedule file written only when the rotation is consulted |
| Dates.OrdinalOrder | scripts/lib/plans.py:57 | the day number orders dates as the calendar does |
| Dates.IsoOrder | scripts/lib/plans.py:57 | ISO text compares as strings exactly as dates compare on the calendar |
| Dates.ParseIso_Iso | scripts/send_daily.py:143 | `fromisoformat(d.isoformat())` is d |
| Dates.Iso_ParseIso | scripts/send_daily.py:143 | a string `fromisoformat` accepts is the ISO text of its date |
| Dates.PrevDay | scripts/send_daily.py:143 | the day before fails only for 0001-01-01 |
| Dates.PrevDayOrdinal | scripts/send_daily.py:143 | the day before is one day number lower |
| Dates.SubDays | scripts/weekly_summary.py:23 | `end - timedelta(days=n)` exists iff n is below the day number of end, and is n days earlier |
| Dates.WeekdayName | scripts/send_daily.py:190 | `strftime("%A")` is one of the seven weekday names |
| Dates.WeekdayOfPrevDay | scripts/send_daily.py:190 | the day before has the previous weekday, cyclically |
| Dates.KnownWeekdays | scripts/send_daily.py:190 | 0001-01-01 is a Monday and 2025-01-01 a Wednesday |
| Json.ToStr | scripts/lib/signing.py:11 | `str(v)` is the text itself for a string, the decimal text for a number, and `None` for null |
| Json.Repr | scripts/lib/signing.py:11 | `repr` gives `None`, `True`/`False` and the decimal text of a number; a string is quoted with `"` iff it holds `'` and no `"`, and its escaped body reads back to the string; lists and dicts are bracketed |
| Json.QuoteFor | scripts/lib/signing.py:11 | `repr` quotes with `"` iff the string holds `'` and no `"` |
| Json.ReprStr | scripts/lib/signing.py:11 | a string's `repr` starts and ends with its quote and its body unescapes to the string |
| Json.EscapeRoundTrip | scripts/lib/signing.py:11 | undoing the backslash escapes gives the string back, for either quote |
| Files.ReadJson | scripts/send_daily.py:91-92 | reading succeeds iff the file exists and parses; a missing file raises FileNotFoundError for its path |
| Files.Basename | scripts/send_daily.py:98 | the name is the text after the last `/`, holding no `/` |
| Files.Stem | scripts/send_daily.py:98 | `p.stem` is the name without its final suffix: a prefix cut at the last `.` when that `.` is neither first nor last, and otherwise the whole name |
| WeeklyDays.BackFrom | scripts/weekly_summary.py:23 | the n dates back from end are all valid, or an OverflowError |
| WeeklyDays.DaterangeDays | scripts/weekly_summary.py:22-23 | `daterange_days(end, n)` has n entries (none for negative n), or an OverflowError |
| WeeklyDays.DaterangeOk | scripts/weekly_summary.py:23 | it succeeds iff n is at most the day number of end |
| WeeklyDays.DaterangeValue | scripts/weekly_summary.py:23 | the result is the reversed list of ISO texts of end, end-1, ... |
| WeeklyDays.DaterangeAt | scripts/weekly_summary.py:23 | entry k is the ISO text of end minus (n-1-k) days |
| WeeklyDays.DaterangeDates | scripts/weekly_summary.py:22-23 | entry k parses to the date n-1-k days before end |
| WeeklyDays.DaterangeLast | scripts/weekly_summary.py:22-23 | the last entry is end |
| WeeklyDays.DaterangeConsecutive | scripts/weekly_summary.py:22-23 | each entry is the day before the next one |
| WeeklyDays.DaterangeAscending | scripts/weekly_summary.py:22-23 | entries are strictly ascending as strings and as dates |
| Weekly.Completions | scripts/weekly_summary.py:29-33 | a day without a state file has no completions |
| Weekly.ParseEntry | scripts/weekly_summary.py:34-37 | a user's entry is usable iff its exercise map is a dict, else TypeError |
| Weekly.CountUser | scripts/weekly_summary.py:35-38 | `setdefault` then the increments: the user has an entry, `sent` is one more than before, `done` one more iff some value is truthy, and keys stay distinct |
| Weekly.CountDaySnoc | scripts/weekly_summary.py:34-40 | one more entry updates `per_user` and `per_ex` by that entry alone |
| Weekly.CountWeekSnoc | scripts/weekly_summary.py:28-40 | one more day continues the fold from the previous totals |
| Weekly.TallyExercises | scripts/weekly_summary.py:39-40 | the inner loop gives `CountExercises` |
| Weekly.TallyDay | scripts/weekly_summary.py:33-40 | the per-user loop gives `CountDay` over the day's entries, or the first entry's TypeError |
| Weekly.TallyFile | scripts/weekly_summary.py:29-40 | one day's file is tallied as `CountDay`, or its error |
| Weekly.SummarizeWeek | scripts/weekly_summary.py:25-41 | the loops give `Summarize` |
| Weekly.DayEntriesShape | scripts/weekly_summary.py:33-34 | the day's entries are its completions, in order, with dict exercise maps |
| Weekly.ParseAt | scripts/weekly_summary.py:28-34 | the parsed week is the entries of each day in order |
| Weekly.MissingDay | scripts/weekly_summary.py:30-31 | a day with no state file changes neither result |
| Weekly.NoFiles | scripts/weekly_summary.py:30-31 | a week of missing files gives two empty maps |
| Weekly.DayFails | scripts/weekly_summary.py:29-37 | a day fails iff its file exists and is unparseable, not a dict, has non-dict completions, or holds a non-dict exercise map |
| Weekly.Summarize | scripts/weekly_summary.py:25-41 | the week fails iff some day fails |
| WeeklyCounts.ExercisesCount | scripts/weekly_summary.py:39-40 | one exercise map adds the number of its truthy entries for ex |
| WeeklyCounts.DayExCount | scripts/weekly_summary.py:34-40 | a day adds the number of its (user, ex) truthy hits |
| WeeklyCounts.WeekExCount | scripts/weekly_summary.py:28-40 | the week adds the number of (day, user) truthy hits |
| WeeklyCounts.PerExercise | scripts/weekly_summary.py:39-40 | `per_ex[ex]` is the number of (day, user) pairs where ex is truthy, and ex is absent when that number is 0 |
| WeeklyCounts.DayUserCount | scripts/weekly_summary.py:34-38 | a day adds the user's appearances to `sent` and the appearances with a truthy value to `done` |
| WeeklyCounts.CountUserGet | scripts/weekly_summary.py:35-38 | one entry adds 1 to its own user's `sent`, and 1 to `done` iff a value is truthy |
| WeeklyCounts.WeekUserCount | scripts/weekly_summary.py:28-38 | over the week, done ≤ sent and both are the exact totals |
| WeeklyCounts.PerUser | scripts/weekly_summary.py:35-38 | `sent` is the number of entries for the user, `done` those with a truthy value, done ≤ sent, and the user is absent when never seen |
| WeeklyCounts.DayOnce | scripts/weekly_summary.py:34-38 | with distinct user ids in a day, the day adds 1 to `sent` iff the user appears, and 1 to `done` iff the user appears with a truthy value |
| WeeklyCounts.CompletionsLoaded | scripts/weekly_summary.py:32-33 | the completions of a document `json.loads` returned have distinct user ids and loaded exercise maps |
| WeeklyCounts.DayByCompletions | scripts/weekly_summary.py:28-38 | for such documents a day adds 1 to `sent` iff its completions hold the user, and 1 to `done` iff the user's map holds a truthy value |
| WeeklyCounts.PerUserDays | scripts/weekly_summary.py:28-38 | for such documents `sent` is the number of days whose completions hold the user, `done` the number of those days with a truthy value, done ≤ sent, and the user is absent iff never sent |
| WeeklyCounts.HitsOnce | scripts/weekly_summary.py:39-40 | with distinct exercise keys, one map adds 1 for ex iff its value for ex is truthy |
| WeeklyCounts.PerExerciseUsers | scripts/weekly_summary.py:28-40 | for such documents `per_ex[ex]` is the number of (day, user) pairs whose map has a truthy value for ex, and ex is absent when that number is 0 |
| WeeklyCounts.UserSeen | scripts/weekly_summary.py:34-35 | the keys of `per_user` are exactly the user ids in the processed completions |
| WeeklyCounts.ExerciseSeen | scripts/weekly_summary.py:39-40 | an exercise is a key of `per_ex` iff it is truthy somewhere |
| WeeklyCounts.ExercisesWellFormed | scripts/weekly_summary.py:39-40 | `per_ex` keeps distinct keys and positive counts |
| WeeklyCounts.UserWellFormed | scripts/weekly_summary.py:35-38 | `per_user` keeps distinct keys, `sent` ≥ 1 and done ≤ sent |
| WeeklyCounts.DayWellFormed | scripts/weekly_summary.py:34-40 | a day's tally keeps both maps well formed |
| WeeklyCounts.WeekWellFormed | scripts/weekly_summary.py:28-40 | the week's tally keeps both maps well formed |
| WeeklyCounts.SummaryWellFormed | scripts/weekly_summary.py:25-41 | the summary has distinct keys, sent ≥ 1, done ≤ sent and positive exercise counts |
| WeeklyReport.InsertByCount | scripts/weekly_summary.py:49 | inserting adds exactly that entry |
| WeeklyReport.SortByCount | scripts/weekly_summary.py:49 | the sort is a permutation of `per_ex` |
| WeeklyReport.InsertByCountOrdered | scripts/weekly_summary.py:49 | inserting into non-increasing counts keeps them non-increasing |
| WeeklyReport.SortByCountOrdered | scripts/weekly_summary.py:49 | the exercise rows are in non-increasing count order |
| WeeklyReport.InsertByCountWithCount | scripts/weekly_summary.py:49 | an insert puts the entry ahead of the entries with the same count |
| WeeklyReport.SortByCountStable | scripts/weekly_summary.py:49 | entries with equal counts keep their order in `per_ex` (the sort is stable) |
| WeeklyReport.ReportShape | scripts/weekly_summary.py:43-50 | each table is the single "No data" row iff its map is empty; user rows follow `per_user`; exercise rows are a stable, non-increasing permutation of `per_ex` |
| WeeklyReport.WeekReport | scripts/weekly_summary.py:43-50 | for a summarised week every user row has sent ≥ 1 and done ≤ sent, and every exercise row has a positive count from `per_ex`, largest first |

## Left out

- HMAC-SHA-256 is the parameter `Mac`, so nothing depends on its internals.
- Signing.TokenShape: states the 43-character length only for a MAC result of 32 bytes, because the MAC is a parameter here.
- These scripts only sign links. Checking a token, its 48-hour age limit and the serverless handlers that record completions and carry out deletions live elsewhere and are not part of this model.
- The following are network I/O and are left out: SMTP delivery (`smtp_send` with its retry and sleep, `send_html`), `build_message_html` (MIME assembly), every `main`, and the `.out` preview files.
- File reads are the map `Files.Store`, and the schedule directory is `Schedules.ScheduleStore`.
  - `mkdir` is dropped.
  - Schedules.ScheduleStore.Save: stores the dict itself, taking `json.dumps` followed by `json.loads` to be the identity on it.
- JSON numbers are integers; floats are not modelled.
- Json.Repr: escapes control characters, DEL, U+0080 to U+00A0 and U+00AD as `\xhh`. Other characters that Python's `str.isprintable` rejects, such as U+2028, are left unescaped, because that test depends on the Unicode database.
- Files.Store: paths are plain strings. `pathlib` normalisation (a trailing `/`, `a//b`, `.` components) is not modelled, so `Files.Basename("a/")` is empty where `Path("a/").name` is `a`.
- The Jinja template and the HTML markup are left out. The email is the record of the `tmpl.render` arguments, and a table is its list of rows.
- The adherence-rate column of the user table (`round` of a float ratio) is left out.
- Slug.SlugShape: letters and digits are ASCII only. Python's `isalnum` and `lower` also accept other Unicode letters and digits.
- Schedules.IntOf: accepts an optional sign and ASCII digits after stripping. Python's `int` also accepts `_` digit separators and non-ASCII digits.
- Dates.ParseIso: accepts only the `YYYY-MM-DD` form. The extended forms that Python 3.11 `fromisoformat` also takes are not modelled.
- Dates.WeekdayName: gives the C-locale English name that `strftime("%A")` yields; other locales are not modelled.
- The clock (`time.time()`, `today_local_iso`), the timezone and the environment variables (`NETLIFY_BASE`, `SUBMIT_BASE_URL`, `SIGNING_SECRET`) are inputs.
- Error values carry the kind of exception and its path or key, not its message text.
- `scripts/render_daily.py`, `scripts/lib/templates.py` and `scripts/lib/utils.py` are not part of this model. They are a placeholder, a template file read, and the clock.
