/** What the signed links of the daily email carry: the pairs each delete
    scope signs, and the completion links read back from their query. */
module DailyEmailLinks {
  import opened Prelude
  import opened PyStr
  import opened Json
  import opened PercentEncoding
  import Signing
  import DailyLinks
  import opened DailyEmail

  lemma DayPairs(ctx: Ctx, x: seq<(string, string)>)
    requires multiset(x) == multiset(Signing.Encoded(DailyLinks.Pairs(DayParams(ctx))))
    ensures |x| == 4 && ("scope", "day") in x && ("d", QuotePlus(ctx.date)) in x
    ensures ("u", DailyLinks.Quote(ctx.user)) in x
  {
    var p := DayParams(ctx);
    QuotePlusUnreserved("day");
    DailyLinks.PairAt(p, x, 0, "u", DailyLinks.Quote(ctx.user));
    DailyLinks.PairAt(p, x, 1, "scope", "day");
    DailyLinks.PairAt(p, x, 2, "d", QuotePlus(ctx.date));
  }

  lemma MonthPairs(ctx: Ctx, yyyy: string, mm: string, x: seq<(string, string)>)
    requires multiset(x) == multiset(Signing.Encoded(DailyLinks.Pairs(MonthParams(ctx, yyyy, mm))))
    ensures |x| == 5 && ("scope", "month") in x && ("y", QuotePlus(yyyy)) in x && ("m", QuotePlus(mm)) in x
    ensures ("u", DailyLinks.Quote(ctx.user)) in x
  {
    assert MonthParams(ctx, yyyy, mm) ==
      [("u", ctx.user), ("scope", Str("month")), ("y", Str(yyyy)), ("m", Str(mm)), ("ts", Str(ctx.ts))];
    QuotePlusUnreserved("month");
    DailyLinks.QuoteStr("month");
    DailyLinks.QuoteStr(yyyy);
    DailyLinks.QuoteStr(mm);
    DailyLinks.FivePairs("u", ctx.user, DailyLinks.Quote(ctx.user), "scope", Str("month"), "month",
                         "y", Str(yyyy), QuotePlus(yyyy), "m", Str(mm), QuotePlus(mm), "ts", Str(ctx.ts), x);
  }

  lemma AllPairs(ctx: Ctx, x: seq<(string, string)>)
    requires multiset(x) == multiset(Signing.Encoded(DailyLinks.Pairs(AllParams(ctx))))
    ensures |x| == 3 && ("scope", "all") in x && ("u", DailyLinks.Quote(ctx.user)) in x
    ensures forall y :: y in x ==> y.0 == "u" || y.0 == "scope" || y.0 == "ts"
  {
    var p := AllParams(ctx);
    QuotePlusUnreserved("all");
    DailyLinks.PairAt(p, x, 0, "u", DailyLinks.Quote(ctx.user));
    DailyLinks.PairAt(p, x, 1, "scope", "all");
    forall y | y in x ensures y.0 == "u" || y.0 == "scope" || y.0 == "ts" {
      DailyLinks.PairKey(p, x, y);
    }
  }

  /** The signed string of a day deletion reads back as four pairs, among
      them the user, `scope=day` and the date. */
  lemma DayScope(ctx: Ctx)
    ensures var x := Signing.ParseCanonical(DailyLinks.DailyCanonical(DayParams(ctx)));
      && x.Some? && |x.value| == 4
      && ("scope", "day") in x.value && ("d", QuotePlus(ctx.date)) in x.value
      && ("u", DailyLinks.Quote(ctx.user)) in x.value
  {
    DailyLinks.SignedPairs(DayParams(ctx));
    DayPairs(ctx, Signing.ParseCanonical(DailyLinks.DailyCanonical(DayParams(ctx))).value);
  }

  /** The signed string of a month deletion reads back as five pairs,
      among them the user, `scope=month`, the year and the month. */
  lemma MonthScope(ctx: Ctx, yyyy: string, mm: string)
    ensures var x := Signing.ParseCanonical(DailyLinks.DailyCanonical(MonthParams(ctx, yyyy, mm)));
      && x.Some? && |x.value| == 5
      && ("scope", "month") in x.value && ("y", QuotePlus(yyyy)) in x.value && ("m", QuotePlus(mm)) in x.value
      && ("u", DailyLinks.Quote(ctx.user)) in x.value
  {
    DailyLinks.SignedPairs(MonthParams(ctx, yyyy, mm));
    MonthPairs(ctx, yyyy, mm, Signing.ParseCanonical(DailyLinks.DailyCanonical(MonthParams(ctx, yyyy, mm))).value);
  }

  /** The signed string of an all deletion reads back as exactly the user,
      `scope=all` and the timestamp: no date is bound. */
  lemma AllScope(ctx: Ctx)
    ensures var x := Signing.ParseCanonical(DailyLinks.DailyCanonical(AllParams(ctx)));
      && x.Some? && |x.value| == 3
      && ("scope", "all") in x.value && ("u", DailyLinks.Quote(ctx.user)) in x.value
      && forall y :: y in x.value ==> y.0 == "u" || y.0 == "scope" || y.0 == "ts"
  {
    DailyLinks.SignedPairs(AllParams(ctx));
    AllPairs(ctx, Signing.ParseCanonical(DailyLinks.DailyCanonical(AllParams(ctx))).value);
  }

  /** The three scopes sign three different strings. */
  lemma ScopesDiffer(ctx: Ctx, yyyy: string, mm: string)
    ensures DailyLinks.DailyCanonical(DayParams(ctx)) != DailyLinks.DailyCanonical(MonthParams(ctx, yyyy, mm))
    ensures DailyLinks.DailyCanonical(DayParams(ctx)) != DailyLinks.DailyCanonical(AllParams(ctx))
    ensures DailyLinks.DailyCanonical(MonthParams(ctx, yyyy, mm)) != DailyLinks.DailyCanonical(AllParams(ctx))
  {
    DayScope(ctx);
    MonthScope(ctx, yyyy, mm);
    AllScope(ctx);
  }

  lemma SubmitPairs(ctx: Ctx, ex: Json)
    ensures Signing.Encoded(DailyLinks.Pairs(SubmitParams(ctx, ex))) ==
      [("u", DailyLinks.Quote(ctx.user)), ("d", QuotePlus(ctx.date)), ("ex", DailyLinks.Quote(ex)), ("ts", QuotePlus(ctx.ts))]
  {
    EncodedFour("u", ctx.user, "d", Str(ctx.date), "ex", ex, "ts", Str(ctx.ts));
    DailyLinks.QuoteStr(ctx.date);
    DailyLinks.QuoteStr(ctx.ts);
  }

  /** A four-entry dict is encoded entry by entry. */
  lemma EncodedFour(k0: string, v0: Json, k1: string, v1: Json, k2: string, v2: Json, k3: string, v3: Json)
    ensures Signing.Encoded(DailyLinks.Pairs([(k0, v0), (k1, v1), (k2, v2), (k3, v3)])) ==
      [(k0, DailyLinks.Quote(v0)), (k1, DailyLinks.Quote(v1)), (k2, DailyLinks.Quote(v2)), (k3, DailyLinks.Quote(v3))]
  {
  }

  /** The submit parameters are four distinct plain keys, none of them `t`. */
  lemma SubmitKeys(ctx: Ctx, ex: Json)
    ensures var p := SubmitParams(ctx, ex);
      DistinctKeys(p) && !HasKey(p, "t") && Signing.PlainKeys(p)
  {
  }

  /** A completion link is the submit base, then a query that reads back as
      the encoded submit parameters followed by the shared signer's token. */
  lemma SubmitLinkQuery(ctx: Ctx, ex: Json)
    requires ctx.cfg.secret != ""
    ensures var base := SubmitBase(ctx.cfg);
      var link := Signed(ctx, base, SubmitParams(ctx, ex));
      && link.Ok?
      && link.value[..|base|] == base
      && Signing.ParseCanonical(DailyLinks.QueryOf(base, link.value)) == Some(
           Signing.Encoded(DailyLinks.Pairs(SubmitParams(ctx, ex))) +
           [("t", Signing.SignParams(SubmitParams(ctx, ex), ctx.cfg.secret, ctx.mac))])
  {
    var base := SubmitBase(ctx.cfg);
    var p := SubmitParams(ctx, ex);
    SubmitKeys(ctx, ex);
    DailyLinks.SignedUrlShape(base, p, ctx.cfg.secret, ctx.mac);
    DailyLinks.SignedUrlToken(base, p, ctx.cfg.secret, ctx.mac);
  }

  /** The completion links for items, "ALL" and "SKIP" read back as the
      user, the date, the exercise and the timestamp, then the token the
      shared signer gives those four parameters. */
  lemma SubmitLinkShape(ctx: Ctx, ex: Json)
    requires ctx.cfg.secret != ""
    ensures var base := SubmitBase(ctx.cfg);
      var link := Signed(ctx, base, SubmitParams(ctx, ex));
      && link.Ok?
      && link.value[..|base|] == base
      && Signing.ParseCanonical(DailyLinks.QueryOf(base, link.value)) == Some([
           ("u", DailyLinks.Quote(ctx.user)), ("d", QuotePlus(ctx.date)), ("ex", DailyLinks.Quote(ex)),
           ("ts", QuotePlus(ctx.ts)), ("t", Signing.SignParams(SubmitParams(ctx, ex), ctx.cfg.secret, ctx.mac))])
  {
    SubmitLinkQuery(ctx, ex);
    SubmitPairs(ctx, ex);
    FourThenOne(("u", DailyLinks.Quote(ctx.user)), ("d", QuotePlus(ctx.date)), ("ex", DailyLinks.Quote(ex)),
                ("ts", QuotePlus(ctx.ts)), ("t", Signing.SignParams(SubmitParams(ctx, ex), ctx.cfg.secret, ctx.mac)));
  }

  lemma FourThenOne<T>(a: T, b: T, c: T, d: T, t: T)
    ensures [a, b, c, d] + [t] == [a, b, c, d, t]
  {
  }
}
