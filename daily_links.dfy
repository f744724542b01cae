/** The link signer inlined in scripts/send_daily.py (`quote_plus`,
    `sign_params`, `build_signed_url`): it sorts the keys themselves, signs
    every key including `t`, and refuses an empty secret; `build_signed_url`
    appends the token as `t` and writes the pairs in dict order. */
module DailyLinks {
  import opened Prelude
  import opened PyStr
  import opened Json
  import opened PercentEncoding
  import opened Base64Url
  import opened Sorting
  import Signing

  /** `quote_plus(s)`: `str(s)` percent-encoded with nothing kept safe. */
  function Quote(v: Json): string
  {
    QuotePlus(ToStr(v))
  }

  lemma QuoteStr(s: string)
    ensures Quote(Str(s)) == QuotePlus(s)
  {
  }

  /** `sorted(params.keys())`. */
  function SortedKeys(params: Dict<Json>): seq<string>
  {
    Sort(Keys(params), Lt)
  }

  /** The (key, str(params[key])) pair of each key in `keys`. */
  function KeyItems(params: Dict<Json>, keys: seq<string>): (r: seq<(string, string)>)
    ensures |r| == |keys|
    ensures forall i :: 0 <= i < |keys| ==> r[i] == (keys[i], ToStr(Field(params, keys[i])))
  {
    seq(|keys|, i requires 0 <= i < |keys| => (keys[i], ToStr(Field(params, keys[i]))))
  }

  /** `"&".join(f"{k}={quote_plus(params[k])}" for k in keys)`. */
  function DailyCanonical(params: Dict<Json>): string
  {
    Join("&", Signing.Assignments(KeyItems(params, SortedKeys(params))))
  }

  /** `sign_params(params)`: RuntimeError without a secret. */
  function SignParams(params: Dict<Json>, secret: string, mac: Signing.Mac): (r: Result<string>)
    ensures r.Err? <==> secret == ""
    ensures r.Err? ==> r.error == SecretNotSet
  {
    if secret == "" then Err(SecretNotSet)
    else Ok(B64Url(mac(Utf8(secret), Utf8(DailyCanonical(params)))))
  }

  // ---------------------------------------------------------------------
  // Agreement with scripts/lib/signing.py
  // ---------------------------------------------------------------------

  lemma LtStrictTotal()
    ensures StrictTotal(Lt)
  {
    forall a: string ensures !Lt(a, a) { LtIrreflexive(a); }
    forall a: string, b: string, c: string | Lt(a, b) && Lt(b, c) ensures Lt(a, c) {
      LtTransitive(a, b, c);
    }
    forall a: string, b: string | a != b ensures Lt(a, b) || Lt(b, a) { LtTotal(a, b); }
  }

  lemma {:induction false} ItemsNoT(params: Dict<Json>)
    requires !HasKey(params, "t")
    ensures |Signing.Items(params)| == |params|
    ensures forall i :: 0 <= i < |params| ==>
      Signing.Items(params)[i] == (params[i].0, ToStr(params[i].1))
    decreases |params|
  {
    if params != [] {
      ItemsNoT(params[1..]);
      assert params[0].0 != "t";
      forall i | 0 < i < |params|
        ensures Signing.Items(params)[i] == (params[i].0, ToStr(params[i].1))
      {
        assert params[1..][i - 1] == params[i];
      }
    }
  }

  /** Without duplicate keys or `t`, the shared signer's items are the key
      items of the dict's own keys. */
  lemma ItemsAreKeyItems(params: Dict<Json>)
    requires DistinctKeys(params) && !HasKey(params, "t")
    ensures Signing.Items(params) == KeyItems(params, Keys(params))
  {
    ItemsNoT(params);
    forall i | 0 <= i < |params|
      ensures Field(params, params[i].0) == params[i].1
    {
      IndexOfIs(params, params[i].0, i);
    }
  }

  lemma KeyItemsAppend(params: Dict<Json>, a: seq<string>, b: seq<string>)
    ensures KeyItems(params, a + b) == KeyItems(params, a) + KeyItems(params, b)
  {
  }

  /** Reordering the keys reorders their items and nothing more. */
  lemma {:induction false} KeyItemsPermutation(params: Dict<Json>, a: seq<string>, b: seq<string>)
    requires multiset(a) == multiset(b)
    ensures multiset(KeyItems(params, a)) == multiset(KeyItems(params, b))
    decreases |a|
  {
    if a == [] {
      assert |b| == |multiset(b)| == 0;
    } else {
      var e := a[0];
      assert e in multiset(b);
      var j :| 0 <= j < |b| && b[j] == e;
      var x, y := b[..j], b[j + 1..];
      assert b == x + [e] + y;
      assert a == [e] + a[1..];
      assert multiset(a[1..]) == multiset(x + y) by {
        assert multiset(a) == multiset{e} + multiset(a[1..]);
        assert multiset(b) == multiset(x) + multiset{e} + multiset(y);
        assert multiset(x + y) == multiset(x) + multiset(y);
        assert multiset(a[1..]) == multiset(a) - multiset{e};
      }
      KeyItemsPermutation(params, a[1..], x + y);
      KeyItemsAppend(params, x, y);
      KeyItemsAppend(params, x + [e], y);
      KeyItemsAppend(params, x, [e]);
      KeyItemsAppend(params, [e], a[1..]);
    }
  }

  /** Items listed by ascending key are in the shared signer's order. */
  lemma KeyItemsSorted(params: Dict<Json>, keys: seq<string>)
    requires SortedBy(keys, Lt)
    ensures SortedBy(KeyItems(params, keys), Signing.PairLt)
  {
  }

  /** For a dict without `t` both signers build the same canonical string,
      so, with a secret set, the same token. */
  lemma SameAsShared(params: Dict<Json>, secret: string, mac: Signing.Mac)
    requires DistinctKeys(params) && !HasKey(params, "t")
    ensures DailyCanonical(params) == Signing.Canonical(params)
    ensures secret != "" ==> SignParams(params, secret, mac) == Ok(Signing.SignParams(params, secret, mac))
  {
    var keys := SortedKeys(params);
    var s := KeyItems(params, keys);
    LtStrictTotal();
    SortSorted(Keys(params), Lt);
    KeyItemsSorted(params, keys);
    KeyItemsPermutation(params, keys, Keys(params));
    ItemsAreKeyItems(params);
    Signing.PairLtStrictTotal();
    SortSorted(Signing.Items(params), Signing.PairLt);
    SortedUnique(s, Signing.SortedItems(params), Signing.PairLt);
  }

  lemma EncodedAppend(a: seq<(string, string)>, b: seq<(string, string)>)
    ensures Signing.Encoded(a + b) == Signing.Encoded(a) + Signing.Encoded(b)
  {
  }

  /** Encoding the values of a reordered list reorders the encoded list. */
  lemma {:induction false} EncodedPermutation(a: seq<(string, string)>, b: seq<(string, string)>)
    requires multiset(a) == multiset(b)
    ensures multiset(Signing.Encoded(a)) == multiset(Signing.Encoded(b))
    decreases |a|
  {
    if a == [] {
      assert |b| == |multiset(b)| == 0;
    } else {
      var e := a[0];
      assert e in multiset(b);
      var j :| 0 <= j < |b| && b[j] == e;
      var x, y := b[..j], b[j + 1..];
      assert b == x + [e] + y;
      assert a == [e] + a[1..];
      assert multiset(a[1..]) == multiset(x + y) by {
        assert multiset(a) == multiset{e} + multiset(a[1..]);
        assert multiset(b) == multiset(x) + multiset{e} + multiset(y);
        assert multiset(x + y) == multiset(x) + multiset(y);
        assert multiset(a[1..]) == multiset(a) - multiset{e};
      }
      EncodedPermutation(a[1..], x + y);
      EncodedAppend(x, y);
      EncodedAppend(x + [e], y);
      EncodedAppend(x, [e]);
      EncodedAppend([e], a[1..]);
    }
  }

  /** What the token signs, read back: the canonical string splits into
      the parameters' (key, encoded value) pairs, in some order. */
  lemma SignedPairs(params: Dict<Json>)
    requires DistinctKeys(params) && !HasKey(params, "t") && Signing.PlainKeys(params)
    ensures Signing.ParseCanonical(DailyCanonical(params)).Some?
    ensures multiset(Signing.ParseCanonical(DailyCanonical(params)).value) ==
      multiset(Signing.Encoded(Pairs(params)))
  {
    SameAsShared(params, "", (a, b) => []);
    Signing.CanonicalParses(params);
    Signing.CanonicalItemsAreEntries(params);
    ItemsNoT(params);
    assert Signing.Items(params) == Pairs(params);
    EncodedPermutation(Signing.SortedItems(params), Pairs(params));
  }

  // ---------------------------------------------------------------------
  // build_signed_url
  // ---------------------------------------------------------------------

  /** `(k, str(v)) for k, v in p.items()`. */
  function Pairs(p: Dict<Json>): (r: seq<(string, string)>)
    ensures |r| == |p|
    ensures forall i :: 0 <= i < |p| ==> r[i] == (p[i].0, ToStr(p[i].1))
  {
    seq(|p|, i requires 0 <= i < |p| => (p[i].0, ToStr(p[i].1)))
  }

  /** `"&" if "?" in base else "?"`. */
  function Joiner(base: string): string
  {
    if '?' in base then "&" else "?"
  }

  /** What `build_signed_url(base, params)` returns. */
  function SignedUrl(base: string, params: Dict<Json>, secret: string, mac: Signing.Mac): Result<string>
  {
    var token :- SignParams(params, secret, mac);
    var p := Put(params, "t", Str(token));
    Ok(base + Joiner(base) + Join("&", Signing.Assignments(Pairs(p))))
  }

  /** `build_signed_url(base, params)`: copy the dict, sign the original,
      store the token under `t`, and write every pair of the copy. */
  method BuildSignedUrl(base: string, params: Dict<Json>, secret: string, mac: Signing.Mac)
    returns (r: Result<string>)
    ensures r == SignedUrl(base, params, secret, mac)
  {
    var p := params;
    var token := SignParams(params, secret, mac);
    if token.Err? {
      return Err(token.error);
    }
    p := Put(p, "t", Str(token.value));
    var qs := Join("&", Signing.Assignments(Pairs(p)));
    var joiner := if '?' in base then "&" else "?";
    r := Ok(base + joiner + qs);
  }

  /** The query `build_signed_url` writes. */
  function QueryOf(base: string, url: string): string
    requires |url| > |base|
  {
    url[|base| + 1..]
  }

  lemma AlphabetIsUnreserved(t: string)
    requires forall i :: 0 <= i < |t| ==> AlphabetChar(t[i])
    ensures forall i :: 0 <= i < |t| ==> UnreservedChar(t[i])
  {
  }

  /** The pairs of a dict without `t`, then `t` with a token made of
      unreserved characters, read back from their `&`-joined assignments. */
  lemma QueryParses(params: Dict<Json>, token: string)
    requires !HasKey(params, "t") && Signing.PlainKeys(params)
    requires forall i :: 0 <= i < |token| ==> UnreservedChar(token[i])
    ensures Signing.ParseCanonical(Join("&", Signing.Assignments(Pairs(Put(params, "t", Str(token)))))) ==
      Some(Signing.Encoded(Pairs(params)) + [("t", token)])
  {
    var p := Put(params, "t", Str(token));
    var items := Pairs(p);
    assert p == params + [("t", Str(token))];
    assert items == Pairs(params) + [("t", token)];
    var a := Signing.Assignments(items);
    forall i | 0 <= i < |items|
      ensures '&' !in items[i].0 && '=' !in items[i].0
    {
      if i < |params| { assert items[i].0 == params[i].0; }
    }
    forall i | 0 <= i < |a| ensures '&' !in a[i] {
      QuotePlusAlphabet(items[i].1);
    }
    Signing.ParseAssignmentsOf(items);
    SplitJoin(a, '&');
    Signing.JoinStartsWith(a);
    assert a[0][|items[0].0|] == '=';
    QuotePlusUnreserved(token);
    assert Signing.Encoded(items) == Signing.Encoded(Pairs(params)) + [("t", token)];
  }

  /** A signed URL is the base, then `&` exactly when the base already has
      a `?` (else `?`), then a query that reads back, split on `&` and the
      first `=`, as the caller's pairs in insertion order with encoded
      values followed by `t` and the token, which signs the parameters as
      they were before `t` was added. An empty secret raises. */
  lemma SignedUrlShape(base: string, params: Dict<Json>, secret: string, mac: Signing.Mac)
    requires !HasKey(params, "t") && Signing.PlainKeys(params)
    ensures SignedUrl(base, params, secret, mac).Ok? <==> secret != ""
    ensures SignedUrl(base, params, secret, mac).Ok? ==>
      var url := SignedUrl(base, params, secret, mac).value;
      var token := SignParams(params, secret, mac).value;
      && |url| > |base|
      && url[..|base|] == base
      && (url[|base|] == '&' <==> '?' in base)
      && Signing.ParseCanonical(QueryOf(base, url)) ==
           Some(Signing.Encoded(Pairs(params)) + [("t", token)])
  {
    if secret != "" {
      var token := SignParams(params, secret, mac).value;
      var q := Join("&", Signing.Assignments(Pairs(Put(params, "t", Str(token)))));
      var url := base + Joiner(base) + q;
      assert SignedUrl(base, params, secret, mac) == Ok(url);
      assert QueryOf(base, url) == q;
      B64UrlShape(mac(Utf8(secret), Utf8(DailyCanonical(params))));
      AlphabetIsUnreserved(token);
      QueryParses(params, token);
    }
  }

  /** The token in the URL is the one the shared signer gives the caller's
      parameters. */
  lemma SignedUrlToken(base: string, params: Dict<Json>, secret: string, mac: Signing.Mac)
    requires DistinctKeys(params) && !HasKey(params, "t") && secret != ""
    ensures SignParams(params, secret, mac) == Ok(Signing.SignParams(params, secret, mac))
  {
    SameAsShared(params, secret, mac);
  }

  /** Any reordering of the encoded pairs of a dict holds each of them. */
  lemma PairIn(p: Dict<Json>, x: seq<(string, string)>, i: nat)
    requires multiset(x) == multiset(Signing.Encoded(Pairs(p))) && i < |p|
    ensures |x| == |p| && (p[i].0, QuotePlus(ToStr(p[i].1))) in x
  {
    var e := Signing.Encoded(Pairs(p));
    assert |x| == |multiset(x)| == |multiset(e)| == |p|;
    assert e[i] in multiset(e);
  }

  /** The same, for a pair named by its key and encoded value. */
  lemma PairAt(p: Dict<Json>, x: seq<(string, string)>, i: nat, k: string, v: string)
    requires multiset(x) == multiset(Signing.Encoded(Pairs(p))) && i < |p|
    requires p[i].0 == k && Quote(p[i].1) == v
    ensures |x| == |p| && (k, v) in x
  {
    PairIn(p, x, i);
  }

  /** The first four encoded pairs of a five-entry dict, named by their
      keys and encoded values, are in any reordering of its encoding. */
  lemma FivePairs(k0: string, v0: Json, e0: string, k1: string, v1: Json, e1: string,
                  k2: string, v2: Json, e2: string, k3: string, v3: Json, e3: string,
                  k4: string, v4: Json, x: seq<(string, string)>)
    requires multiset(x) == multiset(Signing.Encoded(Pairs([(k0, v0), (k1, v1), (k2, v2), (k3, v3), (k4, v4)])))
    requires Quote(v0) == e0 && Quote(v1) == e1 && Quote(v2) == e2 && Quote(v3) == e3
    ensures |x| == 5 && (k0, e0) in x && (k1, e1) in x && (k2, e2) in x && (k3, e3) in x
  {
    var p := [(k0, v0), (k1, v1), (k2, v2), (k3, v3), (k4, v4)];
    PairIn(p, x, 0);
    PairIn(p, x, 1);
    PairIn(p, x, 2);
    PairIn(p, x, 3);
  }

  /** Every pair of such a reordering carries one of the dict's keys. */
  lemma PairKey(p: Dict<Json>, x: seq<(string, string)>, y: (string, string))
    requires multiset(x) == multiset(Signing.Encoded(Pairs(p))) && y in x
    ensures exists i :: 0 <= i < |p| && y.0 == p[i].0
  {
    var e := Signing.Encoded(Pairs(p));
    assert y in multiset(e);
    var i :| 0 <= i < |e| && e[i] == y;
    assert y.0 == p[i].0;
  }
}
