/** The shared link signer of scripts/lib/signing.py: the parameters other
    than `t` are turned into (key, str(value)) pairs, sorted, written as
    `k=quote_plus(v)` joined by `&`, and the HMAC-SHA-256 of that canonical
    string under the secret is returned as unpadded URL-safe base64. */
module Signing {
  import opened Prelude
  import opened PyStr
  import opened Json
  import opened PercentEncoding
  import opened Base64Url
  import opened Sorting

  /** HMAC-SHA-256 keyed by the first argument over the second. The digest
      is computed outside the model; the model only fixes what it is
      applied to. */
  type Mac = (seq<byte>, seq<byte>) -> seq<byte>

  /** Python's order on (str, str) tuples. */
  predicate PairLt(a: (string, string), b: (string, string))
  {
    Lt(a.0, b.0) || (a.0 == b.0 && Lt(a.1, b.1))
  }

  lemma PairLtStrictTotal()
    ensures StrictTotal(PairLt)
  {
    forall a: (string, string) ensures !PairLt(a, a) {
      LtIrreflexive(a.0);
      LtIrreflexive(a.1);
    }
    forall a: (string, string), b: (string, string), c: (string, string)
      | PairLt(a, b) && PairLt(b, c)
      ensures PairLt(a, c)
    {
      if Lt(a.0, b.0) && Lt(b.0, c.0) { LtTransitive(a.0, b.0, c.0); }
      if a.0 == b.0 == c.0 {
        LtIrreflexive(a.0);
        LtTransitive(a.1, b.1, c.1);
      }
    }
    forall a: (string, string), b: (string, string) | a != b
      ensures PairLt(a, b) || PairLt(b, a)
    {
      if a.0 != b.0 { LtTotal(a.0, b.0); } else { LtTotal(a.1, b.1); }
    }
  }

  /** `(k, str(v)) for k, v in params.items() if k != "t"`, in dict order. */
  function Items(params: Dict<Json>): (r: seq<(string, string)>)
    ensures |r| <= |params|
    decreases |params|
  {
    if params == [] then []
    else
      (if params[0].0 == "t" then [] else [(params[0].0, ToStr(params[0].1))])
      + Items(params[1..])
  }

  /** An item is exactly an entry whose key is not `t`, with its value
      converted by `str`. */
  lemma {:induction false} ItemsOf(params: Dict<Json>, x: (string, string))
    ensures x in Items(params) <==>
      exists i :: 0 <= i < |params| && params[i].0 != "t" && x == (params[i].0, ToStr(params[i].1))
    decreases |params|
  {
    if params != [] {
      ItemsOf(params[1..], x);
      if x in Items(params[1..]) {
        var i :| 0 <= i < |params[1..]| && params[1..][i].0 != "t" && x == (params[1..][i].0, ToStr(params[1..][i].1));
        assert params[i + 1] == params[1..][i];
      }
      if exists i :: 0 <= i < |params| && params[i].0 != "t" && x == (params[i].0, ToStr(params[i].1)) {
        var i :| 0 <= i < |params| && params[i].0 != "t" && x == (params[i].0, ToStr(params[i].1));
        if i > 0 {
          assert params[1..][i - 1] == params[i];
        }
      }
    }
  }

  lemma {:induction false} ItemsAppend(a: Dict<Json>, b: Dict<Json>)
    ensures Items(a + b) == Items(a) + Items(b)
    decreases |a|
  {
    if a != [] {
      assert (a + b)[0] == a[0] && (a + b)[1..] == a[1..] + b;
      ItemsAppend(a[1..], b);
    } else {
      assert a + b == b;
    }
  }

  /** Reordering the dict's entries reorders its items and nothing more. */
  lemma {:induction false} ItemsPermutation(p1: Dict<Json>, p2: Dict<Json>)
    requires multiset(p1) == multiset(p2)
    ensures multiset(Items(p1)) == multiset(Items(p2))
    decreases |p1|
  {
    if p1 == [] {
      assert |p2| == |multiset(p2)| == 0;
    } else {
      var e := p1[0];
      assert e in multiset(p2);
      var j :| 0 <= j < |p2| && p2[j] == e;
      var x, y := p2[..j], p2[j + 1..];
      assert p2 == x + [e] + y;
      assert p1 == [e] + p1[1..];
      assert multiset(p1[1..]) == multiset(x + y) by {
        assert multiset(p1) == multiset{e} + multiset(p1[1..]);
        assert multiset(p2) == multiset(x) + multiset{e} + multiset(y);
        assert multiset(x + y) == multiset(x) + multiset(y);
        assert multiset(p1[1..]) == multiset(p1) - multiset{e};
      }
      ItemsPermutation(p1[1..], x + y);
      ItemsAppend(x, y);
      ItemsAppend(x + [e], y);
      ItemsAppend(x, [e]);
      ItemsAppend([e], p1[1..]);
    }
  }

  /** Writing `t` into the dict, as a new entry or over an old one, leaves
      the items unchanged. */
  lemma ItemsIgnoreT(params: Dict<Json>, v: Json)
    ensures Items(Put(params, "t", v)) == Items(params)
  {
    if HasKey(params, "t") {
      var i := IndexOf(params, "t");
      var q := Put(params, "t", v);
      assert params == params[..i] + [params[i]] + params[i + 1..];
      assert q == params[..i] + [("t", v)] + params[i + 1..];
      ItemsAppend(params[..i] + [params[i]], params[i + 1..]);
      ItemsAppend(params[..i], [params[i]]);
      ItemsAppend(params[..i] + [("t", v)], params[i + 1..]);
      ItemsAppend(params[..i], [("t", v)]);
    } else {
      ItemsAppend(params, [("t", v)]);
    }
  }

  /** `sorted(items)`. */
  function SortedItems(params: Dict<Json>): seq<(string, string)>
  {
    Sort(Items(params), PairLt)
  }

  /** `f"{k}={quote_plus(v)}"`. */
  function Assignment(kv: (string, string)): (r: string)
    ensures '&' !in kv.0 ==> '&' !in r
  {
    QuotePlusAlphabet(kv.1);
    kv.0 + "=" + QuotePlus(kv.1)
  }

  function Assignments(items: seq<(string, string)>): (r: seq<string>)
    ensures |r| == |items|
    ensures forall i :: 0 <= i < |items| ==> r[i] == Assignment(items[i])
  {
    seq(|items|, i requires 0 <= i < |items| => Assignment(items[i]))
  }

  /** The canonical string the MAC is taken over: empty exactly when
      there are no parameters other than `t`. */
  function Canonical(params: Dict<Json>): (r: string)
    ensures r == "" <==> Items(params) == []
  {
    JoinedEmpty(params);
    Join("&", Assignments(SortedItems(params)))
  }

  /** Every assignment holds `=`, so joining them is empty only for none. */
  lemma JoinedEmpty(params: Dict<Json>)
    ensures Join("&", Assignments(SortedItems(params))) == "" <==> Items(params) == []
  {
    var a := Assignments(SortedItems(params));
    if Items(params) != [] {
      assert |SortedItems(params)| >= 1;
      JoinStartsWith(a);
      assert a[0][|SortedItems(params)[0].0|] == '=';
    }
  }

  /** `sign_params(params, secret)`: the token holds no `=`, and once
      re-padded it decodes to the MAC of the secret over the canonical
      string, so it depends on those two alone. */
  function SignParams(params: Dict<Json>, secret: string, mac: Mac): (r: string)
    ensures '=' !in r
    ensures Decode(Repad(r)) == Some(mac(Utf8(secret), Utf8(Canonical(params))))
  {
    DecodeRepadB64Url(mac(Utf8(secret), Utf8(Canonical(params))));
    B64Url(mac(Utf8(secret), Utf8(Canonical(params))))
  }

  // ---------------------------------------------------------------------
  // What the canonical string depends on
  // ---------------------------------------------------------------------

  /** The canonical items are sorted: ascending key order, ties broken by
      the value. */
  lemma CanonicalItemsSorted(params: Dict<Json>)
    ensures SortedBy(SortedItems(params), PairLt)
    ensures forall i, j :: 0 <= i < j < |SortedItems(params)| ==>
      Le(SortedItems(params)[i].0, SortedItems(params)[j].0)
  {
    PairLtStrictTotal();
    SortSorted(Items(params), PairLt);
  }

  /** The canonical items are the dict's non-`t` entries, each once. */
  lemma CanonicalItemsAreEntries(params: Dict<Json>)
    ensures multiset(SortedItems(params)) == multiset(Items(params))
    ensures forall x :: x in SortedItems(params) ==>
      exists i :: 0 <= i < |params| && params[i].0 != "t" && x == (params[i].0, ToStr(params[i].1))
  {
    forall x | x in SortedItems(params)
      ensures exists i :: 0 <= i < |params| && params[i].0 != "t" && x == (params[i].0, ToStr(params[i].1))
    {
      assert x in multiset(Items(params));
      ItemsOf(params, x);
    }
  }

  /** The signature does not depend on the order the parameters were
      inserted in. */
  lemma OrderIndependent(p1: Dict<Json>, p2: Dict<Json>, secret: string, mac: Mac)
    requires multiset(p1) == multiset(p2)
    ensures Canonical(p1) == Canonical(p2)
    ensures SignParams(p1, secret, mac) == SignParams(p2, secret, mac)
  {
    ItemsPermutation(p1, p2);
    PairLtStrictTotal();
    SortPermutationInvariant(Items(p1), Items(p2), PairLt);
  }

  /** A `t` entry, the signature slot itself, never enters the signature. */
  lemma IgnoresT(params: Dict<Json>, v: Json, secret: string, mac: Mac)
    ensures Canonical(Put(params, "t", v)) == Canonical(params)
    ensures SignParams(Put(params, "t", v), secret, mac) == SignParams(params, secret, mac)
  {
    ItemsIgnoreT(params, v);
  }

  lemma JoinStartsWith(parts: seq<string>)
    requires |parts| >= 1
    ensures |Join("&", parts)| >= |parts[0]|
    ensures Join("&", parts)[..|parts[0]|] == parts[0]
  {
  }

  // ---------------------------------------------------------------------
  // Reading the canonical string back
  // ---------------------------------------------------------------------

  /** Split a canonical string into its (key, encoded value) pairs. */
  function ParseCanonical(c: string): Option<seq<(string, string)>>
  {
    if c == "" then Some([]) else ParseAssignments(SplitOn(c, '&'))
  }

  function ParseAssignments(parts: seq<string>): Option<seq<(string, string)>>
    decreases |parts|
  {
    if parts == [] then Some([])
    else
      match SplitFirst(parts[0], '=')
      case NotFound => None
      case Found(k, v) =>
        match ParseAssignments(parts[1..])
        case None => None
        case Some(rest) => Some([(k, v)] + rest)
  }

  function Encoded(items: seq<(string, string)>): (r: seq<(string, string)>)
    ensures |r| == |items|
    ensures forall i :: 0 <= i < |items| ==> r[i] == (items[i].0, QuotePlus(items[i].1))
  {
    seq(|items|, i requires 0 <= i < |items| => (items[i].0, QuotePlus(items[i].1)))
  }

  predicate PlainKeys(params: Dict<Json>)
  {
    forall i :: 0 <= i < |params| ==> '&' !in params[i].0 && '=' !in params[i].0
  }

  lemma {:induction false} ParseAssignmentsOf(items: seq<(string, string)>)
    requires forall i :: 0 <= i < |items| ==> '=' !in items[i].0
    ensures ParseAssignments(Assignments(items)) == Some(Encoded(items))
    decreases |items|
  {
    if items != [] {
      var a := Assignments(items);
      SplitFirstOf(items[0].0, '=', QuotePlus(items[0].1));
      assert a[0] == items[0].0 + ['='] + QuotePlus(items[0].1);
      assert a[1..] == Assignments(items[1..]);
      ParseAssignmentsOf(items[1..]);
      assert Encoded(items) == [(items[0].0, QuotePlus(items[0].1))] + Encoded(items[1..]);
    }
  }

  /** When no key holds `&` or `=`, the canonical string is read back as
      the sorted keys with their encoded values, so two parameter sets get
      the same canonical string only if they agree on every key and every
      encoded value. */
  lemma CanonicalParses(params: Dict<Json>)
    requires PlainKeys(params)
    ensures ParseCanonical(Canonical(params)) == Some(Encoded(SortedItems(params)))
  {
    var items := SortedItems(params);
    CanonicalItemsAreEntries(params);
    forall i | 0 <= i < |items|
      ensures '&' !in items[i].0 && '=' !in items[i].0
    {
      assert items[i] in items;
    }
    ParseAssignmentsOf(items);
    if items != [] {
      var a := Assignments(items);
      forall i | 0 <= i < |a| ensures '&' !in a[i] {
        QuotePlusAlphabet(items[i].1);
      }
      SplitJoin(a, '&');
    }
  }

  /** Equal canonical strings mean equal sorted keys and encoded values. */
  lemma CanonicalDetermines(p1: Dict<Json>, p2: Dict<Json>)
    requires PlainKeys(p1) && PlainKeys(p2)
    requires Canonical(p1) == Canonical(p2)
    ensures Encoded(SortedItems(p1)) == Encoded(SortedItems(p2))
  {
    CanonicalParses(p1);
    CanonicalParses(p2);
  }

  // ---------------------------------------------------------------------
  // The token
  // ---------------------------------------------------------------------

  /** The token is unpadded URL-safe base64 of the digest: only letters,
      digits, `-` and `_`, never `=`, and 43 characters for a 32-byte
      HMAC-SHA-256 digest. */
  lemma TokenShape(params: Dict<Json>, secret: string, mac: Mac)
    ensures var t := SignParams(params, secret, mac);
      && (forall i :: 0 <= i < |t| ==> AlphabetChar(t[i]))
      && '=' !in t
      && |t| == (4 * |mac(Utf8(secret), Utf8(Canonical(params)))| + 2) / 3
    ensures |mac(Utf8(secret), Utf8(Canonical(params)))| == 32 ==>
      |SignParams(params, secret, mac)| == 43
  {
    var d := mac(Utf8(secret), Utf8(Canonical(params)));
    assert SignParams(params, secret, mac) == B64Url(d);
    B64UrlShape(d);
  }
}
