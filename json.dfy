/** Parsed JSON values as Python holds them after `json.loads`: a dict keeps
    its insertion order, so objects are association lists. Numbers are
    integers. Also the dict operations the scripts use (`d.get(k)`,
    `d.get(k, default)`, `d[k] = v`, `d.setdefault(k, v)`), Python
    truthiness, iteration and `str(v)`. */
module Json {
  import opened Prelude
  import opened PyStr

  datatype Json =
    | Null
    | Bool(b: bool)
    | Num(n: int)
    | Str(s: string)
    | Arr(items: seq<Json>)
    | Obj(fields: seq<(string, Json)>)

  /** A dict as an association list in insertion order. */
  type Dict<V> = seq<(string, V)>

  function Keys<V>(d: Dict<V>): (ks: seq<string>)
    ensures |ks| == |d| && forall i :: 0 <= i < |d| ==> ks[i] == d[i].0
  {
    seq(|d|, i requires 0 <= i < |d| => d[i].0)
  }

  /** The keys of a four-entry dict literal, in order. */
  lemma KeysOfFour<V>(k0: string, v0: V, k1: string, v1: V, k2: string, v2: V, k3: string, v3: V)
    ensures Keys([(k0, v0), (k1, v1), (k2, v2), (k3, v3)]) == [k0, k1, k2, k3]
  {
    var ks := Keys([(k0, v0), (k1, v1), (k2, v2), (k3, v3)]);
    assert ks[0] == k0 && ks[1] == k1 && ks[2] == k2 && ks[3] == k3;
  }

  /** What every Python dict satisfies: no key twice. */
  predicate DistinctKeys<V>(d: Dict<V>)
  {
    forall i, j :: 0 <= i < j < |d| ==> d[i].0 != d[j].0
  }

  predicate HasKey<V>(d: Dict<V>, k: string)
  {
    exists i :: 0 <= i < |d| && d[i].0 == k
  }

  /** Position of the first entry for k. */
  function IndexOf<V>(d: Dict<V>, k: string): (i: nat)
    requires HasKey(d, k)
    ensures i < |d| && d[i].0 == k
    ensures forall j :: 0 <= j < i ==> d[j].0 != k
  {
    if d[0].0 == k then 0
    else
      assert HasKey(d[1..], k) by {
        var j :| 0 <= j < |d| && d[j].0 == k;
        assert d[1..][j - 1].0 == k;
      }
      1 + IndexOf(d[1..], k)
  }

  lemma IndexOfIs<V>(d: Dict<V>, k: string, i: nat)
    requires i < |d| && d[i].0 == k
    requires forall j :: 0 <= j < i ==> d[j].0 != k
    ensures IndexOf(d, k) == i
  {
  }

  /** `d.get(k)`: the value, or None when the key is absent. */
  function Get<V>(d: Dict<V>, k: string): (r: Option<V>)
    ensures r.Some? <==> HasKey(d, k)
    ensures r.Some? ==> r.value == d[IndexOf(d, k)].1
  {
    if HasKey(d, k) then Some(d[IndexOf(d, k)].1) else None
  }

  /** `d.get(k, default)`. */
  function GetOr<V>(d: Dict<V>, k: string, default: V): (r: V)
    ensures HasKey(d, k) ==> r == d[IndexOf(d, k)].1
    ensures !HasKey(d, k) ==> r == default
  {
    match Get(d, k)
    case Some(v) => v
    case None => default
  }

  /** `d[k] = v`: an existing key keeps its position, a new key goes last. */
  function Put<V>(d: Dict<V>, k: string, v: V): (r: Dict<V>)
    ensures HasKey(d, k) ==> |r| == |d| && r == d[IndexOf(d, k) := (k, v)]
    ensures !HasKey(d, k) ==> r == d + [(k, v)]
  {
    if HasKey(d, k) then d[IndexOf(d, k) := (k, v)] else d + [(k, v)]
  }

  /** `d.setdefault(k, v)`: adds (k, v) only when k is absent. */
  function SetDefault<V>(d: Dict<V>, k: string, v: V): (r: Dict<V>)
    ensures HasKey(d, k) ==> r == d
    ensures !HasKey(d, k) ==> r == d + [(k, v)]
  {
    if HasKey(d, k) then d else d + [(k, v)]
  }

  lemma PutGet<V>(d: Dict<V>, k: string, v: V, k': string)
    ensures Get(Put(d, k, v), k') == if k' == k then Some(v) else Get(d, k')
  {
    var r := Put(d, k, v);
    if k' == k {
      assert HasKey(r, k) by {
        if HasKey(d, k) { assert r[IndexOf(d, k)].0 == k; } else { assert r[|d|].0 == k; }
      }
      if HasKey(d, k) { IndexOfIs(r, k, IndexOf(d, k)); }
      else { IndexOfIs(r, k, |d|); }
    } else {
      assert HasKey(r, k') <==> HasKey(d, k') by {
        if HasKey(d, k') { var i := IndexOf(d, k'); assert r[i].0 == k'; }
        if HasKey(r, k') { var i := IndexOf(r, k'); assert d[i].0 == k'; }
      }
      if HasKey(d, k') { IndexOfIs(r, k', IndexOf(d, k')); }
    }
  }

  /** Writing the value a key already holds changes nothing. */
  lemma PutSame<V>(d: Dict<V>, k: string, v: V)
    requires Get(d, k) == Some(v)
    ensures Put(d, k, v) == d
  {
  }

  /** What `json.loads` returns: a dict at any depth holds each key once
      (a key repeated in the text keeps only its last value). */
  predicate Loaded(j: Json)
    decreases j
  {
    match j
    case Arr(xs) => forall i :: 0 <= i < |xs| ==> Loaded(xs[i])
    case Obj(fs) => DistinctKeys(fs) && forall i :: 0 <= i < |fs| ==> Loaded(fs[i].1)
    case _ => true
  }

  /** A value read from a loaded dict is itself loaded. */
  lemma LoadedGetOr(d: Dict<Json>, k: string, default: Json)
    requires forall i :: 0 <= i < |d| ==> Loaded(d[i].1)
    requires Loaded(default)
    ensures Loaded(GetOr(d, k, default))
  {
  }

  lemma PutDistinct<V>(d: Dict<V>, k: string, v: V)
    requires DistinctKeys(d)
    ensures DistinctKeys(Put(d, k, v))
  {
  }

  lemma PutKeepsDistinct<V>(d: Dict<V>, k: string, v: V)
    ensures DistinctKeys(d) ==> DistinctKeys(Put(d, k, v))
  {
    if DistinctKeys(d) {
      PutDistinct(d, k, v);
    }
  }

  /** Python truthiness of a JSON value. */
  predicate Truthy(j: Json)
  {
    match j
    case Null => false
    case Bool(b) => b
    case Num(n) => n != 0
    case Str(s) => s != []
    case Arr(xs) => xs != []
    case Obj(fs) => fs != []
  }

  /** `a or b`: the first operand when it is truthy, else the second. */
  function Or(a: Json, b: Json): (r: Json)
    ensures Truthy(a) ==> r == a
    ensures !Truthy(a) ==> r == b
  {
    if Truthy(a) then a else b
  }

  /** `d.get(k)` where a missing key reads as None. */
  function Field(d: Dict<Json>, k: string): (r: Json)
    ensures HasKey(d, k) ==> r == d[IndexOf(d, k)].1
    ensures !HasKey(d, k) ==> r == Null
  {
    GetOr(d, k, Null)
  }

  /** A value on which the scripts call dict methods: anything else raises
      AttributeError (or TypeError). */
  function AsDict(j: Json): (r: Result<Dict<Json>>)
    ensures r.Ok? <==> j.Obj?
    ensures r.Ok? ==> r.value == j.fields
  {
    if j.Obj? then Ok(j.fields) else Err(TypeMismatch)
  }

  /** What `for x in j` visits: list items, the one-character strings of a
      string, the keys of a dict; numbers, booleans and None raise. */
  function Iterate(j: Json): (r: Result<seq<Json>>)
    ensures j.Arr? ==> r == Ok(j.items)
    ensures j.Str? ==> r.Ok? && |r.value| == |j.s|
    ensures j.Obj? ==> r.Ok? && |r.value| == |j.fields|
    ensures r.Err? <==> (j.Null? || j.Bool? || j.Num?)
  {
    match j
    case Arr(xs) => Ok(xs)
    case Str(s) => Ok(seq(|s|, i requires 0 <= i < |s| => Str([s[i]])))
    case Obj(fs) => Ok(seq(|fs|, i requires 0 <= i < |fs| => Str(fs[i].0)))
    case _ => Err(TypeMismatch)
  }

  /** `str(j)`. Strings are themselves; None, True, False and integers print
      as Python prints them; lists and dicts use their repr, with strings
      inside them in single quotes. */
  function ToStr(j: Json): (r: string)
    ensures j.Str? ==> r == j.s
    ensures j.Num? ==> r == Decimal(j.n)
    ensures j.Null? ==> r == "None"
  {
    match j
    case Str(s) => s
    case _ => Repr(j)
  }

  /** `repr(j)`, what `str` of a list or a dict shows for each item, key
      and value. */
  function Repr(j: Json): (r: string)
    ensures j.Null? ==> r == "None"
    ensures j.Bool? ==> r == if j.b then "True" else "False"
    ensures j.Num? ==> r == Decimal(j.n)
    ensures j.Str? ==> |r| >= 2 && r[0] == r[|r| - 1] == QuoteFor(j.s) && Unescape(r[1..|r| - 1]) == Some(j.s)
    ensures j.Arr? ==> |r| >= 2 && r[0] == '[' && r[|r| - 1] == ']'
    ensures j.Obj? ==> |r| >= 2 && r[0] == '{' && r[|r| - 1] == '}'
  {
    match j
    case Null => "None"
    case Bool(b) => if b then "True" else "False"
    case Num(n) => Decimal(n)
    case Str(s) => ReprStr(s)
    case Arr(xs) =>
      "[" + Join(", ", seq(|xs|, i requires 0 <= i < |xs| => Repr(xs[i]))) + "]"
    case Obj(fs) =>
      "{" + Join(", ", seq(|fs|, i requires 0 <= i < |fs| => ReprStr(fs[i].0) + ": " + Repr(fs[i].1))) + "}"
  }

  // ---------------------------------------------------------------------
  // repr of a string
  // ---------------------------------------------------------------------

  /** The quote `repr` puts round a string: a double quote when it holds a
      single quote and no double quote, a single quote otherwise. */
  function QuoteFor(s: string): (q: char)
    ensures q == '"' <==> '\'' in s && '"' !in s
    ensures q == '\'' || q == '"'
  {
    if '\'' in s && '"' !in s then '"' else '\''
  }

  /** The characters below U+0100 that `repr` shows as `\xhh`: the control
      characters other than tab, newline and carriage return, DEL, the C1
      controls, the no-break space and the soft hyphen. */
  predicate HexEscaped(c: char)
  {
    || (c < ' ' && c != '\t' && c != '\n' && c != '\r')
    || (0x7f <= c as int <= 0xa0)
    || c as int == 0xad
  }

  function LowerHex(n: nat): (c: char)
    requires n < 16
    ensures LowerHexValue(c) == Some(n)
  {
    if n < 10 then ('0' as int + n) as char else ('a' as int + n - 10) as char
  }

  function LowerHexValue(c: char): (r: Option<nat>)
    ensures r.Some? ==> r.value < 16
  {
    if '0' <= c <= '9' then Some(c as int - '0' as int)
    else if 'a' <= c <= 'f' then Some(c as int - 'a' as int + 10)
    else None
  }

  /** One character inside the quotes q: the quote itself and the backslash
      get a backslash, tab, newline and carriage return their letter
      escapes, the characters of HexEscaped two lower-case hex digits. */
  function EscapeChar(c: char, q: char): (r: string)
    ensures r == [c] || (|r| >= 2 && r[0] == '\\')
    ensures r == [c] <==> c != q && c != '\\' && c != '\t' && c != '\n' && c != '\r' && !HexEscaped(c)
  {
    if c == q || c == '\\' then ['\\', c]
    else if c == '\t' then "\\t"
    else if c == '\n' then "\\n"
    else if c == '\r' then "\\r"
    else if HexEscaped(c) then ['\\', 'x', LowerHex(c as int / 16), LowerHex(c as int % 16)]
    else [c]
  }

  function EscapeStr(s: string, q: char): string
    decreases |s|
  {
    if s == [] then [] else EscapeChar(s[0], q) + EscapeStr(s[1..], q)
  }

  /** `repr(s)` for a string s. */
  function ReprStr(s: string): (r: string)
    ensures |r| >= 2 && r[0] == r[|r| - 1] == QuoteFor(s)
    ensures Unescape(r[1..|r| - 1]) == Some(s)
  {
    var q := QuoteFor(s);
    EscapeRoundTrip(s, q);
    var r := [q] + EscapeStr(s, q) + [q];
    assert r[1..|r| - 1] == EscapeStr(s, q);
    r
  }

  function Prepend(c: char, o: Option<string>): Option<string>
  {
    match o
    case Some(t) => Some([c] + t)
    case None => None
  }

  /** Reads the text between the quotes of a string's repr back: the
      partner of EscapeStr. */
  function Unescape(t: string): Option<string>
    decreases |t|
  {
    if t == [] then Some([])
    else if t[0] != '\\' then Prepend(t[0], Unescape(t[1..]))
    else if |t| < 2 then None
    else if t[1] == 't' then Prepend('\t', Unescape(t[2..]))
    else if t[1] == 'n' then Prepend('\n', Unescape(t[2..]))
    else if t[1] == 'r' then Prepend('\r', Unescape(t[2..]))
    else if t[1] == 'x' then
      if |t| >= 4 && LowerHexValue(t[2]).Some? && LowerHexValue(t[3]).Some? then
        Prepend((LowerHexValue(t[2]).value * 16 + LowerHexValue(t[3]).value) as char, Unescape(t[4..]))
      else None
    else Prepend(t[1], Unescape(t[2..]))
  }

  /** One escaped character reads back as itself. */
  lemma UnescapeChar(c: char, q: char, rest: string)
    requires q == '\'' || q == '"'
    ensures Unescape(EscapeChar(c, q) + rest) == Prepend(c, Unescape(rest))
  {
    var e := EscapeChar(c, q);
    var t := e + rest;
    if |e| == 1 {
      assert t[0] == c && t[1..] == rest;
    } else if |e| == 2 {
      assert t[2..] == rest;
    } else {
      assert t[4..] == rest;
      var hi, lo := c as int / 16, c as int % 16;
      assert t[2] == LowerHex(hi) && t[3] == LowerHex(lo);
      assert (hi * 16 + lo) as char == c;
    }
  }

  /** Reading the escaped text back gives the string: the quoting of a
      string loses nothing. */
  lemma {:induction false} EscapeRoundTrip(s: string, q: char)
    requires q == '\'' || q == '"'
    ensures Unescape(EscapeStr(s, q)) == Some(s)
    decreases |s|
  {
    if s != [] {
      EscapeRoundTrip(s[1..], q);
      UnescapeChar(s[0], q, EscapeStr(s[1..], q));
      assert [s[0]] + s[1..] == s;
    }
  }
}
