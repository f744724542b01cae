/** The parts of Python's `str` that the scripts rely on: code-point order
    (`<`, `>=` and `sorted` on strings), `split`, `join`, `strip`, `lower`,
    `replace`, `isalnum`, `str(int)` and `int(str)`. */
module PyStr {
  import opened Prelude

  // ---------------------------------------------------------------------
  // Ordering: Python compares strings lexicographically by code point, a
  // proper prefix being the smaller.
  // ---------------------------------------------------------------------

  predicate Lt(a: string, b: string)
    decreases |a|
  {
    if a == [] then b != []
    else if b == [] then false
    else if a[0] != b[0] then a[0] < b[0]
    else Lt(a[1..], b[1..])
  }

  predicate Le(a: string, b: string) { a == b || Lt(a, b) }

  lemma {:induction false} LtIrreflexive(a: string)
    ensures !Lt(a, a)
    decreases |a|
  {
    if a != [] { LtIrreflexive(a[1..]); }
  }

  lemma {:induction false} LtTransitive(a: string, b: string, c: string)
    requires Lt(a, b) && Lt(b, c)
    ensures Lt(a, c)
    decreases |a|
  {
    if a != [] && b != [] && c != [] && a[0] == b[0] && b[0] == c[0] {
      LtTransitive(a[1..], b[1..], c[1..]);
    }
  }

  /** Any two different strings are ordered one way. */
  lemma {:induction false} LtTotal(a: string, b: string)
    requires a != b
    ensures Lt(a, b) || Lt(b, a)
    decreases |a|
  {
    if a != [] && b != [] && a[0] == b[0] {
      assert a == [a[0]] + a[1..] && b == [b[0]] + b[1..];
      LtTotal(a[1..], b[1..]);
    }
  }

  lemma {:induction false} LtAsymmetric(a: string, b: string)
    requires Lt(a, b)
    ensures !Lt(b, a)
  {
    if Lt(b, a) { LtTransitive(a, b, a); LtIrreflexive(a); }
  }

  /** Comparing two strings that start with prefixes of the same length is
      decided by the prefixes when they differ, by the rests otherwise. */
  lemma {:induction false} LtConcat(x1: string, y1: string, x2: string, y2: string)
    requires |x1| == |x2|
    ensures Lt(x1 + y1, x2 + y2) == if x1 != x2 then Lt(x1, x2) else Lt(y1, y2)
    decreases |x1|
  {
    if x1 == [] {
      assert x1 + y1 == y1 && x2 + y2 == y2;
    } else {
      assert (x1 + y1)[0] == x1[0] && (x2 + y2)[0] == x2[0];
      assert (x1 + y1)[1..] == x1[1..] + y1 && (x2 + y2)[1..] == x2[1..] + y2;
      LtConcat(x1[1..], y1, x2[1..], y2);
      if x1[0] == x2[0] {
        assert x1 != x2 <==> x1[1..] != x2[1..] by {
          assert x1 == [x1[0]] + x1[1..] && x2 == [x2[0]] + x2[1..];
        }
      }
    }
  }

  // ---------------------------------------------------------------------
  // split / join
  // ---------------------------------------------------------------------

  /** `s.split(sep)` for a one-character separator: always at least one
      part, and "" splits into [""]. */
  function SplitOn(s: string, sep: char): (parts: seq<string>)
    ensures |parts| >= 1
    ensures forall i :: 0 <= i < |parts| ==> sep !in parts[i]
    decreases |s|
  {
    if s == [] then [""]
    else
      var rest := SplitOn(s[1..], sep);
      if s[0] == sep then [""] + rest
      else [[s[0]] + rest[0]] + rest[1..]
  }

  /** `sep.join(parts)`. */
  function Join(sep: string, parts: seq<string>): string
    decreases |parts|
  {
    if parts == [] then ""
    else if |parts| == 1 then parts[0]
    else parts[0] + sep + Join(sep, parts[1..])
  }

  lemma {:induction false} SplitPrefix(w: string, sep: char, rest: string)
    requires sep !in w
    ensures SplitOn(w + [sep] + rest, sep) == [w] + SplitOn(rest, sep)
    decreases |w|
  {
    if w == [] {
      assert w + [sep] + rest == [sep] + rest;
      assert ([sep] + rest)[1..] == rest;
    } else {
      var s := w + [sep] + rest;
      assert s[0] == w[0] && s[1..] == w[1..] + [sep] + rest;
      SplitPrefix(w[1..], sep, rest);
      assert [w[0]] + w[1..] == w;
    }
  }

  lemma {:induction false} SplitNoSep(w: string, sep: char)
    requires sep !in w
    ensures SplitOn(w, sep) == [w]
    decreases |w|
  {
    if w != [] {
      SplitNoSep(w[1..], sep);
      assert [w[0]] + w[1..] == w;
    }
  }

  /** Splitting a join recovers the parts when no part holds the separator. */
  lemma {:induction false} SplitJoin(parts: seq<string>, sep: char)
    requires |parts| >= 1
    requires forall i :: 0 <= i < |parts| ==> sep !in parts[i]
    ensures SplitOn(Join([sep], parts), sep) == parts
    decreases |parts|
  {
    if |parts| == 1 {
      SplitNoSep(parts[0], sep);
    } else {
      SplitJoin(parts[1..], sep);
      SplitPrefix(parts[0], sep, Join([sep], parts[1..]));
      assert [parts[0]] + parts[1..] == parts;
    }
  }

  /** `s.partition(sep)` split at the FIRST separator: (before, after), or
      None when the separator does not occur. */
  function SplitFirst(s: string, sep: char): (r: Parted)
    ensures r.Found? ==> s == r.before + [sep] + r.after && sep !in r.before
    ensures r.NotFound? <==> sep !in s
    decreases |s|
  {
    if s == [] then NotFound
    else if s[0] == sep then
      assert s == [] + [sep] + s[1..];
      Found("", s[1..])
    else
      match SplitFirst(s[1..], sep)
      case NotFound => NotFound
      case Found(b, a) =>
        assert s == [s[0]] + s[1..];
        Found([s[0]] + b, a)
  }

  datatype Parted = NotFound | Found(before: string, after: string)

  lemma {:induction false} SplitFirstOf(w: string, sep: char, rest: string)
    requires sep !in w
    ensures SplitFirst(w + [sep] + rest, sep) == Found(w, rest)
    decreases |w|
  {
    var s := w + [sep] + rest;
    if w == [] {
      assert s == [sep] + rest;
    } else {
      assert s[0] == w[0] && s[1..] == w[1..] + [sep] + rest;
      SplitFirstOf(w[1..], sep, rest);
      assert [w[0]] + w[1..] == w;
    }
  }

  // ---------------------------------------------------------------------
  // strip / lower / isalnum / replace
  // ---------------------------------------------------------------------

  /** `c.isspace()`: the characters CPython's str.isspace accepts. */
  predicate IsSpace(c: char)
  {
    ('\U{0009}' <= c <= '\U{000D}') || ('\U{001C}' <= c <= '\U{001F}') || c == ' ' ||
    c == '\U{0085}' || c == '\U{00A0}' || c == '\U{1680}' || ('\U{2000}' <= c <= '\U{200A}') ||
    c == '\U{2028}' || c == '\U{2029}' || c == '\U{202F}' || c == '\U{205F}' || c == '\U{3000}'
  }

  function LStripWhere(s: string, drop: char -> bool): (r: string)
    ensures |r| <= |s| && r == s[|s| - |r|..]
    ensures r == [] || !drop(r[0])
    ensures forall i :: 0 <= i < |s| - |r| ==> drop(s[i])
    decreases |s|
  {
    if s != [] && drop(s[0]) then LStripWhere(s[1..], drop) else s
  }

  function RStripWhere(s: string, drop: char -> bool): (r: string)
    ensures |r| <= |s| && r == s[..|r|]
    ensures r == [] || !drop(r[|r| - 1])
    ensures forall i :: |r| <= i < |s| ==> drop(s[i])
    decreases |s|
  {
    if s != [] && drop(s[|s| - 1]) then RStripWhere(s[..|s| - 1], drop) else s
  }

  /** `s.strip()`. */
  function Strip(s: string): (r: string)
    ensures r == [] || (!IsSpace(r[0]) && !IsSpace(r[|r| - 1]))
  {
    RStripWhere(LStripWhere(s, IsSpace), IsSpace)
  }

  /** `s.strip(c)` for a single character c. */
  function StripChar(s: string, c: char): (r: string)
    ensures r == [] || (r[0] != c && r[|r| - 1] != c)
    ensures forall x :: x in r ==> x in s
    ensures r == [] <==> forall i :: 0 <= i < |s| ==> s[i] == c
  {
    var l := LStripWhere(s, x => x == c);
    var r := RStripWhere(l, x => x == c);
    assert forall x :: x in r ==> x in l;
    assert forall x :: x in l ==> x in s;
    StripEmpty(s, c);
    r
  }

  lemma StripEmpty(s: string, c: char)
    ensures RStripWhere(LStripWhere(s, x => x == c), x => x == c) == [] <==>
      forall i :: 0 <= i < |s| ==> s[i] == c
  {
    var l := LStripWhere(s, x => x == c);
    var r := RStripWhere(l, x => x == c);
    if r == [] {
      assert l == [];
    } else {
      assert r[0] in s by {
        assert r[0] == l[0] && l[0] == s[|s| - |l|];
      }
    }
  }

  /** `s.rstrip(c)` for a single character c. */
  function RStripChar(s: string, c: char): (r: string)
    ensures r == [] || r[|r| - 1] != c
    ensures |r| <= |s| && r == s[..|r|]
    ensures forall i :: |r| <= i < |s| ==> s[i] == c
  {
    RStripWhere(s, x => x == c)
  }

  predicate IsAsciiUpper(c: char) { 'A' <= c <= 'Z' }
  predicate IsAsciiLower(c: char) { 'a' <= c <= 'z' }
  predicate IsAsciiDigit(c: char) { '0' <= c <= '9' }
  predicate IsAsciiAlnum(c: char) { IsAsciiUpper(c) || IsAsciiLower(c) || IsAsciiDigit(c) }

  /** `c.lower()` on ASCII letters; other characters unchanged. */
  function LowerChar(c: char): (r: char)
    ensures IsAsciiUpper(c) ==> IsAsciiLower(r)
    ensures !IsAsciiUpper(c) ==> r == c
  {
    if IsAsciiUpper(c) then (c as int + 32) as char else c
  }

  function Lower(s: string): (r: string)
    ensures |r| == |s| && forall i :: 0 <= i < |s| ==> r[i] == LowerChar(s[i])
  {
    seq(|s|, i requires 0 <= i < |s| => LowerChar(s[i]))
  }

  /** `s.replace(old, new)`: left to right, non-overlapping, one pass. */
  function Replace(s: string, pat: string, rep: string): string
    requires pat != []
    decreases |s|
  {
    if s == [] then []
    else if |pat| <= |s| && s[..|pat|] == pat then rep + Replace(s[|pat|..], pat, rep)
    else [s[0]] + Replace(s[1..], pat, rep)
  }

  /** `c in s` for a character, as a contains test. */
  predicate Contains(s: string, c: char) { c in s }

  // ---------------------------------------------------------------------
  // str(int) and zero-padded decimal
  // ---------------------------------------------------------------------

  function DigitChar(d: nat): (c: char)
    requires d < 10
    ensures IsAsciiDigit(c)
  {
    ('0' as int + d) as char
  }

  /** Decimal digits of a natural number, without leading zeros. */
  function NatDigits(n: nat): (r: string)
    ensures |r| >= 1
    ensures forall i :: 0 <= i < |r| ==> IsAsciiDigit(r[i])
    decreases n
  {
    if n < 10 then [DigitChar(n)] else NatDigits(n / 10) + [DigitChar(n % 10)]
  }

  /** `str(n)` for a Python int. */
  function Decimal(n: int): (r: string)
    ensures |r| >= 1
    ensures n >= 0 ==> r == NatDigits(n)
    ensures n < 0 ==> r == "-" + NatDigits(-n)
  {
    if n >= 0 then NatDigits(n) else "-" + NatDigits(-n)
  }

  function Pow10(w: nat): (r: nat)
    ensures r >= 1
  {
    if w == 0 then 1 else 10 * Pow10(w - 1)
  }

  /** `"%0{w}d" % n`: exactly w decimal digits. */
  function Padded(n: nat, w: nat): (r: string)
    requires n < Pow10(w)
    ensures |r| == w
    ensures forall i :: 0 <= i < |r| ==> IsAsciiDigit(r[i])
    decreases w
  {
    if w == 0 then "" else Padded(n / 10, w - 1) + [DigitChar(n % 10)]
  }

  /** The number written by a string of ASCII digits. */
  function DigitsValue(s: string): (n: nat)
    requires AllDigits(s)
    ensures n < Pow10(|s|)
    decreases |s|
  {
    if s == [] then 0
    else
      var t := s[..|s| - 1];
      assert forall i :: 0 <= i < |t| ==> t[i] == s[i];
      assert IsAsciiDigit(s[|s| - 1]);
      DigitsValue(t) * 10 + (s[|s| - 1] as int - '0' as int)
  }

  predicate AllDigits(s: string)
  {
    forall i :: 0 <= i < |s| ==> IsAsciiDigit(s[i])
  }

  /** `int(s)` on an optionally signed run of ASCII digits, surrounding
      whitespace allowed; anything else raises ValueError. */
  function ParseInt(s: string): (r: Option<int>)
  {
    ParseSigned(Strip(s))
  }

  /** `int` on the stripped text: an optional sign, then one or more digits. */
  function ParseSigned(t: string): (r: Option<int>)
  {
    if t == [] then None
    else
      var u := if t[0] == '-' || t[0] == '+' then t[1..] else t;
      if u != [] && AllDigits(u) then
        var m: int := DigitsValue(u);
        Some(if t[0] == '-' then -m else m)
      else None
  }

  lemma {:induction false} DigitsOfNat(n: nat)
    ensures AllDigits(NatDigits(n))
    ensures DigitsValue(NatDigits(n)) == n
    decreases n
  {
    if n >= 10 {
      DigitsOfNat(n / 10);
      var s := NatDigits(n);
      assert s[..|s| - 1] == NatDigits(n / 10);
    }
  }

  lemma StripUnspaced(s: string)
    requires s != [] && !IsSpace(s[0]) && !IsSpace(s[|s| - 1])
    ensures Strip(s) == s
  {
    assert LStripWhere(s, IsSpace) == s;
    assert RStripWhere(s, IsSpace) == s;
  }

  /** `int(str(n)) == n`. */
  lemma ParseIntDecimal(n: int)
    ensures ParseInt(Decimal(n)) == Some(n)
  {
    if n >= 0 {
      ParseIntNat(n);
    } else {
      ParseIntNegative(n);
    }
  }

  lemma ParseIntNegative(n: int)
    requires n < 0
    ensures ParseInt(Decimal(n)) == Some(n)
  {
    DigitsOfNat(-n);
    ParseIntMinus(NatDigits(-n), -n);
    NegativeDecimal(n, Some(n));
  }

  lemma NegativeDecimal(n: int, x: Option<int>)
    requires n < 0
    requires ParseInt("-" + NatDigits(-n)) == x
    ensures ParseInt(Decimal(n)) == x
  {
  }

  lemma ParseIntNat(n: nat)
    ensures ParseInt(NatDigits(n)) == Some(n)
  {
    var s := NatDigits(n);
    DigitsOfNat(n);
    StripUnspaced(s);
  }

  /** A minus sign before a run of digits reads as the negated value. */
  lemma ParseIntMinus(u: string, m: nat)
    requires u != [] && AllDigits(u) && DigitsValue(u) == m
    ensures ParseInt("-" + u) == Some(0 - m)
  {
    var s := "-" + u;
    assert s[|s| - 1] == u[|u| - 1];
    StripUnspaced(s);
    SignedMinus(u, m);
  }

  lemma SignedMinus(u: string, m: nat)
    requires u != [] && AllDigits(u) && DigitsValue(u) == m
    ensures ParseSigned("-" + u) == Some(0 - m)
  {
    assert ("-" + u)[1..] == u;
  }

  /** Zero-padded decimals of the same width compare as the numbers do. */
  lemma {:induction false} PaddedOrder(a: nat, b: nat, w: nat)
    requires a < Pow10(w) && b < Pow10(w)
    ensures Lt(Padded(a, w), Padded(b, w)) <==> a < b
    decreases w
  {
    if w == 0 {
      assert a == 0 && b == 0;
    } else {
      PaddedOrder(a / 10, b / 10, w - 1);
      LtConcat(Padded(a / 10, w - 1), [DigitChar(a % 10)], Padded(b / 10, w - 1), [DigitChar(b % 10)]);
      PaddedInjective(a / 10, b / 10, w - 1);
    }
  }

  lemma {:induction false} PaddedInjective(a: nat, b: nat, w: nat)
    requires a < Pow10(w) && b < Pow10(w)
    ensures Padded(a, w) == Padded(b, w) <==> a == b
    decreases w
  {
    if w > 0 {
      PaddedInjective(a / 10, b / 10, w - 1);
      var pa, pb := Padded(a, w), Padded(b, w);
      if pa == pb {
        assert pa[..w - 1] == Padded(a / 10, w - 1) && pb[..w - 1] == Padded(b / 10, w - 1);
        assert pa[w - 1] == DigitChar(a % 10) && pb[w - 1] == DigitChar(b % 10);
      }
    }
  }
}
