/** `slug(s)`, shared by scripts/send_daily.py and scripts/lib/plans.py:
    every ASCII letter or digit is lower-cased, every other character
    becomes `-`, dashes are stripped from both ends, and one left-to-right
    pass of `.replace("--", "-")` shortens dash runs. */
module Slug {
  import opened PyStr

  function SlugChar(c: char): (r: char)
    ensures IsAsciiAlnum(c) ==> r == LowerChar(c)
    ensures !IsAsciiAlnum(c) ==> r == '-'
  {
    if IsAsciiAlnum(c) then LowerChar(c) else '-'
  }

  function Dashed(s: string): (r: string)
    ensures |r| == |s| && forall i :: 0 <= i < |s| ==> r[i] == SlugChar(s[i])
  {
    seq(|s|, i requires 0 <= i < |s| => SlugChar(s[i]))
  }

  /** The slug never starts or ends with `-`, and it is empty exactly when
      s has no ASCII letter or digit. */
  function Slug(s: string): (r: string)
    ensures r == [] || (r[0] != '-' && r[|r| - 1] != '-')
    ensures r == [] <==> forall i :: 0 <= i < |s| ==> !IsAsciiAlnum(s[i])
  {
    var t := StripChar(Dashed(s), '-');
    ReplaceEnds(t);
    AllDashes(s);
    Replace(t, "--", "-")
  }

  /** Shortening dash runs keeps a string without end dashes so, and empty
      only when it was. */
  lemma ReplaceEnds(t: string)
    requires t == [] || (t[0] != '-' && t[|t| - 1] != '-')
    ensures Replace(t, "--", "-") == [] <==> t == []
    ensures Replace(t, "--", "-") == [] ||
      (Replace(t, "--", "-")[0] != '-' && Replace(t, "--", "-")[|Replace(t, "--", "-")| - 1] != '-')
  {
    ReplaceDashes(t);
  }

  /** A slug character: a lower-case ASCII letter, a digit or `-`. */
  predicate SlugAlphabet(c: char)
  {
    IsAsciiLower(c) || IsAsciiDigit(c) || c == '-'
  }

  lemma {:induction false} ReplaceDashes(t: string)
    ensures var r := Replace(t, "--", "-");
      && (forall x :: x in r ==> x in t || x == '-')
      && (r == [] <==> t == [])
      && (t != [] && t[0] != '-' ==> r[0] == t[0])
      && (t != [] && t[|t| - 1] != '-' ==> r != [] && r[|r| - 1] == t[|t| - 1])
    decreases |t|
  {
    if t != [] {
      if 2 <= |t| && t[..2] == "--" {
        ReplaceDashes(t[2..]);
        if t[2..] != [] {
          assert t[2..][|t[2..]| - 1] == t[|t| - 1];
        }
        forall x | x in Replace(t[2..], "--", "-") ensures x in t || x == '-' {
          if x in t[2..] {
            var i :| 0 <= i < |t[2..]| && t[2..][i] == x;
            assert t[i + 2] == x;
          }
        }
      } else {
        ReplaceDashes(t[1..]);
        if t[1..] != [] {
          assert t[1..][|t[1..]| - 1] == t[|t| - 1];
        }
        forall x | x in Replace(t[1..], "--", "-") ensures x in t || x == '-' {
          if x in t[1..] {
            var i :| 0 <= i < |t[1..]| && t[1..][i] == x;
            assert t[i + 1] == x;
          }
        }
      }
    }
  }

  /** A slug consists of lower-case letters, digits and `-`, neither starts
      nor ends with `-`, and is empty exactly when the input has no ASCII
      letter or digit. */
  lemma SlugShape(s: string)
    ensures forall i :: 0 <= i < |Slug(s)| ==> SlugAlphabet(Slug(s)[i])
    ensures Slug(s) == [] || (Slug(s)[0] != '-' && Slug(s)[|Slug(s)| - 1] != '-')
    ensures Slug(s) == [] <==> forall i :: 0 <= i < |s| ==> !IsAsciiAlnum(s[i])
  {
    SlugChars(s);
    ReplaceDashes(StripChar(Dashed(s), '-'));
  }

  lemma SlugChars(s: string)
    ensures forall i :: 0 <= i < |Slug(s)| ==> SlugAlphabet(Slug(s)[i])
  {
    var d := Dashed(s);
    ReplaceDashes(StripChar(d, '-'));
    forall i | 0 <= i < |Slug(s)| ensures SlugAlphabet(Slug(s)[i]) {
      var x := Slug(s)[i];
      assert x in Slug(s);
      if x != '-' {
        assert x in d;
        var j :| 0 <= j < |d| && d[j] == x;
      }
    }
  }

  /** Only a string without ASCII letters and digits turns into dashes
      alone. */
  lemma AllDashes(s: string)
    ensures (forall i :: 0 <= i < |Dashed(s)| ==> Dashed(s)[i] == '-') <==>
      forall i :: 0 <= i < |s| ==> !IsAsciiAlnum(s[i])
  {
    var d := Dashed(s);
    if forall i :: 0 <= i < |d| ==> d[i] == '-' {
      forall i | 0 <= i < |s| ensures !IsAsciiAlnum(s[i]) {
        assert d[i] == '-';
      }
    } else {
      var i :| 0 <= i < |d| && d[i] != '-';
      assert IsAsciiAlnum(s[i]);
    }
  }

  lemma {:induction false} NoDoubleDash(t: string)
    requires forall i :: 0 <= i < |t| - 1 ==> t[i] != '-' || t[i + 1] != '-'
    ensures Replace(t, "--", "-") == t
    decreases |t|
  {
    if t != [] {
      assert !(2 <= |t| && t[..2] == "--") by {
        if 2 <= |t| { assert t[..2][0] == t[0] && t[..2][1] == t[1]; }
      }
      NoDoubleDash(t[1..]);
      assert t == [t[0]] + t[1..];
    }
  }

  /** The single replace pass leaves doubled dashes where three or more
      non-alphanumerics were adjacent. */
  lemma SlugKeepsDoubleDash()
    ensures Slug("Leg + Abs Day") == "leg--abs-day"
  {
    DashedExample();
    StripExample();
    ReplaceExample();
  }

  lemma DashedExample()
    ensures Dashed("Leg + Abs Day") == "leg---abs-day"
  {
    var s := "Leg + Abs Day";
    var d := Dashed(s);
    assert d[0] == 'l' && d[1] == 'e' && d[2] == 'g';
    assert d[3] == '-' && d[4] == '-' && d[5] == '-';
    assert d[6] == 'a' && d[7] == 'b' && d[8] == 's' && d[9] == '-';
    assert d[10] == 'd' && d[11] == 'a' && d[12] == 'y';
  }

  lemma StripExample()
    ensures StripChar("leg---abs-day", '-') == "leg---abs-day"
  {
    var d := "leg---abs-day";
    assert LStripWhere(d, x => x == '-') == d;
    assert RStripWhere(d, x => x == '-') == d;
  }

  lemma ReplaceExample()
    ensures Replace("leg---abs-day", "--", "-") == "leg--abs-day"
  {
    var tail := "-abs-day";
    NoDoubleDash(tail);
    ReplaceHit("--" + tail, tail);
    ReplaceMiss('g', "--" + tail, "-" + tail);
    ReplaceMiss('e', ['g'] + ("--" + tail), ['g'] + ("-" + tail));
    ReplaceMiss('l', ['e'] + (['g'] + ("--" + tail)), ['e'] + (['g'] + ("-" + tail)));
    LegSpelled(tail);
  }

  lemma LegSpelled(tail: string)
    requires tail == "-abs-day"
    ensures ['l'] + (['e'] + (['g'] + ("--" + tail))) == "leg---abs-day"
    ensures ['l'] + (['e'] + (['g'] + ("-" + tail))) == "leg--abs-day"
  {
  }

  lemma ReplaceHit(t: string, u: string)
    requires 2 <= |t| && t[0] == '-' && t[1] == '-' && t[2..] == u
    requires Replace(u, "--", "-") == u
    ensures Replace(t, "--", "-") == "-" + u
  {
    assert t[..2] == "--";
  }

  lemma ReplaceMiss(c: char, u: string, r: string)
    requires c != '-' && u != [] && Replace(u, "--", "-") == r
    ensures Replace([c] + u, "--", "-") == [c] + r
  {
    var t := [c] + u;
    assert t[..2][0] == c;
    assert t[1..] == u;
  }
}
