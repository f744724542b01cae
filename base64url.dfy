/** `base64.urlsafe_b64encode(b).decode().rstrip("=")`: the URL- and
    filename-safe alphabet of section 5 of RFC 4648, with the padding of
    section 3.2 removed. */
module Base64Url {
  import opened Prelude
  import opened PyStr

  /** The character for a 6-bit value: A-Z, a-z, 0-9, then `-` and `_`. */
  function SextetChar(v: nat): (c: char)
    requires v < 64
    ensures AlphabetChar(c)
  {
    if v < 26 then ('A' as int + v) as char
    else if v < 52 then ('a' as int + v - 26) as char
    else if v < 62 then ('0' as int + v - 52) as char
    else if v == 62 then '-'
    else '_'
  }

  predicate AlphabetChar(c: char)
  {
    IsAsciiAlnum(c) || c == '-' || c == '_'
  }

  /** The 6-bit value of an alphabet character. */
  function CharSextet(c: char): (r: Option<nat>)
    ensures r.Some? ==> r.value < 64
  {
    if 'A' <= c <= 'Z' then Some(c as int - 'A' as int)
    else if 'a' <= c <= 'z' then Some(c as int - 'a' as int + 26)
    else if '0' <= c <= '9' then Some(c as int - '0' as int + 52)
    else if c == '-' then Some(62)
    else if c == '_' then Some(63)
    else None
  }

  lemma SextetRoundTrip(v: nat)
    requires v < 64
    ensures CharSextet(SextetChar(v)) == Some(v)
  {
  }

  // The four sextets of a 3-byte group, and the bytes they decode to.
  function S0(b0: byte): nat { b0 / 4 }
  function S1(b0: byte, b1: byte): nat { (b0 % 4) * 16 + b1 / 16 }
  function S2(b1: byte, b2: byte): nat { (b1 % 16) * 4 + b2 / 64 }
  function S3(b2: byte): nat { b2 % 64 }

  function B0(v0: nat, v1: nat): int { v0 * 4 + v1 / 16 }
  function B1(v1: nat, v2: nat): int { (v1 % 16) * 16 + v2 / 4 }
  function B2(v2: nat, v3: nat): int { (v2 % 4) * 64 + v3 }

  lemma GroupRoundTrip(b0: byte, b1: byte, b2: byte)
    ensures S0(b0) < 64 && S1(b0, b1) < 64 && S2(b1, b2) < 64 && S3(b2) < 64
    ensures B0(S0(b0), S1(b0, b1)) == b0
    ensures B1(S1(b0, b1), S2(b1, b2)) == b1
    ensures B2(S2(b1, b2), S3(b2)) == b2
  {
  }

  lemma FourMore(n: nat)
    requires n % 4 == 0
    ensures (n + 4) % 4 == 0
  {
  }

  /** `base64.urlsafe_b64encode(bs)`, padded to a multiple of four. */
  function Encode(bs: seq<byte>): (r: string)
    ensures |r| % 4 == 0 && (|r| == 0 <==> bs == [])
    decreases |bs|
  {
    if |bs| >= 3 then
      var group := [SextetChar(S0(bs[0])), SextetChar(S1(bs[0], bs[1])),
                    SextetChar(S2(bs[1], bs[2])), SextetChar(S3(bs[2]))];
      var rest := Encode(bs[3..]);
      FourMore(|rest|);
      assert |group + rest| == |rest| + 4;
      group + rest
    else if |bs| == 2 then
      [SextetChar(S0(bs[0])), SextetChar(S1(bs[0], bs[1])), SextetChar(S2(bs[1], 0)), '=']
    else if |bs| == 1 then
      [SextetChar(S0(bs[0])), SextetChar(S1(bs[0], 0)), '=', '=']
    else ""
  }

  /** The same groups with no padding characters written. */
  function Unpadded(bs: seq<byte>): (r: string)
    decreases |bs|
  {
    if |bs| >= 3 then
      [SextetChar(S0(bs[0])), SextetChar(S1(bs[0], bs[1])),
       SextetChar(S2(bs[1], bs[2])), SextetChar(S3(bs[2]))] + Unpadded(bs[3..])
    else if |bs| == 2 then
      [SextetChar(S0(bs[0])), SextetChar(S1(bs[0], bs[1])), SextetChar(S2(bs[1], 0))]
    else if |bs| == 1 then
      [SextetChar(S0(bs[0])), SextetChar(S1(bs[0], 0))]
    else ""
  }

  /** The number of padding characters a group-aligned encoding needs. */
  function PadCount(n: nat): nat { if n % 3 == 0 then 0 else 3 - n % 3 }

  function Pads(k: nat): (r: string)
    ensures |r| == k && forall i :: 0 <= i < k ==> r[i] == '='
  {
    if k == 0 then "" else "=" + Pads(k - 1)
  }

  lemma {:induction false} EncodeIsUnpaddedPlusPads(bs: seq<byte>)
    ensures Encode(bs) == Unpadded(bs) + Pads(PadCount(|bs|))
    decreases |bs|
  {
    if |bs| >= 3 {
      EncodeIsUnpaddedPlusPads(bs[3..]);
      EncodeGroup(bs);
      UnpaddedGroup(bs);
      PadCountStep(|bs|);
      GroupThenPads([SextetChar(S0(bs[0])), SextetChar(S1(bs[0], bs[1])),
                     SextetChar(S2(bs[1], bs[2])), SextetChar(S3(bs[2]))],
                    Encode(bs), Encode(bs[3..]), Unpadded(bs), Unpadded(bs[3..]),
                    Pads(PadCount(|bs|)));
    } else {
      ShortIsUnpaddedPlusPads(bs);
    }
  }

  lemma GroupThenPads(q: string, e: string, er: string, u: string, ur: string, p: string)
    requires e == q + er && u == q + ur && er == ur + p
    ensures e == u + p
  {
  }

  lemma PadCountStep(n: nat)
    requires n >= 3
    ensures PadCount(n) == PadCount(n - 3)
  {
  }

  /** A trailing group of one or two bytes is padded to four characters. */
  lemma ShortIsUnpaddedPlusPads(bs: seq<byte>)
    requires |bs| < 3
    ensures Encode(bs) == Unpadded(bs) + Pads(PadCount(|bs|))
  {
    if |bs| == 2 {
      OnePad(SextetChar(S0(bs[0])), SextetChar(S1(bs[0], bs[1])), SextetChar(S2(bs[1], 0)));
    } else if |bs| == 1 {
      TwoPads(SextetChar(S0(bs[0])), SextetChar(S1(bs[0], 0)));
    }
  }

  lemma OnePad(c0: char, c1: char, c2: char)
    ensures [c0, c1, c2, '='] == [c0, c1, c2] + Pads(1)
  {
    assert Pads(1) == "=";
  }

  lemma TwoPads(c0: char, c1: char)
    ensures [c0, c1, '=', '='] == [c0, c1] + Pads(2)
  {
    assert Pads(2) == "==";
  }

  lemma UnpaddedGroup(bs: seq<byte>)
    requires |bs| >= 3
    ensures Unpadded(bs) == [SextetChar(S0(bs[0])), SextetChar(S1(bs[0], bs[1])),
                             SextetChar(S2(bs[1], bs[2])), SextetChar(S3(bs[2]))] + Unpadded(bs[3..])
  {
  }

  lemma {:induction false} UnpaddedShape(bs: seq<byte>)
    ensures |Unpadded(bs)| == (4 * |bs| + 2) / 3
    ensures forall i :: 0 <= i < |Unpadded(bs)| ==> AlphabetChar(Unpadded(bs)[i])
    decreases |bs|
  {
    if |bs| >= 3 {
      UnpaddedShape(bs[3..]);
      var h := [SextetChar(S0(bs[0])), SextetChar(S1(bs[0], bs[1])),
                SextetChar(S2(bs[1], bs[2])), SextetChar(S3(bs[2]))];
      assert Unpadded(bs) == h + Unpadded(bs[3..]);
      assert forall i :: 0 <= i < 4 ==> AlphabetChar(h[i]);
    }
  }

  /** rstrip of characters that all match, behind a last character that
      does not, removes exactly them. */
  lemma {:induction false} RStripPads(x: string, k: nat)
    requires x == [] || x[|x| - 1] != '='
    ensures RStripChar(x + Pads(k), '=') == x
  {
    var t := RStripChar(x + Pads(k), '=');
    var s := x + Pads(k);
    assert t == s[..|t|];
    assert s[..|x|] == x;
  }

  /** `b64url(bs)` as the source writes it: encode, then strip `=`. The
      stripped text is exactly the unpadded groups, so no `=` is left. */
  function B64Url(bs: seq<byte>): (r: string)
    ensures r == Unpadded(bs)
    ensures '=' !in r
  {
    EncodeIsUnpaddedPlusPads(bs);
    UnpaddedShape(bs);
    var u := Unpadded(bs);
    assert u == [] || AlphabetChar(u[|u| - 1]);
    RStripPads(u, PadCount(|bs|));
    RStripChar(Encode(bs), '=')
  }

  /** The stripped encoding is exactly the unpadded groups: it uses only the
      URL-safe alphabet, never holds `=`, and has ceil(4n/3) characters. */
  lemma B64UrlShape(bs: seq<byte>)
    ensures B64Url(bs) == Unpadded(bs)
    ensures forall i :: 0 <= i < |B64Url(bs)| ==> AlphabetChar(B64Url(bs)[i])
    ensures '=' !in B64Url(bs)
    ensures |B64Url(bs)| == (4 * |bs| + 2) / 3
  {
    UnpaddedShape(bs);
  }

  /** A 32-byte MAC gives a 43-character token. */
  lemma B64UrlOf32(bs: seq<byte>)
    requires |bs| == 32
    ensures |B64Url(bs)| == 43
  {
    B64UrlShape(bs);
  }

  /** Restore the padding: `s + "=" * (-len(s) % 4)`. */
  function Repad(s: string): (r: string)
    ensures |r| % 4 == 0
  {
    PadsToFour(|s|);
    s + Pads((4 - |s| % 4) % 4)
  }

  lemma PadsToFour(n: nat)
    ensures (n + (4 - n % 4) % 4) % 4 == 0
  {
  }

  /** Strict decoding of a padded base64url string. */
  function Decode(s: string): (r: Option<seq<byte>>)
    decreases |s|
  {
    if s == [] then Some([])
    else if |s| < 4 then None
    else
      var v0, v1 := CharSextet(s[0]), CharSextet(s[1]);
      if v0.None? || v1.None? then None
      else if |s| == 4 && s[2] == '=' && s[3] == '=' then
        Some([B0(v0.value, v1.value)])
      else
        var v2 := CharSextet(s[2]);
        if v2.None? then None
        else if |s| == 4 && s[3] == '=' then
          Some([B0(v0.value, v1.value), B1(v1.value, v2.value)])
        else
          var v3 := CharSextet(s[3]);
          if v3.None? then None
          else
            var rest := Decode(s[4..]);
            if rest.None? then None
            else Some([B0(v0.value, v1.value), B1(v1.value, v2.value), B2(v2.value, v3.value)] + rest.value)
  }

  /** A full group of four alphabet characters decodes to three bytes in
      front of whatever the rest decodes to. */
  lemma DecodeFullGroup(c0: char, c1: char, c2: char, c3: char, rest: string)
    requires CharSextet(c0).Some? && CharSextet(c1).Some?
    requires CharSextet(c2).Some? && CharSextet(c3).Some?
    ensures var r := Decode([c0, c1, c2, c3] + rest);
      var v0, v1, v2, v3 := CharSextet(c0).value, CharSextet(c1).value, CharSextet(c2).value, CharSextet(c3).value;
      r == if Decode(rest).None? then None
           else Some([B0(v0, v1), B1(v1, v2), B2(v2, v3)] + Decode(rest).value)
  {
    var s := [c0, c1, c2, c3] + rest;
    assert s[0] == c0 && s[1] == c1 && s[2] == c2 && s[3] == c3 && s[4..] == rest;
  }

  lemma DecodeTwoPadGroup(c0: char, c1: char)
    requires CharSextet(c0).Some? && CharSextet(c1).Some?
    ensures Decode([c0, c1, '=', '=']) == Some([B0(CharSextet(c0).value, CharSextet(c1).value)])
  {
    var s := [c0, c1, '=', '='];
    assert |s| == 4 && s[0] == c0 && s[1] == c1 && s[2] == '=' && s[3] == '=';
  }

  lemma DecodeOnePadGroup(c0: char, c1: char, c2: char)
    requires CharSextet(c0).Some? && CharSextet(c1).Some? && CharSextet(c2).Some?
    ensures var v0, v1, v2 := CharSextet(c0).value, CharSextet(c1).value, CharSextet(c2).value;
      Decode([c0, c1, c2, '=']) == Some([B0(v0, v1), B1(v1, v2)])
  {
    var s := [c0, c1, c2, '='];
    assert |s| == 4 && s[0] == c0 && s[1] == c1 && s[2] == c2 && s[3] == '=';
  }

  lemma EncodeOne(b0: byte)
    ensures Encode([b0]) == [SextetChar(S0(b0)), SextetChar(S1(b0, 0)), '=', '=']
  {
  }

  lemma EncodeTwo(b0: byte, b1: byte)
    ensures Encode([b0, b1]) == [SextetChar(S0(b0)), SextetChar(S1(b0, b1)), SextetChar(S2(b1, 0)), '=']
  {
  }

  lemma EncodeGroup(bs: seq<byte>)
    requires |bs| >= 3
    ensures Encode(bs) == [SextetChar(S0(bs[0])), SextetChar(S1(bs[0], bs[1])),
                           SextetChar(S2(bs[1], bs[2])), SextetChar(S3(bs[2]))] + Encode(bs[3..])
  {
  }

  lemma DecodeTwoByteTail(b0: byte, b1: byte)
    ensures Decode(Encode([b0, b1])) == Some([b0, b1])
  {
    EncodeTwo(b0, b1);
    var v0, v1, v2 := S0(b0), S1(b0, b1), S2(b1, 0);
    SextetRoundTrip(v0); SextetRoundTrip(v1); SextetRoundTrip(v2);
    DecodeOnePadGroup(SextetChar(v0), SextetChar(v1), SextetChar(v2));
    GroupRoundTrip(b0, b1, 0);
  }

  lemma DecodeOneByteTail(b0: byte)
    ensures Decode(Encode([b0])) == Some([b0])
  {
    EncodeOne(b0);
    var v0, v1 := S0(b0), S1(b0, 0);
    SextetRoundTrip(v0); SextetRoundTrip(v1);
    DecodeTwoPadGroup(SextetChar(v0), SextetChar(v1));
    GroupRoundTrip(b0, 0, 0);
  }

  lemma DecodeGroupOfBytes(b0: byte, b1: byte, b2: byte, rest: string)
    ensures Decode([SextetChar(S0(b0)), SextetChar(S1(b0, b1)), SextetChar(S2(b1, b2)), SextetChar(S3(b2))] + rest)
         == if Decode(rest).None? then None else Some([b0, b1, b2] + Decode(rest).value)
  {
    var v0, v1, v2, v3 := S0(b0), S1(b0, b1), S2(b1, b2), S3(b2);
    SextetRoundTrip(v0); SextetRoundTrip(v1); SextetRoundTrip(v2); SextetRoundTrip(v3);
    DecodeFullGroup(SextetChar(v0), SextetChar(v1), SextetChar(v2), SextetChar(v3), rest);
    GroupRoundTrip(b0, b1, b2);
  }

  lemma DecodeGroupThenRest(bs: seq<byte>)
    requires |bs| >= 3
    requires Decode(Encode(bs[3..])) == Some(bs[3..])
    ensures Decode(Encode(bs)) == Some(bs)
  {
    EncodeGroup(bs);
    GroupThenRest(bs[0], bs[1], bs[2], Encode(bs[3..]), bs[3..]);
    FirstThree(bs);
  }

  lemma FirstThree(bs: seq<byte>)
    requires |bs| >= 3
    ensures bs == [bs[0], bs[1], bs[2]] + bs[3..]
  {
  }

  lemma GroupThenRest(b0: byte, b1: byte, b2: byte, e: string, rest: seq<byte>)
    requires Decode(e) == Some(rest)
    ensures Decode([SextetChar(S0(b0)), SextetChar(S1(b0, b1)), SextetChar(S2(b1, b2)), SextetChar(S3(b2))] + e)
         == Some([b0, b1, b2] + rest)
  {
    DecodeGroupOfBytes(b0, b1, b2, e);
  }

  lemma {:induction false} DecodeEncode(bs: seq<byte>)
    ensures Decode(Encode(bs)) == Some(bs)
    decreases |bs|
  {
    if |bs| >= 3 {
      DecodeEncode(bs[3..]);
      DecodeGroupThenRest(bs);
    } else if |bs| == 2 {
      DecodeTwoByteTail(bs[0], bs[1]);
      assert bs == [bs[0], bs[1]];
    } else if |bs| == 1 {
      DecodeOneByteTail(bs[0]);
      assert bs == [bs[0]];
    }
  }

  lemma PadArithmetic(n: nat)
    ensures (4 - ((4 * n + 2) / 3) % 4) % 4 == PadCount(n)
  {
    var q := n / 3;
    assert n == 3 * q + n % 3;
    if n % 3 == 0 { assert (4 * n + 2) / 3 == 4 * q; }
    else if n % 3 == 1 { assert (4 * n + 2) / 3 == 4 * q + 2; }
    else { assert (4 * n + 2) / 3 == 4 * q + 3; }
  }

  /** Re-padding the stripped token restores the padded encoding. */
  lemma RepadB64Url(bs: seq<byte>)
    ensures Repad(B64Url(bs)) == Encode(bs)
  {
    B64UrlPadCount(bs);
    RepadOf(B64Url(bs), PadCount(|bs|));
    EncodeIsUnpaddedPlusPads(bs);
  }

  /** The padding `Repad` adds back is the padding the encoder wrote. */
  lemma B64UrlPadCount(bs: seq<byte>)
    ensures (4 - |B64Url(bs)| % 4) % 4 == PadCount(|bs|)
  {
    B64UrlShape(bs);
    PadArithmetic(|bs|);
  }

  lemma RepadOf(u: string, k: nat)
    requires (4 - |u| % 4) % 4 == k
    ensures Repad(u) == u + Pads(k)
  {
  }

  /** The source's promise: the unpadded token, padded again to a multiple
      of four and decoded, gives back the MAC bytes. */
  lemma DecodeRepadB64Url(bs: seq<byte>)
    ensures Decode(Repad(B64Url(bs))) == Some(bs)
  {
    RepadB64Url(bs);
    DecodeEncode(bs);
  }
}
