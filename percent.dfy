/** `urllib.parse.quote_plus(s, safe="")`: the string is UTF-8 encoded
    (RFC 3629), every byte outside the unreserved set of section 2.3 of
    RFC 3986 (letters, digits, `-`, `.`, `_`, `~`) becomes `%XX` with
    upper-case hex digits (section 2.1 of RFC 3986), and a space becomes `+`,
    as in the application/x-www-form-urlencoded serializer of the WHATWG URL
    Standard. */
module PercentEncoding {
  import opened Prelude
  import opened PyStr

  /** UTF-8 encoding of one Unicode scalar value. */
  function Utf8Char(c: char): (bs: seq<byte>)
    ensures 1 <= |bs| <= 4
    ensures |bs| == 1 <==> c as int < 0x80
    ensures |bs| == 1 ==> bs[0] == c as int
  {
    var cp := c as int;
    if cp < 0x80 then [cp]
    else if cp < 0x800 then [0xC0 + cp / 64, 0x80 + cp % 64]
    else if cp < 0x10000 then [0xE0 + cp / 4096, 0x80 + (cp / 64) % 64, 0x80 + cp % 64]
    else [0xF0 + cp / 262144, 0x80 + (cp / 4096) % 64, 0x80 + (cp / 64) % 64, 0x80 + cp % 64]
  }

  /** `s.encode("utf-8")`. */
  function Utf8(s: string): (bs: seq<byte>)
    ensures |bs| >= |s|
    decreases |s|
  {
    if s == [] then [] else Utf8Char(s[0]) + Utf8(s[1..])
  }

  /** Bytes quote_plus never escapes: ASCII letters, digits and `_.-~`. */
  predicate Unreserved(b: byte)
  {
    ('A' as int <= b <= 'Z' as int) || ('a' as int <= b <= 'z' as int) ||
    ('0' as int <= b <= '9' as int) || b == '_' as int || b == '.' as int ||
    b == '-' as int || b == '~' as int
  }

  predicate UnreservedChar(c: char)
  {
    IsAsciiAlnum(c) || c == '_' || c == '.' || c == '-' || c == '~'
  }

  function HexDigit(n: nat): (c: char)
    requires n < 16
    ensures UnreservedChar(c)
  {
    if n < 10 then ('0' as int + n) as char else ('A' as int + n - 10) as char
  }

  /** The value of an upper-case hex digit, the inverse of HexDigit. */
  function HexValue(c: char): (r: Option<nat>)
    ensures r.Some? ==> r.value < 16
  {
    if '0' <= c <= '9' then Some(c as int - '0' as int)
    else if 'A' <= c <= 'F' then Some(c as int - 'A' as int + 10)
    else None
  }

  function QuoteByte(b: byte): (r: string)
    ensures 1 <= |r| <= 3
  {
    if b == ' ' as int then "+"
    else if Unreserved(b) then [b as char]
    else ['%', HexDigit(b / 16), HexDigit(b % 16)]
  }

  function QuoteBytes(bs: seq<byte>): string
    decreases |bs|
  {
    if bs == [] then "" else QuoteByte(bs[0]) + QuoteBytes(bs[1..])
  }

  /** `quote_plus(s, safe="")`. It loses nothing: decoding gives back the
      UTF-8 bytes of s. */
  function QuotePlus(s: string): (r: string)
    ensures Unquote(r) == Some(Utf8(s))
  {
    UnquoteQuoteBytes(Utf8(s));
    QuoteBytes(Utf8(s))
  }

  /** The characters an encoded value is made of. */
  predicate EncodedChar(c: char)
  {
    UnreservedChar(c) || c == '+' || c == '%'
  }

  lemma {:induction false} QuoteBytesAlphabet(bs: seq<byte>)
    ensures forall i :: 0 <= i < |QuoteBytes(bs)| ==> EncodedChar(QuoteBytes(bs)[i])
    decreases |bs|
  {
    if bs != [] {
      QuoteBytesAlphabet(bs[1..]);
      var h, t := QuoteByte(bs[0]), QuoteBytes(bs[1..]);
      assert QuoteBytes(bs) == h + t;
      assert forall i :: 0 <= i < |h| ==> EncodedChar(h[i]);
    }
  }

  /** An encoded value consists only of unreserved characters, `+` and `%`;
      in particular it never holds `&`, `=` or a space. */
  lemma QuotePlusAlphabet(s: string)
    ensures forall i :: 0 <= i < |QuotePlus(s)| ==> EncodedChar(QuotePlus(s)[i])
    ensures '&' !in QuotePlus(s) && '=' !in QuotePlus(s) && ' ' !in QuotePlus(s)
  {
    QuoteBytesAlphabet(Utf8(s));
  }

  /** Decoding of an encoded value back to its bytes: `+` is a space, `%XX`
      a byte, any other character stands for its own code. */
  function Unquote(s: string): (r: Option<seq<byte>>)
    decreases |s|
  {
    if s == [] then Some([])
    else if s[0] == '+' then Prepend(' ' as int, Unquote(s[1..]))
    else if s[0] == '%' then
      if |s| >= 3 && HexValue(s[1]).Some? && HexValue(s[2]).Some? then
        Prepend(HexValue(s[1]).value * 16 + HexValue(s[2]).value, Unquote(s[3..]))
      else None
    else if s[0] as int < 0x80 then Prepend(s[0] as int, Unquote(s[1..]))
    else None
  }

  function Prepend(b: byte, r: Option<seq<byte>>): Option<seq<byte>>
  {
    if r.Some? then Some([b] + r.value) else None
  }

  lemma QuoteByteThenRest(b: byte, rest: string)
    ensures Unquote(QuoteByte(b) + rest) == Prepend(b, Unquote(rest))
  {
    var q := QuoteByte(b);
    var s := q + rest;
    if b == ' ' as int {
      assert s[0] == '+' && s[1..] == rest;
    } else if Unreserved(b) {
      assert s[0] == b as char && s[1..] == rest;
    } else {
      assert s[0] == '%' && s[1] == HexDigit(b / 16) && s[2] == HexDigit(b % 16) && s[3..] == rest;
    }
  }

  /** Decoding an encoding gives back the bytes. */
  lemma {:induction false} UnquoteQuoteBytes(bs: seq<byte>)
    ensures Unquote(QuoteBytes(bs)) == Some(bs)
    decreases |bs|
  {
    if bs != [] {
      UnquoteQuoteBytes(bs[1..]);
      QuoteByteThenRest(bs[0], QuoteBytes(bs[1..]));
      assert [bs[0]] + bs[1..] == bs;
    }
  }

  /** A string of unreserved ASCII characters is its own encoding. */
  lemma {:induction false} QuotePlusUnreserved(s: string)
    requires forall i :: 0 <= i < |s| ==> UnreservedChar(s[i])
    ensures QuotePlus(s) == s
    decreases |s|
  {
    if s != [] {
      QuotePlusUnreserved(s[1..]);
      assert Utf8(s) == [s[0] as int] + Utf8(s[1..]);
      assert QuoteBytes(Utf8(s)) == QuoteByte(s[0] as int) + QuoteBytes(Utf8(s[1..]));
      assert QuoteByte(s[0] as int) == [s[0]];
    }
  }
}
