/**
 * The two encoders wrapped around the back URL and the token when a gateway
 * URL is assembled: PHP's `urlencode` (form-style: space becomes `+`) and
 * `base64_encode` (the alphabet and padding of section 4 of RFC 4648). Each
 * comes with the decoder the gateway applies, and the round trip is proved.
 * A PHP string is a byte string; a `char` of code 256 or more, which no PHP
 * string holds, is read as its code modulo 256.
 */
module Encoding {
  import opened Common
  import opened Php

  /** The byte a char stands for. */
  function Byte(c: char): (b: nat)
    ensures b < 256
    ensures c as int < 256 ==> b == c as int
  {
    c as int % 256
  }

  // ---------------------------------------------------------------------------
  // hexadecimal digits
  // ---------------------------------------------------------------------------

  /** The upper-case hexadecimal digit of `n`, as `urlencode` writes it. */
  function HexDigit(n: nat): (c: char)
    requires n < 16
    ensures '0' <= c <= '9' || 'A' <= c <= 'F'
  {
    if n < 10 then ('0' as int + n) as char else ('A' as int + n - 10) as char
  }

  /** The value of a hexadecimal digit of either case, None for any other char. */
  function HexValue(c: char): (r: Option<nat>)
    ensures r.Some? ==> r.value < 16
  {
    if '0' <= c <= '9' then Some(c as int - '0' as int)
    else if 'A' <= c <= 'F' then Some(c as int - 'A' as int + 10)
    else if 'a' <= c <= 'f' then Some(c as int - 'a' as int + 10)
    else None
  }

  lemma HexValueOfDigit(n: nat)
    requires n < 16
    ensures HexValue(HexDigit(n)) == Some(n)
  {
  }

  // ---------------------------------------------------------------------------
  // urlencode / urldecode
  // ---------------------------------------------------------------------------

  predicate IsAlphaNum(c: char) {
    'a' <= c <= 'z' || 'A' <= c <= 'Z' || '0' <= c <= '9'
  }

  /** The bytes `urlencode` leaves as they are: letters, digits and `-_.`. */
  predicate IsUrlUnreserved(c: char) {
    IsAlphaNum(c) || c == '-' || c == '_' || c == '.'
  }

  /** The chars `urlencode` can produce. */
  predicate IsUrlEncodedChar(c: char) {
    IsUrlUnreserved(c) || c == '%' || c == '+'
  }

  /** `urlencode` of one byte. */
  function UrlEncodeByte(c: char): (r: string)
    ensures forall i :: 0 <= i < |r| ==> IsUrlEncodedChar(r[i])
    ensures IsUrlUnreserved(c) ==> r == [c]
  {
    if IsUrlUnreserved(c) then [c]
    else if c == ' ' then "+"
    else ['%', HexDigit(Byte(c) / 16), HexDigit(Byte(c) % 16)]
  }

  /**
   * `urlencode(s)`: the result holds only unreserved bytes, `%` and `+`, so in
   * particular no `&`, `=`, `?` or `#` that would split a query string.
   */
  function UrlEncode(s: string): (r: string)
    ensures forall i :: 0 <= i < |r| ==> IsUrlEncodedChar(r[i])
    ensures |s| <= |r| <= 3 * |s|
    decreases |s|
  {
    if |s| == 0 then "" else UrlEncodeByte(s[0]) + UrlEncode(s[1..])
  }

  /** A string of unreserved bytes, such as "service" or "ticket", is its own encoding. */
  lemma {:induction false} UrlEncodeUnreserved(s: string)
    requires forall i :: 0 <= i < |s| ==> IsUrlUnreserved(s[i])
    ensures UrlEncode(s) == s
    decreases |s|
  {
    if |s| > 0 {
      UrlEncodeUnreserved(s[1..]);
      assert [s[0]] + s[1..] == s;
    }
  }

  /** `urldecode(s)`: `+` is a space, `%` and two hex digits is a byte, anything else is kept. */
  function UrlDecode(s: string): (r: string)
    ensures |r| <= |s|
    decreases |s|
  {
    if |s| == 0 then ""
    else if s[0] == '+' then " " + UrlDecode(s[1..])
    else if s[0] == '%' && |s| >= 3 && HexValue(s[1]).Some? && HexValue(s[2]).Some? then
      [(HexValue(s[1]).value * 16 + HexValue(s[2]).value) as char] + UrlDecode(s[3..])
    else [s[0]] + UrlDecode(s[1..])
  }

  /** Decoding the encoding of one byte and then more gives the byte and then the rest. */
  lemma UrlDecodeByte(c: char, t: string)
    requires c as int < 256
    ensures UrlDecode(UrlEncodeByte(c) + t) == [c] + UrlDecode(t)
  {
    var e := UrlEncodeByte(c) + t;
    if IsUrlUnreserved(c) {
      assert e[1..] == t;
    } else if c == ' ' {
      assert e[1..] == t;
    } else {
      var b := Byte(c);
      HexValueOfDigit(b / 16);
      HexValueOfDigit(b % 16);
      assert e[1] == HexDigit(b / 16) && e[2] == HexDigit(b % 16);
      assert e[3..] == t;
      assert (b / 16) * 16 + b % 16 == b;
    }
  }

  /** `urldecode(urlencode(s)) == s` for every PHP string. */
  lemma {:induction false} UrlDecodeEncode(s: string)
    requires IsByteString(s)
    ensures UrlDecode(UrlEncode(s)) == s
    decreases |s|
  {
    if |s| > 0 {
      UrlDecodeByte(s[0], UrlEncode(s[1..]));
      UrlDecodeEncode(s[1..]);
      assert [s[0]] + s[1..] == s;
    }
  }

  // ---------------------------------------------------------------------------
  // base64 (section 4 of RFC 4648)
  // ---------------------------------------------------------------------------

  /** The digit of value `n` in the alphabet A-Z, a-z, 0-9, `+`, `/`. */
  function Base64Digit(n: nat): (c: char)
    requires n < 64
    ensures IsBase64Digit(c)
  {
    if n < 26 then ('A' as int + n) as char
    else if n < 52 then ('a' as int + n - 26) as char
    else if n < 62 then ('0' as int + n - 52) as char
    else if n == 62 then '+'
    else '/'
  }

  predicate IsBase64Digit(c: char) {
    IsAlphaNum(c) || c == '+' || c == '/'
  }

  /** The value of a base64 digit, None for any other char (`=` included). */
  function Base64Value(c: char): (r: Option<nat>)
    ensures r.Some? <==> IsBase64Digit(c)
    ensures r.Some? ==> r.value < 64 && Base64Digit(r.value) == c
  {
    if 'A' <= c <= 'Z' then Some(c as int - 'A' as int)
    else if 'a' <= c <= 'z' then Some(c as int - 'a' as int + 26)
    else if '0' <= c <= '9' then Some(c as int - '0' as int + 52)
    else if c == '+' then Some(62)
    else if c == '/' then Some(63)
    else None
  }

  lemma Base64ValueOfDigit(n: nat)
    requires n < 64
    ensures Base64Value(Base64Digit(n)) == Some(n)
  {
  }

  // The four sextets of a group of three bytes, and the bytes rebuilt from them.

  function Sextet0(b0: nat): (v: nat)
    requires b0 < 256
    ensures v < 64
  {
    b0 / 4
  }

  function Sextet1(b0: nat, b1: nat): (v: nat)
    requires b0 < 256 && b1 < 256
    ensures v < 64
  {
    (b0 % 4) * 16 + b1 / 16
  }

  function Sextet2(b1: nat, b2: nat): (v: nat)
    requires b1 < 256 && b2 < 256
    ensures v < 64
  {
    (b1 % 16) * 4 + b2 / 64
  }

  function Sextet3(b2: nat): (v: nat)
    requires b2 < 256
    ensures v < 64
  {
    b2 % 64
  }

  function Octet0(v0: nat, v1: nat): (b: nat)
    requires v0 < 64 && v1 < 64
    ensures b < 256
  {
    v0 * 4 + v1 / 16
  }

  function Octet1(v1: nat, v2: nat): (b: nat)
    requires v1 < 64 && v2 < 64
    ensures b < 256
  {
    (v1 % 16) * 16 + v2 / 4
  }

  function Octet2(v2: nat, v3: nat): (b: nat)
    requires v2 < 64 && v3 < 64
    ensures b < 256
  {
    (v2 % 4) * 64 + v3
  }

  /** The bit arithmetic behind one group: the sextets give back the three bytes. */
  lemma SextetsInvert(b0: nat, b1: nat, b2: nat)
    requires b0 < 256 && b1 < 256 && b2 < 256
    ensures Octet0(Sextet0(b0), Sextet1(b0, b1)) == b0
    ensures Octet1(Sextet1(b0, b1), Sextet2(b1, b2)) == b1
    ensures Octet2(Sextet2(b1, b2), Sextet3(b2)) == b2
  {
  }

  /** Three bytes as four digits. */
  function EncodeBlock(b0: nat, b1: nat, b2: nat): (q: string)
    requires b0 < 256 && b1 < 256 && b2 < 256
    ensures |q| == 4
  {
    [Base64Digit(Sextet0(b0)), Base64Digit(Sextet1(b0, b1)),
     Base64Digit(Sextet2(b1, b2)), Base64Digit(Sextet3(b2))]
  }

  /**
   * `base64_encode(s)`: four digits per three bytes, the last group padded
   * with `=` to four chars.
   */
  function Base64Encode(s: string): (r: string)
    ensures |r| == 4 * ((|s| + 2) / 3)
    ensures forall i :: 0 <= i < |r| ==> IsBase64Digit(r[i]) || r[i] == '='
    decreases |s|
  {
    if |s| == 0 then ""
    else if |s| == 1 then
      var b0 := Byte(s[0]);
      [Base64Digit(Sextet0(b0)), Base64Digit(Sextet1(b0, 0)), '=', '=']
    else if |s| == 2 then
      var b0, b1 := Byte(s[0]), Byte(s[1]);
      [Base64Digit(Sextet0(b0)), Base64Digit(Sextet1(b0, b1)), Base64Digit(Sextet2(b1, 0)), '=']
    else
      EncodeBlock(Byte(s[0]), Byte(s[1]), Byte(s[2])) + Base64Encode(s[3..])
  }

  /** Four digits as three bytes; None unless all four are digits. */
  function DecodeBlock(q: string): (r: Option<string>)
    requires |q| == 4
  {
    var v0, v1, v2, v3 := Base64Value(q[0]), Base64Value(q[1]), Base64Value(q[2]), Base64Value(q[3]);
    if v0.None? || v1.None? || v2.None? || v3.None? then None
    else
      Some([Octet0(v0.value, v1.value) as char, Octet1(v1.value, v2.value) as char,
            Octet2(v2.value, v3.value) as char])
  }

  /** The last group, which may end in one or two `=`. */
  function DecodeLastBlock(q: string): (r: Option<string>)
    requires |q| == 4
  {
    var v0, v1, v2 := Base64Value(q[0]), Base64Value(q[1]), Base64Value(q[2]);
    if q[2] == '=' && q[3] == '=' then
      if v0.None? || v1.None? then None
      else Some([Octet0(v0.value, v1.value) as char])
    else if q[3] == '=' then
      if v0.None? || v1.None? || v2.None? then None
      else Some([Octet0(v0.value, v1.value) as char, Octet1(v1.value, v2.value) as char])
    else DecodeBlock(q)
  }

  /** The decoder the gateway applies: None for a malformed text. */
  function Base64Decode(t: string): (r: Option<string>)
    decreases |t|
  {
    if |t| == 0 then Some("")
    else if |t| < 4 then None
    else if |t| == 4 then DecodeLastBlock(t)
    else
      match DecodeBlock(t[..4])
      case None => None
      case Some(head) =>
        match Base64Decode(t[4..])
        case None => None
        case Some(tail) => Some(head + tail)
  }

  lemma EncodeBlockDecodes(b0: nat, b1: nat, b2: nat)
    requires b0 < 256 && b1 < 256 && b2 < 256
    ensures DecodeBlock(EncodeBlock(b0, b1, b2)) == Some([b0 as char, b1 as char, b2 as char])
  {
    var v0, v1, v2, v3 := Sextet0(b0), Sextet1(b0, b1), Sextet2(b1, b2), Sextet3(b2);
    assert DecodeBlock(EncodeBlock(b0, b1, b2))
      == Some([Octet0(v0, v1) as char, Octet1(v1, v2) as char, Octet2(v2, v3) as char]) by {
      Base64ValueOfDigit(v0);
      Base64ValueOfDigit(v1);
      Base64ValueOfDigit(v2);
      Base64ValueOfDigit(v3);
    }
    assert Octet0(v0, v1) == b0 && Octet1(v1, v2) == b1 && Octet2(v2, v3) == b2 by {
      SextetsInvert(b0, b1, b2);
    }
  }

  /** A single trailing byte, padded with `==`, decodes to itself. */
  lemma Base64DecodeOneByte(s: string)
    requires |s| == 1 && IsByteString(s)
    ensures Base64Decode(Base64Encode(s)) == Some(s)
  {
    var b0 := Byte(s[0]);
    var v0, v1 := Sextet0(b0), Sextet1(b0, 0);
    var t := [Base64Digit(v0), Base64Digit(v1), '=', '='];
    assert Base64Encode(s) == t;
    assert DecodeLastBlock(t) == Some([Octet0(v0, v1) as char]) by {
      Base64ValueOfDigit(v0);
      Base64ValueOfDigit(v1);
    }
    assert Octet0(v0, v1) == b0 by {
      SextetsInvert(b0, 0, 0);
    }
    assert [b0 as char] == s;
  }

  /** Two trailing bytes, padded with `=`, decode to themselves. */
  lemma Base64DecodeTwoBytes(s: string)
    requires |s| == 2 && IsByteString(s)
    ensures Base64Decode(Base64Encode(s)) == Some(s)
  {
    var b0, b1 := Byte(s[0]), Byte(s[1]);
    var v0, v1, v2 := Sextet0(b0), Sextet1(b0, b1), Sextet2(b1, 0);
    var t := [Base64Digit(v0), Base64Digit(v1), Base64Digit(v2), '='];
    assert Base64Encode(s) == t;
    assert DecodeLastBlock(t) == Some([Octet0(v0, v1) as char, Octet1(v1, v2) as char]) by {
      Base64ValueOfDigit(v0);
      Base64ValueOfDigit(v1);
      Base64ValueOfDigit(v2);
    }
    assert Octet0(v0, v1) == b0 && Octet1(v1, v2) == b1 by {
      SextetsInvert(b0, b1, 0);
    }
    assert [b0 as char, b1 as char] == s;
  }

  /** The encoding of three or more bytes starts with a full group that decodes to the first three. */
  lemma Base64EncodeFirstGroup(s: string)
    requires |s| >= 3 && IsByteString(s)
    ensures |Base64Encode(s)| >= 4
    ensures Base64Encode(s)[4..] == Base64Encode(s[3..])
    ensures DecodeBlock(Base64Encode(s)[..4]) == Some(s[..3])
  {
    var b0, b1, b2 := Byte(s[0]), Byte(s[1]), Byte(s[2]);
    var head, rest := EncodeBlock(b0, b1, b2), Base64Encode(s[3..]);
    assert Base64Encode(s) == head + rest;
    assert (head + rest)[..4] == head && (head + rest)[4..] == rest;
    assert DecodeBlock(head) == Some(s[..3]) by {
      EncodeBlockDecodes(b0, b1, b2);
      FirstBytes(s);
    }
  }

  /** The first three chars of a byte string, read as bytes and back. */
  lemma FirstBytes(s: string)
    requires |s| >= 3 && IsByteString(s)
    ensures [Byte(s[0]) as char, Byte(s[1]) as char, Byte(s[2]) as char] == s[..3]
  {
    assert s[0] as int < 256 && s[1] as int < 256 && s[2] as int < 256;
  }

  /** `base64_decode(base64_encode(s)) == s` for every PHP string. */
  lemma {:induction false} Base64DecodeEncode(s: string)
    requires IsByteString(s)
    ensures Base64Decode(Base64Encode(s)) == Some(s)
    decreases |s|
  {
    if |s| == 1 {
      Base64DecodeOneByte(s);
    } else if |s| == 2 {
      Base64DecodeTwoBytes(s);
    } else if |s| >= 3 {
      var t := Base64Encode(s);
      Base64EncodeFirstGroup(s);
      if |s| == 3 {
        assert t == t[..4] && IsBase64Digit(t[2]) && IsBase64Digit(t[3]) by {
          var b0, b1, b2 := Byte(s[0]), Byte(s[1]), Byte(s[2]);
          assert t == EncodeBlock(b0, b1, b2);
        }
        assert t[2] != '=' && t[3] != '=';
        assert DecodeLastBlock(t) == DecodeBlock(t);
        assert s[..3] == s;
      } else {
        assert IsByteString(s[3..]) by {
          forall i | 0 <= i < |s| - 3 ensures s[3..][i] as int < 256 {
            assert s[3..][i] == s[i + 3];
          }
        }
        Base64DecodeEncode(s[3..]);
        assert s[..3] + s[3..] == s;
      }
    }
  }
}
