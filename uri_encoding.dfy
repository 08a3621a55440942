/**
 * encodeURIComponent: every character outside the unreserved set is
 * written as the percent-encoded octets of its UTF-8 form (section 2.1 of
 * RFC 3986), with upper-case hexadecimal digits. Dafny characters are
 * Unicode scalar values, so the URIError that JavaScript raises for a lone
 * surrogate cannot arise here.
 */
module UriEncoding {
  import opened JsText

  /** The characters encodeURIComponent leaves as they are. */
  predicate Unescaped(c: char) {
    || IsAsciiUpper(c) || IsAsciiLower(c) || IsDigit(c)
    || c == '-' || c == '_' || c == '.' || c == '!' || c == '~'
    || c == '*' || c == '\'' || c == '(' || c == ')'
  }

  predicate IsByte(b: int) { 0 <= b < 256 }

  /** The UTF-8 form of one Unicode scalar value. */
  function Utf8(c: char): (octets: seq<int>)
    ensures 1 <= |octets| <= 4
    ensures forall i :: 0 <= i < |octets| ==> IsByte(octets[i])
    ensures c as int < 0x80 ==> octets == [c as int]
  {
    var cp := c as int;
    if cp < 0x80 then [cp]
    else if cp < 0x800 then [0xC0 + cp / 0x40, 0x80 + cp % 0x40]
    else if cp < 0x1_0000 then [0xE0 + cp / 0x1000, 0x80 + cp / 0x40 % 0x40, 0x80 + cp % 0x40]
    else [0xF0 + cp / 0x4_0000, 0x80 + cp / 0x1000 % 0x40, 0x80 + cp / 0x40 % 0x40, 0x80 + cp % 0x40]
  }

  /** The UTF-8 form of a string. */
  function Utf8String(s: string): seq<int>
  {
    if s == [] then [] else Utf8(s[0]) + Utf8String(s[1..])
  }

  function HexUpper(d: nat): (c: char)
    requires d < 16
    ensures IsHexDigit(c) && HexDigitValue(c) == d
    ensures IsDigit(c) || IsAsciiUpper(c)
  {
    if d < 10 then DigitChar(d) else ('A' as int + d - 10) as char
  }

  /** "%XY" for each octet. */
  function PercentOctets(octets: seq<int>): (r: string)
    requires forall i :: 0 <= i < |octets| ==> IsByte(octets[i])
    ensures forall i :: 0 <= i < |r| ==> r[i] == '%' || IsDigit(r[i]) || IsAsciiUpper(r[i])
  {
    if octets == [] then ""
    else
      var b := octets[0];
      assert IsByte(b);
      ['%', HexUpper(b / 16), HexUpper(b % 16)] + PercentOctets(octets[1..])
  }

  function EncodeChar(c: char): (r: string)
    ensures forall i :: 0 <= i < |r| ==> Unescaped(r[i]) || r[i] == '%'
  {
    if Unescaped(c) then [c] else PercentOctets(Utf8(c))
  }

  /** encodeURIComponent: the result is made of unreserved characters and '%' only. */
  function EncodeURIComponent(s: string): (r: string)
    ensures forall i :: 0 <= i < |r| ==> Unescaped(r[i]) || r[i] == '%'
  {
    if s == [] then "" else EncodeChar(s[0]) + EncodeURIComponent(s[1..])
  }

  /** decodeURIComponent as far as octets: "%XY" is one octet, any other character its code. */
  function PercentDecode(r: string): seq<int>
    decreases |r|
  {
    if r == [] then []
    else if r[0] == '%' && |r| >= 3 && IsHexDigit(r[1]) && IsHexDigit(r[2]) then
      [16 * HexDigitValue(r[1]) + HexDigitValue(r[2])] + PercentDecode(r[3..])
    else [r[0] as int] + PercentDecode(r[1..])
  }

  lemma {:induction false} DecodePercentOctets(octets: seq<int>, rest: string)
    requires forall i :: 0 <= i < |octets| ==> IsByte(octets[i])
    ensures PercentDecode(PercentOctets(octets) + rest) == octets + PercentDecode(rest)
  {
    if octets != [] {
      var b := octets[0];
      var t := PercentOctets(octets[1..]) + rest;
      var r := PercentOctets(octets) + rest;
      assert r == ['%', HexUpper(b / 16), HexUpper(b % 16)] + t;
      assert r[3..] == t;
      assert IsByte(b);
      assert r[1] == HexUpper(b / 16) && r[2] == HexUpper(b % 16);
      HexPairValue(b);
      assert PercentDecode(r) == [b] + PercentDecode(t);
      DecodePercentOctets(octets[1..], rest);
      assert PercentDecode(t) == octets[1..] + PercentDecode(rest);
      assert octets == [b] + octets[1..];
      assert [b] + (octets[1..] + PercentDecode(rest)) == octets + PercentDecode(rest);
    } else {
      assert PercentOctets(octets) + rest == rest;
    }
  }

  /** The two hexadecimal digits of an octet give the octet back. */
  lemma HexPairValue(b: int)
    requires IsByte(b)
    ensures IsHexDigit(HexUpper(b / 16)) && IsHexDigit(HexUpper(b % 16))
    ensures 16 * HexDigitValue(HexUpper(b / 16)) + HexDigitValue(HexUpper(b % 16)) == b
  {
  }

  lemma DecodeEncodeChar(c: char, rest: string)
    ensures PercentDecode(EncodeChar(c) + rest) == Utf8(c) + PercentDecode(rest)
  {
    if Unescaped(c) {
      assert ([c] + rest)[1..] == rest;
    } else {
      DecodePercentOctets(Utf8(c), rest);
    }
  }

  /** Percent-decoding recovers the UTF-8 octets of the encoded text. */
  lemma {:induction false} DecodeEncode(s: string)
    ensures PercentDecode(EncodeURIComponent(s)) == Utf8String(s)
  {
    if s != [] {
      DecodeEncode(s[1..]);
      DecodeEncodeChar(s[0], EncodeURIComponent(s[1..]));
    }
  }

  /** Text made of unreserved characters is left unchanged. */
  lemma {:induction false} EncodeUnescaped(s: string)
    requires forall i :: 0 <= i < |s| ==> Unescaped(s[i])
    ensures EncodeURIComponent(s) == s
  {
    if s != [] {
      EncodeUnescaped(s[1..]);
    }
  }

  /** The characters that separate the parts of a URL, and '$'. */
  predicate IsDelimiter(c: char) {
    c == ':' || c == '&' || c == '=' || c == '?' || c == '#' || c == '/' || c == '$'
  }

  lemma EncodedCharNotDelimiter(c: char)
    requires Unescaped(c) || c == '%'
    ensures !IsDelimiter(c)
  {
  }

  /** The encoding never contains a character that separates URL parts, nor '$'. */
  lemma EncodedHasNoDelimiters(s: string)
    ensures var r := EncodeURIComponent(s);
            ':' !in r && '&' !in r && '=' !in r && '?' !in r && '#' !in r && '/' !in r && '$' !in r
  {
    var r := EncodeURIComponent(s);
    forall i | 0 <= i < |r|
      ensures !IsDelimiter(r[i])
    {
      EncodedCharNotDelimiter(r[i]);
    }
  }
}
