/**
 * HexToRGB: the [r, g, b] triple read from a CSS custom property's value.
 * The value itself (getComputedStyle(element).getPropertyValue(name)) is the
 * input. A component is what parseInt or Number gives it; None stands for
 * NaN, which parseInt returns for a pair without hexadecimal digits.
 * Hexadecimal values follow the #RGB and #RRGGBB forms of section 5.2 of
 * CSS Color Module Level 4, without the forms carrying alpha.
 */
module CssColor {
  import opened JsText

  const Fallback: seq<Option<int>> := [Some(41), Some(128), Some(185)]

  /**
   * parseInt(x + y, 16) on a two-character text, case by case: a "0x" or
   * "0X" prefix leaves no digit; a leading digit is read with the second
   * one if that is a digit too; a sign or a white-space character before a
   * digit leaves that digit alone; anything else is NaN. PairIsParseInt
   * proves this is parseInt. `hex.substring(i, i + 2)` is the pair
   * hex[i], hex[i + 1].
   */
  function PairValue(x: char, y: char): Option<int>
  {
    if x == '0' && (y == 'x' || y == 'X') then None
    else if IsHexDigit(x) then Some(if IsHexDigit(y) then 16 * HexDigitValue(x) + HexDigitValue(y) else HexDigitValue(x))
    else if (x == '-' || x == '+' || IsWhitespace(x)) && IsHexDigit(y) then
      var v: int := HexDigitValue(y);
      Some(if x == '-' then -v else v)
    else None
  }

  /** The '#' branch: three digits are doubled, six are read in pairs, any other count keeps the fallback. */
  function FromHex(hex: string): (rgb: seq<Option<int>>)
    ensures |rgb| == 3
  {
    if |hex| == 3 then
      [PairValue(hex[0], hex[0]), PairValue(hex[1], hex[1]), PairValue(hex[2], hex[2])]
    else if |hex| == 6 then
      [PairValue(hex[0], hex[1]), PairValue(hex[2], hex[3]), PairValue(hex[4], hex[5])]
    else Fallback
  }

  /** The "rgb" branch: the first three matches of /\d+/g, as numbers, when there are three. */
  function FromRgb(css: string): (rgb: seq<Option<int>>)
    ensures |rgb| == 3
  {
    var runs := DigitRuns(css);
    if |runs| >= 3 then [Some(DecimalValue(runs[0])), Some(DecimalValue(runs[1])), Some(DecimalValue(runs[2]))]
    else Fallback
  }

  function HexToRGB(raw: string): (rgb: seq<Option<int>>)
    ensures |rgb| == 3
  {
    var css := Trim(raw);
    if StartsWith(css, "#") then FromHex(ReplaceFirst(css, "#", ""))
    else if StartsWith(css, "rgb") then FromRgb(css)
    else Fallback
  }

  /** `replace('#', '')` on a value that starts with '#' drops exactly that '#'. */
  lemma DropHash(css: string)
    requires StartsWith(css, "#")
    ensures ReplaceFirst(css, "#", "") == css[1..]
  {
    assert IndexOf(css, "#") == Some(0);
  }

  /**
   * Which branch a value takes: '#' reads the digits after it, "rgb" reads
   * digit runs, anything else is the fallback.
   */
  lemma Branches(raw: string)
    ensures StartsWith(Trim(raw), "#") ==> HexToRGB(raw) == FromHex(Trim(raw)[1..])
    ensures !StartsWith(Trim(raw), "#") && StartsWith(Trim(raw), "rgb") ==> HexToRGB(raw) == FromRgb(Trim(raw))
    ensures !StartsWith(Trim(raw), "#") && !StartsWith(Trim(raw), "rgb") ==> HexToRGB(raw) == Fallback
  {
    if StartsWith(Trim(raw), "#") {
      DropHash(Trim(raw));
    }
  }

  /** PairValue agrees with parseInt(x + y, 16) on every pair of characters. */
  lemma PairIsParseInt(x: char, y: char)
    ensures PairValue(x, y) == ParseInt16([x, y])
  {
    if IsWhitespace(x) {
      SpaceFirst(x, y);
    } else if x == '-' || x == '+' {
      SignFirst(x, y);
    } else {
      TwoChars(x, y);
    }
  }

  /** parseInt skips a leading white-space character. */
  lemma SpaceFirst(x: char, y: char)
    requires IsWhitespace(x)
    ensures PairValue(x, y) == ParseInt16([x, y])
  {
    WhitespaceIsNoDigit(x);
    var s := [x, y];
    assert s[1..] == [y];
    if IsWhitespace(y) {
      WhitespaceIsNoDigit(y);
      assert [y][1..] == [];
      assert TrimStart(s) == [];
    } else {
      assert TrimStart(s) == [y];
      SingleChar(y);
    }
  }

  /** A white-space character is neither a digit nor a sign. */
  lemma WhitespaceIsNoDigit(c: char)
    requires IsWhitespace(c)
    ensures !IsHexDigit(c) && c != '-' && c != '+'
  {
  }

  /** parseInt takes a leading sign and reads the digit after it. */
  lemma SignFirst(x: char, y: char)
    requires x == '-' || x == '+'
    ensures PairValue(x, y) == ParseInt16([x, y])
  {
    var s := [x, y];
    assert !IsWhitespace(x) && !IsHexDigit(x);
    assert TrimStart(s) == s;
    assert s[1..] == [y];
    assert DropSign(s) == [y];
    SingleChar(y);
    if IsHexDigit(y) {
      var v: int := HexDigitValue(y);
      assert ParseInt16(s) == Some(if x == '-' then -v else v);
    } else {
      assert ParseInt16(s) == None;
    }
  }

  /** parseInt on the single character left after white space or a sign. */
  lemma SingleChar(y: char)
    ensures DropHexPrefix([y]) == [y]
    ensures HexPrefix([y]) == (if IsHexDigit(y) then [y] else [])
    ensures IsHexDigit(y) ==> HexValue([y]) == HexDigitValue(y)
  {
    assert [y][1..] == [];
    assert [y][..0] == [];
  }

  /** parseInt on two characters, neither white space nor a sign first. */
  lemma TwoChars(x: char, y: char)
    requires !IsWhitespace(x) && x != '-' && x != '+'
    ensures ParseInt16([x, y]) == PairValue(x, y)
  {
    var s := [x, y];
    assert TrimStart(s) == s;
    assert DropSign(s) == s;
    if x == '0' && (y == 'x' || y == 'X') {
      assert DropHexPrefix(s) == [];
    } else {
      assert DropHexPrefix(s) == s;
      if IsHexDigit(x) {
        LeadingDigit(x, y);
      } else {
        assert HexPrefix(s) == [];
      }
    }
  }

  /** The digits parseInt reads from a text starting with a hexadecimal digit. */
  lemma LeadingDigit(x: char, y: char)
    requires IsHexDigit(x)
    ensures HexPrefix([x, y]) == (if IsHexDigit(y) then [x, y] else [x])
    ensures HexValue([x]) == HexDigitValue(x)
    ensures IsHexDigit(y) ==> HexValue([x, y]) == 16 * HexDigitValue(x) + HexDigitValue(y)
  {
    var s := [x, y];
    assert s[1..] == [y];
    SingleChar(y);
    SingleChar(x);
    assert s[..1] == [x];
  }

  /** #RGB doubles each digit: every component is 17 times its digit's value. */
  lemma ShortHex(x: char, y: char, z: char)
    requires IsHexDigit(x) && IsHexDigit(y) && IsHexDigit(z)
    ensures FromHex([x, y, z]) == [Some(17 * HexDigitValue(x)), Some(17 * HexDigitValue(y)), Some(17 * HexDigitValue(z))]
  {
    assert FromHex([x, y, z]) == [PairValue(x, x), PairValue(y, y), PairValue(z, z)];
  }

  /** "#abc" reads as [170, 187, 204]. */
  lemma ShortHexExample(raw: string)
    requires Trim(raw) == "#abc"
    ensures HexToRGB(raw) == [Some(170), Some(187), Some(204)]
  {
    Branches(raw);
    assert Trim(raw)[1..] == ['a', 'b', 'c'];
    ShortHex('a', 'b', 'c');
  }

  /** #RRGGBB reads consecutive pairs. */
  lemma LongHex(d: string)
    requires |d| == 6 && forall i :: 0 <= i < 6 ==> IsHexDigit(d[i])
    ensures FromHex(d) == [Some(16 * HexDigitValue(d[0]) + HexDigitValue(d[1])),
                           Some(16 * HexDigitValue(d[2]) + HexDigitValue(d[3])),
                           Some(16 * HexDigitValue(d[4]) + HexDigitValue(d[5]))]
  {
    var p0, p1, p2 := PairValue(d[0], d[1]), PairValue(d[2], d[3]), PairValue(d[4], d[5]);
    assert FromHex(d) == [p0, p1, p2];
  }

  /** A value that trims to #RRGGBB gives the values of its three digit pairs. */
  lemma LongHexColor(raw: string, hex: string)
    requires Trim(raw) == hex
    requires |hex| == 7 && hex[0] == '#' && forall i :: 1 <= i < 7 ==> IsHexDigit(hex[i])
    ensures HexToRGB(raw) == [Some(16 * HexDigitValue(hex[1]) + HexDigitValue(hex[2])),
                              Some(16 * HexDigitValue(hex[3]) + HexDigitValue(hex[4])),
                              Some(16 * HexDigitValue(hex[5]) + HexDigitValue(hex[6]))]
  {
    assert StartsWith(hex, "#") by { assert hex[..1] == "#"; }
    Branches(raw);
    var d := hex[1..];
    assert forall i :: 0 <= i < |d| ==> IsHexDigit(d[i]);
    assert d[0] == hex[1] && d[1] == hex[2] && d[2] == hex[3];
    assert d[3] == hex[4] && d[4] == hex[5] && d[5] == hex[6];
    LongHex(d);
  }

  /** With six hexadecimal digits every component is a number in 0..255. */
  lemma LongHexBounds(d: string)
    requires |d| == 6 && forall i :: 0 <= i < 6 ==> IsHexDigit(d[i])
    ensures forall k :: 0 <= k < 3 ==> FromHex(d)[k].Some? && 0 <= FromHex(d)[k].value <= 255
  {
    LongHex(d);
  }

  /** A '#' value whose digits number neither 3 nor 6 keeps the fallback. */
  lemma OtherLengthFallback(raw: string)
    requires StartsWith(Trim(raw), "#")
    requires |Trim(raw)| != 4 && |Trim(raw)| != 7
    ensures HexToRGB(raw) == Fallback
  {
    Branches(raw);
  }

  /** A run of digits followed by a non-digit is the first match of /\d+/g. */
  lemma {:induction false} RunThenRest(a: string, c: char, rest: string)
    requires a != [] && forall i :: 0 <= i < |a| ==> IsDigit(a[i])
    requires !IsDigit(c)
    ensures DigitRuns(a + [c] + rest) == [a] + DigitRuns(rest)
  {
    var s := a + [c] + rest;
    DigitPrefixOf(a, c, rest);
    assert s[|a|..] == [c] + rest;
    assert ([c] + rest)[1..] == rest;
  }

  lemma {:induction false} DigitPrefixOf(a: string, c: char, rest: string)
    requires forall i :: 0 <= i < |a| ==> IsDigit(a[i])
    requires !IsDigit(c)
    ensures DigitPrefix(a + [c] + rest) == a
  {
    if a != [] {
      assert (a + [c] + rest)[1..] == a[1..] + [c] + rest;
      DigitPrefixOf(a[1..], c, rest);
      assert a == [a[0]] + a[1..];
    }
  }

  /** A character that is not a digit is skipped by /\d+/g. */
  lemma SkipNonDigit(c: char, rest: string)
    requires !IsDigit(c)
    ensures DigitRuns([c] + rest) == DigitRuns(rest)
  {
    assert ([c] + rest)[1..] == rest;
  }

  /** Three digit runs, each closed by a non-digit. */
  lemma ThreeRuns(R: string, G: string, B: string)
    requires R != [] && forall i :: 0 <= i < |R| ==> IsDigit(R[i])
    requires G != [] && forall i :: 0 <= i < |G| ==> IsDigit(G[i])
    requires B != [] && forall i :: 0 <= i < |B| ==> IsDigit(B[i])
    ensures DigitRuns(R + [','] + (G + [','] + (B + [')'] + ""))) == [R, G, B]
  {
    var t3 := B + [')'] + "";
    var t2 := G + [','] + t3;
    RunThenRest(R, ',', t2);
    RunThenRest(G, ',', t3);
    RunThenRest(B, ')', "");
  }

  /** The opening "rgb(" holds no digit. */
  lemma SkipRgbOpen(t: string)
    ensures DigitRuns(['r'] + (['g'] + (['b'] + (['('] + t)))) == DigitRuns(t)
  {
    SkipNonDigit('r', ['g'] + (['b'] + (['('] + t)));
    SkipNonDigit('g', ['b'] + (['('] + t));
    SkipNonDigit('b', ['('] + t);
    SkipNonDigit('(', t);
  }

  /** "rgb(R,G,B)", regrouped one character at a time. */
  lemma RgbTextShape(css: string, R: string, G: string, B: string)
    requires css == "rgb(" + R + "," + G + "," + B + ")"
    ensures css == ['r'] + (['g'] + (['b'] + (['('] + (R + [','] + (G + [','] + (B + [')'] + ""))))))
  {
  }

  /** The digit runs of "rgb(R,G,B)" are R, G and B. */
  lemma RgbTextRuns(css: string, R: string, G: string, B: string)
    requires R != [] && forall i :: 0 <= i < |R| ==> IsDigit(R[i])
    requires G != [] && forall i :: 0 <= i < |G| ==> IsDigit(G[i])
    requires B != [] && forall i :: 0 <= i < |B| ==> IsDigit(B[i])
    requires css == "rgb(" + R + "," + G + "," + B + ")"
    ensures DigitRuns(css) == [R, G, B]
  {
    var t := R + [','] + (G + [','] + (B + [')'] + ""));
    RgbTextShape(css, R, G, B);
    SkipRgbOpen(t);
    ThreeRuns(R, G, B);
  }

  /**
   * rgb(R,G,B) with decimal components is read without clamping: a
   * component above 255 comes back as written.
   */
  lemma RgbNoClamp(css: string, r: nat, g: nat, b: nat)
    requires css == "rgb(" + NatToString(r) + "," + NatToString(g) + "," + NatToString(b) + ")"
    ensures FromRgb(css) == [Some(r), Some(g), Some(b)]
  {
    RgbTextRuns(css, NatToString(r), NatToString(g), NatToString(b));
    DecimalRoundTrip(r);
    DecimalRoundTrip(g);
    DecimalRoundTrip(b);
  }

  lemma RgbPrefix(t: string)
    ensures StartsWith(['r'] + (['g'] + (['b'] + t)), "rgb")
    ensures !StartsWith(['r'] + (['g'] + (['b'] + t)), "#")
  {
    var s := ['r'] + (['g'] + (['b'] + t));
    assert s[..3] == ['r', 'g', 'b'];
  }

  /** A value such as "rgb(300,20,5)" keeps its out-of-range component. */
  lemma RgbExample(raw: string, r: nat, g: nat, b: nat)
    requires Trim(raw) == "rgb(" + NatToString(r) + "," + NatToString(g) + "," + NatToString(b) + ")"
    ensures HexToRGB(raw) == [Some(r), Some(g), Some(b)]
  {
    var css := Trim(raw);
    var R, G, B := NatToString(r), NatToString(g), NatToString(b);
    RgbTextShape(css, R, G, B);
    RgbPrefix(['('] + (R + [','] + (G + [','] + (B + [')'] + ""))));
    Branches(raw);
    RgbNoClamp(css, r, g, b);
  }
}
