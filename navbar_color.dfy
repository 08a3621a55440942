/**
 * NavBar's hexToRgb helper and the colour resetTheme applies. The helper
 * reads everything after the first character with parseInt(…, 16) and
 * unpacks the number with shifts and masks, which operate on the 32-bit
 * two's-complement value of their operand (NaN counts as 0). Shorthand
 * colours are not expanded.
 */
module NavBarColor {
  import opened JsText
  import CssColor

  const TwoTo31: int := 0x8000_0000
  const TwoTo32: int := 0x1_0000_0000

  /** ToInt32, the conversion every bitwise operator applies: NaN is 0, anything else wraps modulo 2^32. */
  function ToInt32(v: Option<int>): (i: int)
    ensures -TwoTo31 <= i < TwoTo31
  {
    match v
    case None => 0
    case Some(n) =>
      var u := n % TwoTo32;
      if u >= TwoTo31 then u - TwoTo32 else u
  }

  /**
   * `(i >> 16) & 255`, `(i >> 8) & 255` and `i & 255` on a 32-bit value. The
   * shift is arithmetic, so it is floor division by a power of two, which is
   * what Dafny's `/` does for a positive divisor; the mask keeps the low byte
   * of the two's-complement value, which is `% 256` with Dafny's non-negative
   * remainder.
   */
  function Bytes(i: int): (rgb: (int, int, int))
    ensures 0 <= rgb.0 <= 255 && 0 <= rgb.1 <= 255 && 0 <= rgb.2 <= 255
  {
    ((i / 65536) % 256, (i / 256) % 256, i % 256)
  }

  /** `hex.slice(1)` */
  function Digits(hex: string): string
  {
    if hex == [] then [] else hex[1..]
  }

  /** The three components hexToRgb computes from `parseInt(hex.slice(1), 16)`. */
  function Components(hex: string): (rgb: (int, int, int))
    ensures 0 <= rgb.0 <= 255 && 0 <= rgb.1 <= 255 && 0 <= rgb.2 <= 255
  {
    Bytes(ToInt32(ParseInt16(Digits(hex))))
  }

  /** hexToRgb: the components as the text "r, g, b". */
  function HexToRgb(hex: string): string
  {
    var rgb := Components(hex);
    RgbText(rgb.0, rgb.1, rgb.2)
  }

  /** The template `${r}, ${g}, ${b}`. */
  function RgbText(r: nat, g: nat, b: nat): string
  {
    NatToString(r) + ", " + NatToString(g) + ", " + NatToString(b)
  }

  /** Unpacking a number below 2^24 gives bytes that pack back to it. */
  lemma PackedRoundTrip(n: int)
    requires 0 <= n < 0x100_0000
    ensures var rgb := Bytes(n); rgb.0 * 65536 + rgb.1 * 256 + rgb.2 == n
  {
    var q := n / 256;
    assert n == 256 * q + n % 256;
    assert q / 256 == n / 65536;
    assert q == 256 * (q / 256) + q % 256;
  }

  /** Three bytes packed as r * 65536 + g * 256 + b unpack to themselves. */
  lemma UnpackPacked(r: int, g: int, b: int)
    requires 0 <= r < 256 && 0 <= g < 256 && 0 <= b < 256
    ensures Bytes(r * 65536 + g * 256 + b) == (r, g, b)
  {
    var n := r * 65536 + g * 256 + b;
    assert n / 256 == r * 256 + g;
    assert n / 65536 == r;
  }

  /** The value of six hexadecimal digits, two at a time. */
  lemma SixDigitValue(d: string)
    requires |d| == 6 && forall i :: 0 <= i < 6 ==> IsHexDigit(d[i])
    ensures HexValue(d) == (16 * HexDigitValue(d[0]) + HexDigitValue(d[1])) * 65536
                           + (16 * HexDigitValue(d[2]) + HexDigitValue(d[3])) * 256
                           + (16 * HexDigitValue(d[4]) + HexDigitValue(d[5]))
  {
    assert HexValue(d[..1]) == HexDigitValue(d[0]) by { assert d[..1][..0] == []; }
    assert HexValue(d[..2]) == 16 * HexValue(d[..1]) + HexDigitValue(d[1]) by { assert d[..2][..1] == d[..1]; }
    assert HexValue(d[..3]) == 16 * HexValue(d[..2]) + HexDigitValue(d[2]) by { assert d[..3][..2] == d[..2]; }
    assert HexValue(d[..4]) == 16 * HexValue(d[..3]) + HexDigitValue(d[3]) by { assert d[..4][..3] == d[..3]; }
    assert HexValue(d[..5]) == 16 * HexValue(d[..4]) + HexDigitValue(d[4]) by { assert d[..5][..4] == d[..4]; }
    assert HexValue(d) == 16 * HexValue(d[..5]) + HexDigitValue(d[5]);
  }

  /** A six-digit colour with no 0x prefix is read as its hexadecimal value. */
  lemma SixDigitParse(hex: string)
    requires |hex| == 7 && forall i :: 1 <= i < 7 ==> IsHexDigit(hex[i])
    ensures ParseInt16(Digits(hex)) == Some(HexValue(hex[1..]))
  {
    var d := hex[1..];
    assert forall i :: 0 <= i < |d| ==> IsHexDigit(d[i]);
    assert d[..2] == [d[0], d[1]];
    ParseInt16Digits(d);
  }

  /** Once parseInt has read a number that fits 31 bits, the components are its bytes. */
  lemma ComponentsOf(hex: string, n: int)
    requires ParseInt16(Digits(hex)) == Some(n) && 0 <= n < TwoTo31
    ensures Components(hex) == Bytes(n)
  {
    SmallInt32(ParseInt16(Digits(hex)), n);
  }

  lemma SmallInt32(v: Option<int>, n: int)
    requires v == Some(n) && 0 <= n < TwoTo31
    ensures ToInt32(v) == n
  {
  }

  /** The bytes of the value of six hexadecimal digits are the values of its three digit pairs. */
  lemma SixDigitBytes(d: string)
    requires |d| == 6 && forall i :: 0 <= i < 6 ==> IsHexDigit(d[i])
    ensures HexValue(d) < 0x100_0000
    ensures Bytes(HexValue(d)) == (16 * HexDigitValue(d[0]) + HexDigitValue(d[1]),
                                   16 * HexDigitValue(d[2]) + HexDigitValue(d[3]),
                                   16 * HexDigitValue(d[4]) + HexDigitValue(d[5]))
  {
    var r, g, b := 16 * HexDigitValue(d[0]) + HexDigitValue(d[1]),
                   16 * HexDigitValue(d[2]) + HexDigitValue(d[3]),
                   16 * HexDigitValue(d[4]) + HexDigitValue(d[5]);
    SixDigitValue(d);
    UnpackPacked(r, g, b);
  }

  /** A six-digit colour's components are the bytes of the number its digits spell. */
  lemma SixDigitRead(hex: string)
    requires |hex| == 7 && forall i :: 1 <= i < 7 ==> IsHexDigit(hex[i])
    ensures Components(hex) == Bytes(HexValue(hex[1..]))
  {
    SixDigitParse(hex);
    SixDigitBound(hex);
    ComponentsOf(hex, HexValue(hex[1..]));
  }

  lemma SixDigitBound(hex: string)
    requires |hex| == 7 && forall i :: 1 <= i < 7 ==> IsHexDigit(hex[i])
    ensures HexValue(hex[1..]) < TwoTo31
  {
    SixDigitBytes(hex[1..]);
  }

  lemma SixDigitBytesOf(hex: string)
    requires |hex| == 7 && forall i :: 1 <= i < 7 ==> IsHexDigit(hex[i])
    ensures Bytes(HexValue(hex[1..])) == (16 * HexDigitValue(hex[1]) + HexDigitValue(hex[2]),
                                          16 * HexDigitValue(hex[3]) + HexDigitValue(hex[4]),
                                          16 * HexDigitValue(hex[5]) + HexDigitValue(hex[6]))
  {
    var d := hex[1..];
    assert forall i :: 0 <= i < |d| ==> IsHexDigit(d[i]);
    assert d[0] == hex[1] && d[1] == hex[2] && d[2] == hex[3];
    assert d[3] == hex[4] && d[4] == hex[5] && d[5] == hex[6];
    SixDigitBytes(d);
  }

  /** A six-digit colour's components are the values of its three digit pairs. */
  lemma SixDigitPacking(hex: string)
    requires |hex| == 7 && forall i :: 1 <= i < 7 ==> IsHexDigit(hex[i])
    ensures Components(hex) == (16 * HexDigitValue(hex[1]) + HexDigitValue(hex[2]),
                                16 * HexDigitValue(hex[3]) + HexDigitValue(hex[4]),
                                16 * HexDigitValue(hex[5]) + HexDigitValue(hex[6]))
  {
    SixDigitRead(hex);
    SixDigitBytesOf(hex);
  }

  /** On a six-digit colour the two parsers agree. */
  lemma AgreesWithHexToRGB(raw: string, hex: string)
    requires Trim(raw) == hex
    requires |hex| == 7 && hex[0] == '#' && forall i :: 1 <= i < 7 ==> IsHexDigit(hex[i])
    ensures var rgb := Components(hex); CssColor.HexToRGB(raw) == [Some(rgb.0), Some(rgb.1), Some(rgb.2)]
  {
    SixDigitPacking(hex);
    CssColor.LongHexColor(raw, hex);
  }

  /** The bytes of the value of three hexadecimal digits: 0, the first digit, and the last two. */
  lemma ThreeDigitBytes(d: string)
    requires |d| == 3 && forall i :: 0 <= i < 3 ==> IsHexDigit(d[i])
    ensures HexValue(d) < 0x1000
    ensures Bytes(HexValue(d)) == (0, HexDigitValue(d[0]), 16 * HexDigitValue(d[1]) + HexDigitValue(d[2]))
  {
    assert HexValue(d[..1]) == HexDigitValue(d[0]) by { assert d[..1][..0] == []; }
    assert HexValue(d[..2]) == 16 * HexValue(d[..1]) + HexDigitValue(d[1]) by { assert d[..2][..1] == d[..1]; }
    assert HexValue(d) == 16 * HexValue(d[..2]) + HexDigitValue(d[2]);
    UnpackPacked(0, HexDigitValue(d[0]), 16 * HexDigitValue(d[1]) + HexDigitValue(d[2]));
  }

  lemma ThreeDigitParse(hex: string)
    requires |hex| == 4 && forall i :: 1 <= i < 4 ==> IsHexDigit(hex[i])
    ensures ParseInt16(Digits(hex)) == Some(HexValue(hex[1..]))
  {
    var d := hex[1..];
    assert forall i :: 0 <= i < |d| ==> IsHexDigit(d[i]);
    assert d[..2] == [d[0], d[1]];
    ParseInt16Digits(d);
  }

  lemma ThreeDigitRead(hex: string)
    requires |hex| == 4 && forall i :: 1 <= i < 4 ==> IsHexDigit(hex[i])
    ensures Components(hex) == Bytes(HexValue(hex[1..]))
  {
    ThreeDigitParse(hex);
    ThreeDigitBytes(hex[1..]);
    ComponentsOf(hex, HexValue(hex[1..]));
  }

  lemma ThreeDigitBytesOf(hex: string)
    requires |hex| == 4 && forall i :: 1 <= i < 4 ==> IsHexDigit(hex[i])
    ensures Bytes(HexValue(hex[1..])) == (0, HexDigitValue(hex[1]), 16 * HexDigitValue(hex[2]) + HexDigitValue(hex[3]))
  {
    var d := hex[1..];
    assert forall i :: 0 <= i < |d| ==> IsHexDigit(d[i]);
    assert d[0] == hex[1] && d[1] == hex[2] && d[2] == hex[3];
    ThreeDigitBytes(d);
  }

  /** Three digits are read as a three-digit number, not expanded: #RGB gives 0, R and GB. */
  lemma ThreeDigitComponents(hex: string)
    requires |hex| == 4 && forall i :: 1 <= i < 4 ==> IsHexDigit(hex[i])
    ensures Components(hex) == (0, HexDigitValue(hex[1]), 16 * HexDigitValue(hex[2]) + HexDigitValue(hex[3]))
  {
    ThreeDigitRead(hex);
    ThreeDigitBytesOf(hex);
  }

  lemma NaNInt32(v: Option<int>)
    requires v.None?
    ensures ToInt32(v) == 0
  {
  }

  /** Text that parseInt cannot read at all becomes black. */
  lemma UnreadableIsBlack(hex: string)
    requires ParseInt16(Digits(hex)).None?
    ensures HexToRgb(hex) == "0, 0, 0"
  {
    NaNInt32(ParseInt16(Digits(hex)));
    assert Components(hex) == Bytes(0) == (0, 0, 0);
    BlackText();
  }

  lemma BlackText()
    ensures RgbText(0, 0, 0) == "0, 0, 0"
  {
    assert NatToString(0) == "0";
  }

  const DefaultColor: string := "#30d5c8"

  lemma DefaultComponents(hex: string)
    requires |hex| == 7 && hex[1] == '3' && hex[2] == '0' && hex[3] == 'd'
    requires hex[4] == '5' && hex[5] == 'c' && hex[6] == '8'
    ensures Components(hex) == (48, 213, 200)
  {
    assert forall i :: 1 <= i < 7 ==> IsHexDigit(hex[i]);
    SixDigitPacking(hex);
  }

  lemma DefaultText()
    ensures RgbText(48, 213, 200) == "48, 213, 200"
  {
    assert NatToString(48) == "48";
    assert NatToString(213) == "213";
    assert NatToString(200) == "200";
  }

  /** The default colour gives "48, 213, 200". */
  lemma DefaultColorRgb()
    ensures HexToRgb(DefaultColor) == "48, 213, 200"
  {
    DefaultComponents(DefaultColor);
    DefaultText();
  }

  lemma ShorthandComponents(hex: string)
    requires hex == "#abc"
    ensures Components(hex) == (0, 10, 188)
  {
    assert hex[1] == 'a' && hex[2] == 'b' && hex[3] == 'c';
    ThreeDigitComponents(hex);
  }

  lemma ShorthandText()
    ensures RgbText(0, 10, 188) == "0, 10, 188"
  {
    assert NatToString(0) == "0";
    assert NatToString(10) == "10";
    assert NatToString(188) == "188";
  }

  /** "#abc" is read as 0xabc by this helper, while HexToRGB expands it. */
  lemma ShorthandDisagrees(raw: string, hex: string)
    requires Trim(raw) == hex && hex == "#abc"
    ensures HexToRgb(hex) == "0, 10, 188"
    ensures CssColor.HexToRGB(raw) == [Some(170), Some(187), Some(204)]
  {
    ShorthandComponents(hex);
    ShorthandText();
    CssColor.ShortHexExample(raw);
  }

  /** The CSS custom properties the colour picker and resetTheme set for a colour. */
  function ThemeProperties(color: string): map<string, string>
  {
    map["--secondary-bg" := color, "--tersiary-text" := color,
        "--hover-effect" := "rgba(" + HexToRgb(color) + ", 0.2)"]
  }

  /** Every colour sets both colour properties to itself and the hover effect to its components at 20% opacity. */
  lemma ThemePropertiesOf(color: string)
    ensures ThemeProperties(color).Keys == {"--secondary-bg", "--tersiary-text", "--hover-effect"}
    ensures ThemeProperties(color)["--secondary-bg"] == color && ThemeProperties(color)["--tersiary-text"] == color
    ensures ThemeProperties(color)["--hover-effect"] == "rgba(" + HexToRgb(color) + ", 0.2)"
  {
  }

  /** resetTheme: the default colour, with a translucent hover effect of the same colour. */
  lemma ResetThemeProperties()
    ensures ThemeProperties(DefaultColor)["--hover-effect"] == "rgba(" + "48, 213, 200" + ", 0.2)"
    ensures ThemeProperties(DefaultColor)["--secondary-bg"] == DefaultColor
  {
    ThemePropertiesOf(DefaultColor);
    DefaultColorRgb();
  }
}
