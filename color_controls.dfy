/** The RGB control panel (src/components/ColorControls.tsx): the `#rrggbb` encoding
    shown in the colour picker, the picker's parser, and the single-channel slider edit. */
module ColorControls {
  import opened Color

  predicate IsHexDigit(c: char) {
    '0' <= c <= '9' || 'a' <= c <= 'f' || 'A' <= c <= 'F'
  }

  predicate IsLowerHexDigit(c: char) {
    '0' <= c <= '9' || 'a' <= c <= 'f'
  }

  predicate AllHexDigits(s: string) {
    forall i :: 0 <= i < |s| ==> IsHexDigit(s[i])
  }

  /** The digit `Number.prototype.toString(16)` writes for 0..15 (lower case). */
  function HexDigit(d: nat): (c: char)
    requires d < 16
    ensures IsLowerHexDigit(c)
  {
    if d < 10 then ('0' as int + d) as char else ('a' as int + (d - 10)) as char
  }

  /** The value `parseInt(_, 16)` gives a single digit of either case. */
  function HexValue(c: char): (v: nat)
    requires IsHexDigit(c)
    ensures v < 16
  {
    if '0' <= c <= '9' then c as int - '0' as int
    else if 'a' <= c <= 'f' then c as int - 'a' as int + 10
    else c as int - 'A' as int + 10
  }

  /** A hex digit folded to lower case. */
  function LowerHex(c: char): (l: char)
    requires IsHexDigit(c)
    ensures IsLowerHexDigit(l)
  {
    if 'A' <= c <= 'F' then (c as int - 'A' as int + 'a' as int) as char else c
  }

  function LowerHexString(s: string): (l: string)
    requires AllHexDigits(s)
    ensures |l| == |s| && forall i :: 0 <= i < |s| ==> l[i] == LowerHex(s[i])
  {
    seq(|s|, i requires 0 <= i < |s| => LowerHex(s[i]))
  }

  lemma DigitValue(d: nat)
    requires d < 16
    ensures HexValue(HexDigit(d)) == d
  {
  }

  lemma ValueDigit(c: char)
    requires IsHexDigit(c)
    ensures HexDigit(HexValue(c)) == LowerHex(c)
  {
  }

  function Pow16(n: nat): (p: nat)
    ensures p >= 1
  {
    if n == 0 then 1 else 16 * Pow16(n - 1)
  }

  /** `parseInt(s, 16)` for a non-empty string of hex digits: the digits read most
      significant first. */
  function ParseHex(s: string): (v: nat)
    requires |s| > 0 && AllHexDigits(s)
    ensures v < Pow16(|s|)
  {
    if |s| == 1 then HexValue(s[0])
    else ParseHex(s[..|s| - 1]) * 16 + HexValue(s[|s| - 1])
  }

  /** `n.toString(16)` for a non-negative integer: base-16 digits, no leading zero. */
  function Base16(n: nat): (s: string)
    ensures |s| > 0 && AllHexDigits(s) && forall i :: 0 <= i < |s| ==> IsLowerHexDigit(s[i])
    ensures ParseHex(s) == n
    ensures n < 16 <==> |s| == 1
  {
    if n < 16 then
      DigitValue(n);
      [HexDigit(n)]
    else
      var high := Base16(n / 16);
      var s := high + [HexDigit(n % 16)];
      assert s[..|s| - 1] == high;
      DigitValue(n % 16);
      s
  }

  /** `s.padStart(width, fill)` with a one-character fill. */
  function PadStart(s: string, width: nat, fill: char): (p: string)
    ensures |p| == if |s| >= width then |s| else width
  {
    if |s| >= width then s else seq(width - |s|, _ => fill) + s
  }

  /** Padding keeps the input as the suffix and puts only fill characters before it. */
  lemma PadStartShape(s: string, width: nat, fill: char)
    ensures PadStart(s, width, fill)[|PadStart(s, width, fill)| - |s|..] == s
    ensures forall i :: 0 <= i < |PadStart(s, width, fill)| - |s| ==> PadStart(s, width, fill)[i] == fill
  {
  }

  /** `x.toString(16).padStart(2, "0")` for an integer channel. */
  function ChannelHex(x: int): (s: string)
    ensures 0 <= x <= 255 ==> s == [HexDigit(x / 16), HexDigit(x % 16)]
  {
    var digits := if x < 0 then "-" + Base16(-x) else Base16(x);
    if 0 <= x < 16 then
      assert digits == [HexDigit(x)];
      PadStart(digits, 2, '0')
    else if 16 <= x <= 255 then
      var high := Base16(x / 16);
      assert high == [HexDigit(x / 16)];
      PadStart(digits, 2, '0')
    else
      PadStart(digits, 2, '0')
  }

  /** `rgbToHex(r, g, b)`: "#" followed by each channel's two-digit code, in r, g, b order. */
  function RgbToHex(c: RGB): (hex: string)
    ensures ValidRgb(c) ==>
      |hex| == 7 && hex[0] == '#' &&
      hex[1] == HexDigit(c.r / 16) && hex[2] == HexDigit(c.r % 16) &&
      hex[3] == HexDigit(c.g / 16) && hex[4] == HexDigit(c.g % 16) &&
      hex[5] == HexDigit(c.b / 16) && hex[6] == HexDigit(c.b % 16)
  {
    "#" + ChannelHex(c.r) + ChannelHex(c.g) + ChannelHex(c.b)
  }

  /** What the picker's handler can parse: the three two-character slices [1,3), [3,5),
      [5,7) are hex digits. The first character is not inspected. */
  predicate IsPickerValue(color: string) {
    |color| >= 7 && forall i :: 1 <= i < 7 ==> IsHexDigit(color[i])
  }

  /** `handleColorPickerChange`: the channels parsed from `color.slice(1,3)`,
      `color.slice(3,5)` and `color.slice(5,7)` in base 16. */
  function ParsePickerValue(color: string): (c: RGB)
    requires IsPickerValue(color)
    ensures ValidRgb(c)
  {
    assert AllHexDigits(color[1..3]) && AllHexDigits(color[3..5]) && AllHexDigits(color[5..7]);
    RGB(ParseHex(color[1..3]), ParseHex(color[3..5]), ParseHex(color[5..7]))
  }

  /** A two-digit code parses to 16 times its first digit plus its second. */
  lemma ParsePair(s: string)
    requires |s| == 2 && AllHexDigits(s)
    ensures ParseHex(s) == HexValue(s[0]) * 16 + HexValue(s[1])
  {
    assert s[..1] == [s[0]];
  }

  /** Parsing what `rgbToHex` produced gives back the channels, for every slider value. */
  lemma {:induction false} PickerRoundTrip(c: RGB)
    requires ValidRgb(c)
    ensures IsPickerValue(RgbToHex(c))
    ensures ParsePickerValue(RgbToHex(c)) == c
  {
    var hex := RgbToHex(c);
    ChannelRoundTrip(hex[1..3], c.r);
    ChannelRoundTrip(hex[3..5], c.g);
    ChannelRoundTrip(hex[5..7], c.b);
  }

  lemma ChannelRoundTrip(s: string, x: int)
    requires 0 <= x <= 255 && s == [HexDigit(x / 16), HexDigit(x % 16)]
    ensures AllHexDigits(s) && ParseHex(s) == x
  {
    ParsePair(s);
    DigitValue(x / 16);
    DigitValue(x % 16);
  }

  /** Re-encoding a parsed picker value `#` + six hex digits gives the same string in
      lower case. */
  lemma {:induction false} ReencodeIsLowerCase(color: string)
    requires IsPickerValue(color) && |color| == 7 && color[0] == '#'
    ensures RgbToHex(ParsePickerValue(color)) == "#" + LowerHexString(color[1..])
  {
    var red, green, blue := color[1..3], color[3..5], color[5..7];
    assert color[1..] == red + green + blue;
    PairReencodes(red);
    PairReencodes(green);
    PairReencodes(blue);
    LowerHexConcat(red, green);
    LowerHexConcat(red + green, blue);
    var c := ParsePickerValue(color);
    assert c == RGB(ParseHex(red), ParseHex(green), ParseHex(blue));
    PrefixRegroups("#", ChannelHex(c.r), ChannelHex(c.g), ChannelHex(c.b));
  }

  /** Concatenation regroups freely. */
  lemma PrefixRegroups(prefix: string, a: string, b: string, c: string)
    ensures prefix + (a + b + c) == prefix + a + b + c
  {
  }

  /** Folding to lower case works character by character. */
  lemma LowerHexConcat(a: string, b: string)
    requires AllHexDigits(a) && AllHexDigits(b)
    ensures AllHexDigits(a + b)
    ensures LowerHexString(a + b) == LowerHexString(a) + LowerHexString(b)
  {
  }

  /** A two-digit code, parsed and written back with `padStart`, comes out in lower case. */
  lemma PairReencodes(s: string)
    requires |s| == 2 && AllHexDigits(s)
    ensures ParseHex(s) <= 255
    ensures ChannelHex(ParseHex(s)) == LowerHexString(s)
  {
    var high, low := HexValue(s[0]), HexValue(s[1]);
    ParsePair(s);
    SplitByte(high, low);
    var x := ParseHex(s);
    assert x / 16 == high && x % 16 == low;
    ValueDigit(s[0]);
    ValueDigit(s[1]);
    assert ChannelHex(x) == [LowerHex(s[0]), LowerHex(s[1])];
    assert LowerHexString(s) == [LowerHex(s[0]), LowerHex(s[1])];
  }

  /** The high and low digits of `16 * high + low`. */
  lemma SplitByte(high: nat, low: nat)
    requires high < 16 && low < 16
    ensures (high * 16 + low) / 16 == high && (high * 16 + low) % 16 == low
  {
  }

  /** `handleSliderChange(index, value)`: copy the triple and overwrite one channel with
      the slider's value. */
  method HandleSliderChange(rgb: RGB, index: nat, value: seq<int>) returns (newRgb: RGB)
    requires index < 3 && |value| >= 1
    ensures forall i :: 0 <= i < 3 ==>
      newRgb.Channel(i) == if i == index then value[0] else rgb.Channel(i)
    ensures ValidRgb(rgb) && InByteRange(value[0]) ==> ValidRgb(newRgb)
  {
    var channels := new int[3];
    channels[0], channels[1], channels[2] := rgb.r, rgb.g, rgb.b;
    channels[index] := value[0];
    newRgb := RGB(channels[0], channels[1], channels[2]);
  }
}
