/**
 * The colour shift `transformHex(hex, amount)` of scripts/main.js: expand a
 * three-digit shorthand, read three two-character windows as hexadecimal
 * channels, scale each by (1 + amount/100), floor, clamp to [0, 255] and
 * print each channel back as two lower-case hexadecimal digits after a '#'.
 */
module HexColor {

  // ---------------------------------------------------------------- digits

  /** The character class `[a-f\d]` of the shorthand pattern, which carries the `i` flag. */
  predicate IsHexDigit(c: char)
  {
    ('0' <= c <= '9') || ('a' <= c <= 'f') || ('A' <= c <= 'F')
  }

  /** A digit as `Number.prototype.toString(16)` prints it. */
  predicate IsLowerHexDigit(c: char)
  {
    ('0' <= c <= '9') || ('a' <= c <= 'f')
  }

  predicate AllHex(s: string)
  {
    forall i :: 0 <= i < |s| ==> IsHexDigit(s[i])
  }

  function DigitValue(c: char): (v: nat)
    requires IsHexDigit(c)
    ensures v < 16
  {
    if '0' <= c <= '9' then c as int - '0' as int
    else if 'a' <= c <= 'f' then c as int - 'a' as int + 10
    else c as int - 'A' as int + 10
  }

  function LowerDigit(d: nat): (c: char)
    requires d < 16
    ensures IsLowerHexDigit(c) && IsHexDigit(c) && DigitValue(c) == d
  {
    if d < 10 then ('0' as int + d) as char else ('a' as int + d - 10) as char
  }

  /** `parseInt(s, 16)` on a string made only of hexadecimal digits. */
  function ParseHex(s: string): (v: nat)
    requires AllHex(s)
    ensures |s| <= 1 ==> v < 16
    ensures |s| <= 2 ==> v < 256
  {
    if s == [] then 0
    else ParseHex(s[..|s| - 1]) * 16 + DigitValue(s[|s| - 1])
  }

  /** `n.toString(16)`: lower-case digits, no leading zeros, "0" for zero. */
  function ToHex(n: nat): string
  {
    if n < 16 then [LowerDigit(n)] else ToHex(n / 16) + [LowerDigit(n % 16)]
  }

  /** `("00" + s).slice(-2)`: the last two characters after padding with two zeros. */
  function Last2(s: string): string
  {
    var p := "00" + s;
    p[|p| - 2..]
  }

  /** How one channel is printed. */
  function Hex2(v: nat): string
  {
    Last2(ToHex(v))
  }

  // ------------------------------------------------------ the string steps

  /** The match of `/^#?([a-f\d])([a-f\d])([a-f\d])$/i`. */
  predicate IsShorthand(hex: string)
  {
    || (|hex| == 3 && AllHex(hex))
    || (|hex| == 4 && hex[0] == '#' && AllHex(hex[1..]))
  }

  /**
   * The `replace` call: a shorthand input is replaced as a whole, optional
   * '#' included, by `r + r + g + g + b + b`; anything else is kept.
   */
  function Expand(hex: string): string
  {
    if IsShorthand(hex) then
      var d := hex[|hex| - 3..];
      [d[0], d[0], d[1], d[1], d[2], d[2]]
    else hex
  }

  function Min(a: int, b: int): int { if a <= b then a else b }

  /** `s.substring(start, end)`: both ends clamped to the length, swapped when out of order. */
  function Substring(s: string, start: nat, end: nat): string
  {
    var a := Min(start, |s|);
    var b := Min(end, |s|);
    if a <= b then s[a..b] else s[b..a]
  }

  /** The characters the loop reads for channel `i`: `hex.substring(i * 2 + 1, i * 2 + 3)`. */
  function Window(s: string, i: nat): string
  {
    Substring(s, i * 2 + 1, i * 2 + 3)
  }

  /** Every channel window is a non-empty run of hex digits, so `parseInt` never yields NaN. */
  predicate ChannelsParse(s: string)
  {
    forall i :: 0 <= i < 3 ==> Window(s, i) != [] && AllHex(Window(s, i))
  }

  /** `Math.floor(value * (1 + amount / 100))` in exact arithmetic (Euclidean division by 100 is the floor). */
  function Scale(v: int, amount: int): int
  {
    (v * (100 + amount)) / 100
  }

  /** `Math.min(Math.max(0, v), 255)`. */
  function Clamp(v: int): (r: int)
    ensures 0 <= r <= 255
    ensures 0 <= v <= 255 ==> r == v
    ensures v < 0 ==> r == 0
    ensures v > 255 ==> r == 255
  {
    var m := if 0 < v then v else 0;
    if m < 255 then m else 255
  }

  // ---------------------------------------------------- specification

  function Channel(hex: string, amount: int, i: nat): (c: int)
    requires ChannelsParse(Expand(hex)) && i < 3
    ensures 0 <= c <= 255
  {
    Clamp(Scale(ParseHex(Window(Expand(hex), i)), amount))
  }

  /** The three output channel values. */
  function Channels(hex: string, amount: int): (cs: seq<int>)
    requires ChannelsParse(Expand(hex))
    ensures |cs| == 3 && forall i :: 0 <= i < 3 ==> 0 <= cs[i] <= 255
  {
    [Channel(hex, amount, 0), Channel(hex, amount, 1), Channel(hex, amount, 2)]
  }

  predicate InByteRange(cs: seq<int>)
  {
    forall i :: 0 <= i < |cs| ==> 0 <= cs[i] <= 255
  }

  function Format(cs: seq<int>): string
    requires |cs| == 3 && InByteRange(cs)
  {
    "#" + Hex2(cs[0]) + Hex2(cs[1]) + Hex2(cs[2])
  }

  /** A `#rrggbb` colour, digits in either case. */
  predicate IsRgbHex(s: string)
  {
    |s| == 7 && s[0] == '#' && AllHex(s[1..])
  }

  /** A `#rrggbb` colour with lower-case digits only. */
  predicate IsLowerRgbHex(s: string)
  {
    |s| == 7 && s[0] == '#' && forall i :: 1 <= i < 7 ==> IsLowerHexDigit(s[i])
  }

  /** The channel values a `#rrggbb` colour denotes. */
  function Decode(s: string): (cs: seq<int>)
    requires IsRgbHex(s)
    ensures |cs| == 3 && InByteRange(cs)
  {
    assert s[1..3] == s[1..][0..2] && s[3..5] == s[1..][2..4] && s[5..7] == s[1..][4..6];
    [ParseHex(s[1..3]), ParseHex(s[3..5]), ParseHex(s[5..7])]
  }

  // ------------------------------------------------------------ the method

  /** The output after `n` rounds of the loop: '#' followed by the first `n` printed channels. */
  function Printed(hex: string, amount: int, n: nat): string
    requires ChannelsParse(Expand(hex)) && n <= 3
  {
    if n == 0 then "#" else Printed(hex, amount, n - 1) + Hex2(Channel(hex, amount, n - 1))
  }

  /** transformHex: the loop of scripts/main.js builds `color` one channel at a time. */
  method TransformHex(hex: string, amount: int) returns (color: string)
    requires ChannelsParse(Expand(hex))
    ensures IsLowerRgbHex(color) && IsRgbHex(color)
    ensures Decode(color) == Channels(hex, amount)
    ensures color == Format(Channels(hex, amount))
  {
    var h := Expand(hex);
    color := "#";
    for i := 0 to 3
      invariant color == Printed(hex, amount, i)
    {
      var part := Window(h, i);
      var value: int := ParseHex(part);
      value := Scale(value, amount);
      value := Clamp(value);
      color := color + Hex2(value);
    }
    PrintedAll(hex, amount);
  }

  lemma PrintedAll(hex: string, amount: int)
    requires ChannelsParse(Expand(hex))
    ensures Printed(hex, amount, 3) == Format(Channels(hex, amount))
    ensures IsLowerRgbHex(Printed(hex, amount, 3)) && IsRgbHex(Printed(hex, amount, 3))
    ensures Decode(Printed(hex, amount, 3)) == Channels(hex, amount)
  {
    var cs := Channels(hex, amount);
    var a, b, c := Hex2(cs[0]), Hex2(cs[1]), Hex2(cs[2]);
    assert Printed(hex, amount, 1) == "#" + a;
    assert Printed(hex, amount, 2) == "#" + a + b;
    assert Printed(hex, amount, 3) == "#" + a + b + c;
    FormatSpec(cs);
  }

  // ---------------------------------------------------------------- lemmas

  /** Printing one channel gives two lower-case digits that parse back to it. */
  lemma Hex2Spec(v: nat)
    requires v <= 255
    ensures |Hex2(v)| == 2 && AllHex(Hex2(v))
    ensures IsLowerHexDigit(Hex2(v)[0]) && IsLowerHexDigit(Hex2(v)[1])
    ensures ParseHex(Hex2(v)) == v
  {
    if v < 16 {
      assert Hex2(v) == ['0', LowerDigit(v)];
      assert Hex2(v)[..1] == ['0'];
    } else {
      assert ToHex(v / 16) == [LowerDigit(v / 16)];
      assert Hex2(v) == [LowerDigit(v / 16), LowerDigit(v % 16)];
      assert Hex2(v)[..1] == [LowerDigit(v / 16)];
    }
  }

  /** The printed colour is well formed and decodes to the channels it was printed from. */
  lemma FormatSpec(cs: seq<int>)
    requires |cs| == 3 && InByteRange(cs)
    ensures IsLowerRgbHex(Format(cs)) && IsRgbHex(Format(cs))
    ensures Decode(Format(cs)) == cs
  {
    var s := Format(cs);
    Hex2Spec(cs[0]);
    Hex2Spec(cs[1]);
    Hex2Spec(cs[2]);
    assert s[1..3] == Hex2(cs[0]);
    assert s[3..5] == Hex2(cs[1]);
    assert s[5..7] == Hex2(cs[2]);
  }

  /** For a `#rrggbb` input the windows are exactly the three digit pairs. */
  lemma RgbWindows(hex: string)
    requires IsRgbHex(hex)
    ensures Expand(hex) == hex
    ensures Window(hex, 0) == hex[1..3] && Window(hex, 1) == hex[3..5] && Window(hex, 2) == hex[5..7]
    ensures ChannelsParse(Expand(hex))
  {
    assert hex[1..3] == hex[1..][0..2] && hex[3..5] == hex[1..][2..4] && hex[5..7] == hex[1..][4..6];
  }

  /** A shift by zero keeps every channel of a `#rrggbb` colour. */
  lemma ZeroShiftKeepsChannels(hex: string)
    requires IsRgbHex(hex)
    ensures ChannelsParse(Expand(hex)) && Channels(hex, 0) == Decode(hex)
  {
    RgbWindows(hex);
  }

  lemma ScaleMonotone(v: nat, a: int, b: int)
    requires a <= b
    ensures Scale(v, a) <= Scale(v, b)
  {
    assert v * (100 + a) <= v * (100 + b) by {
      assert v * (100 + b) - v * (100 + a) == v * (b - a);
    }
  }

  /** A larger amount never makes any channel smaller. */
  lemma ChannelsMonotoneInAmount(hex: string, a: int, b: int)
    requires ChannelsParse(Expand(hex)) && a <= b
    ensures forall i :: 0 <= i < 3 ==> Channels(hex, a)[i] <= Channels(hex, b)[i]
  {
    forall i | 0 <= i < 3
      ensures Channels(hex, a)[i] <= Channels(hex, b)[i]
    {
      ScaleMonotone(ParseHex(Window(Expand(hex), i)), a, b);
    }
  }

  /** Darkening (a negative amount) never raises a channel of a `#rrggbb` colour. */
  lemma DarkenNeverRaises(hex: string, amount: int)
    requires IsRgbHex(hex) && amount <= 0
    ensures ChannelsParse(Expand(hex))
    ensures forall i :: 0 <= i < 3 ==> Channels(hex, amount)[i] <= Decode(hex)[i]
  {
    ZeroShiftKeepsChannels(hex);
    ChannelsMonotoneInAmount(hex, amount, 0);
  }

  /** Lightening (a positive amount) never lowers a channel, and caps each at 255. */
  lemma LightenNeverLowers(hex: string, amount: int)
    requires IsRgbHex(hex) && amount >= 0
    ensures ChannelsParse(Expand(hex))
    ensures forall i :: 0 <= i < 3 ==> Decode(hex)[i] <= Channels(hex, amount)[i] <= 255
  {
    ZeroShiftKeepsChannels(hex);
    ChannelsMonotoneInAmount(hex, 0, amount);
  }

  /**
   * A shorthand input, with or without '#', loses its '#' in the replacement,
   * so the windows read from index 1 are shifted: "rg", "gb" and "b".
   */
  lemma ShorthandWindows(hex: string)
    requires IsShorthand(hex)
    ensures var d := hex[|hex| - 3..];
      && Window(Expand(hex), 0) == [d[0], d[1]]
      && Window(Expand(hex), 1) == [d[1], d[2]]
      && Window(Expand(hex), 2) == [d[2]]
    ensures ChannelsParse(Expand(hex))
  {
    var d := hex[|hex| - 3..];
    assert Expand(hex) == [d[0], d[0], d[1], d[1], d[2], d[2]];
    assert Expand(hex)[5..6] == [d[2]];
    assert forall k :: 0 <= k < 3 ==> IsHexDigit(d[k]) by {
      if |hex| == 4 {
        assert forall k :: 0 <= k < 3 ==> d[k] == hex[1..][k];
      }
    }
  }

  /** So "#fff" is printed as "#ffff0f", not "#ffffff". */
  lemma ShorthandExample()
    ensures ChannelsParse(Expand("#fff"))
    ensures Channels("#fff", 0) == [255, 255, 15]
    ensures Format(Channels("#fff", 0)) == "#ffff0f"
  {
    ShorthandWindows("#fff");
    assert Window(Expand("#fff"), 0) == "ff" && Window(Expand("#fff"), 1) == "ff";
    assert Window(Expand("#fff"), 2) == "f";
    assert ParseHex("ff") == 255 by { assert "ff"[..1] == "f"; }
    assert Channel("#fff", 0, 0) == 255 && Channel("#fff", 0, 1) == 255;
    assert Channel("#fff", 0, 2) == 15;
    assert Hex2(255) == "ff" by { assert ToHex(255) == "ff"; }
    assert Hex2(15) == "0f" by { assert ToHex(15) == "f"; }
  }

  /** The completed-node fill for the default colour: `transformHex("#6b7280", -30)`. */
  lemma DefaultCompletedFill()
    ensures ChannelsParse(Expand("#6b7280"))
    ensures Channels("#6b7280", -30) == [74, 79, 89]
    ensures Format(Channels("#6b7280", -30)) == "#4a4f59"
  {
    var hex := "#6b7280";
    RgbWindows(hex);
    assert hex[1..3] == "6b" && hex[3..5] == "72" && hex[5..7] == "80";
    assert ParseHex("6b") == 107 by { assert "6b"[..1] == "6"; }
    assert ParseHex("72") == 114 by { assert "72"[..1] == "7"; }
    assert ParseHex("80") == 128 by { assert "80"[..1] == "8"; }
    assert ToHex(74) == "4a" by { assert ToHex(4) == "4"; }
    assert ToHex(79) == "4f" by { assert ToHex(4) == "4"; }
    assert ToHex(89) == "59" by { assert ToHex(5) == "5"; }
  }
}
