/** The chart area gradient: a colour "#rrggbb" is decoded into its red,
    green and blue channels and written out as "rgba(r,g,b,a)" at two stops,
    the top one with `alphaTop` and the bottom one with `alphaBottom`. The
    canvas itself is not modelled; a gradient is the list of its stops. */
module Charts {
  import opened Text

  // ---- String pieces ------------------------------------------------------

  /** The index of the first '#' in `s`, or `|s|` when there is none. */
  function HashIndex(s: string): (i: nat)
    ensures i <= |s|
    ensures forall k :: 0 <= k < i ==> s[k] != '#'
    ensures i == |s| || s[i] == '#'
  {
    if s == [] || s[0] == '#' then 0 else 1 + HashIndex(s[1..])
  }

  /** `s.replace("#", "")`: the first '#' removed, the rest untouched. */
  function RemoveFirstHash(s: string): (r: string)
    ensures '#' !in s ==> r == s
    ensures '#' in s ==> r == s[..HashIndex(s)] + s[HashIndex(s) + 1..] && '#' !in s[..HashIndex(s)]
  {
    var i := HashIndex(s);
    if i == |s| then s else s[..i] + s[i + 1..]
  }

  function MinNat(a: nat, b: nat): nat { if a <= b then a else b }

  /** `s.substring(from, to)` for `from <= to`: both ends clamped to the length. */
  function Substring(s: string, from: nat, to: nat): (r: string)
    requires from <= to
    ensures to <= |s| ==> r == s[from..to]
    ensures |s| <= from ==> r == []
  {
    s[MinNat(from, |s|)..MinNat(to, |s|)]
  }

  // ---- parseInt(_, 16) ---------------------------------------------------

  /** A number `parseInt` can produce: NaN, or an integer (-0 is shown as 0,
      as the template string does). */
  datatype Parsed = NaN | Int(value: int)

  predicate IsHexDigit(c: char)
  {
    ('0' <= c <= '9') || ('a' <= c <= 'f') || ('A' <= c <= 'F')
  }

  function HexDigitValue(c: char): (v: nat)
    requires IsHexDigit(c)
    ensures v < 16
  {
    if '0' <= c <= '9' then c as int - '0' as int
    else if 'a' <= c <= 'f' then c as int - 'a' as int + 10
    else c as int - 'A' as int + 10
  }

  /** The length of the run of hex digits `s` starts with. */
  function HexRun(s: string): (n: nat)
    ensures n <= |s|
  {
    if s != [] && IsHexDigit(s[0]) then 1 + HexRun(s[1..]) else 0
  }

  /** The run is made of hex digits and stops at the first other character. */
  lemma {:induction false} HexRunDigits(s: string)
    ensures forall k :: 0 <= k < HexRun(s) ==> IsHexDigit(s[k])
    ensures HexRun(s) == |s| || !IsHexDigit(s[HexRun(s)])
  {
    if s != [] && IsHexDigit(s[0]) {
      HexRunDigits(s[1..]);
    }
  }

  /** The value of a string of hex digits, most significant first. */
  function HexValue(s: string): (v: nat)
    requires forall k :: 0 <= k < |s| ==> IsHexDigit(s[k])
  {
    if s == [] then 0 else 16 * HexValue(s[..|s| - 1]) + HexDigitValue(s[|s| - 1])
  }

  /** `parseInt(s, 16)`: leading white space skipped, an optional sign, an
      optional "0x"/"0X" prefix, then the longest run of hex digits; NaN
      when that run is empty. */
  function ParseHexInt(s: string): (p: Parsed)
  {
    var t := s[LeadingSpaces(s)..];
    var negative := t != [] && t[0] == '-';
    var u := if t != [] && (t[0] == '-' || t[0] == '+') then t[1..] else t;
    var v := if |u| >= 2 && u[0] == '0' && (u[1] == 'x' || u[1] == 'X') then u[2..] else u;
    var n := HexRun(v);
    HexRunDigits(v);
    if n == 0 then NaN
    else
      var m: int := HexValue(v[..n]);
      Int(if negative then -m else m)
  }

  /** A pair of hex digits parses to its value, which lies in 0..255. */
  lemma HexPair(s: string)
    requires |s| == 2 && IsHexDigit(s[0]) && IsHexDigit(s[1])
    ensures ParseHexInt(s) == Int(16 * HexDigitValue(s[0]) + HexDigitValue(s[1]))
    ensures 0 <= ParseHexInt(s).value <= 255
  {
    assert !IsSpace(s[0]);
    assert LeadingSpaces(s) == 0;
    assert s[0..] == s;
    assert s[0] != '-' && s[0] != '+';
    assert s[1] != 'x' && s[1] != 'X';
    assert HexRun(s) == 2 by {
      assert s[1..][1..] == [];
    }
    assert s[..2] == s;
    assert HexValue(s[..1]) == HexDigitValue(s[0]) by {
      assert s[..1][..0] == [];
    }
    assert s[..2][..1] == s[..1];
    assert HexValue(s[..2]) == 16 * HexDigitValue(s[0]) + HexDigitValue(s[1]);
  }

  /** How a parsed channel appears in the template string. */
  function Show(p: Parsed): string
  {
    match p
    case NaN => "NaN"
    case Int(v) => if v < 0 then "-" + NatToString(-v) else NatToString(v)
  }

  // ---- toRGBA and the gradient ----------------------------------------------

  /** The channel read from the two characters of `h` at `i`. */
  function Channel(h: string, i: nat): Parsed
  {
    ParseHexInt(Substring(h, i, i + 2))
  }

  /** The three channels of a colour text, '#' removed. */
  function Channels(hex: string): (Parsed, Parsed, Parsed)
  {
    var h := RemoveFirstHash(hex);
    (Channel(h, 0), Channel(h, 2), Channel(h, 4))
  }

  /** The colour part of the rgba text: everything before the alpha. */
  function ColourPart(hex: string): string
  {
    var (red, green, blue) := Channels(hex);
    "rgba(" + Show(red) + "," + Show(green) + "," + Show(blue) + ","
  }

  /** `toRGBA(hex, a)`. The alpha is taken as the text the number renders to. */
  function ToRGBA(hex: string, alpha: string): string
  {
    ColourPart(hex) + alpha + ")"
  }

  /** The rgba text opens with "rgba(" and ends with the alpha, unchanged,
      and the closing parenthesis. */
  lemma RGBAShape(hex: string, alpha: string)
    ensures var r := ToRGBA(hex, alpha);
      |r| >= |alpha| + 6 && r[..5] == "rgba(" && r[|r| - 1] == ')' && r[|r| - 1 - |alpha|..|r| - 1] == alpha
  {
    ColourPrefix(hex);
    ShapeAround(ColourPart(hex), alpha);
  }

  /** The colour part opens with "rgba(". */
  lemma ColourPrefix(hex: string)
    ensures |ColourPart(hex)| >= 5 && ColourPart(hex)[..5] == "rgba("
  {
    var ch := Channels(hex);
    OpensWithRGBA(Show(ch.0), Show(ch.1), Show(ch.2));
  }

  lemma OpensWithRGBA(a: string, b: string, c: string)
    ensures var t := "rgba(" + a + "," + b + "," + c + ","; |t| >= 5 && t[..5] == "rgba("
  {
  }

  /** A text opening with "rgba(", followed by the alpha and ')'. */
  lemma ShapeAround(c: string, alpha: string)
    requires |c| >= 5 && c[..5] == "rgba("
    ensures var r := c + alpha + ")";
      |r| >= |alpha| + 6 && r[..5] == "rgba(" && r[|r| - 1] == ')' && r[|r| - 1 - |alpha|..|r| - 1] == alpha
  {
    var r := c + alpha + ")";
    assert r[..5] == c[..5];
    assert r[|c|..|c| + |alpha|] == alpha;
  }

  /** One colour stop: its offset (0 at the top, 1 at the bottom) and colour. */
  datatype Stop = Stop(offset: int, color: string)

  /** `makeAreaGradient`: the stops it adds, in order. */
  function AreaGradient(colorHex: string, alphaTop: string, alphaBottom: string): (stops: seq<Stop>)
    ensures |stops| == 2
    ensures stops[0].offset == 0 && stops[1].offset == 1
  {
    [Stop(0, ToRGBA(colorHex, alphaTop)), Stop(1, ToRGBA(colorHex, alphaBottom))]
  }

  /** Both stops carry the same colour text and differ only in their alpha:
      the top one the top alpha, the bottom one the bottom alpha. */
  lemma StopsShareColour(colorHex: string, alphaTop: string, alphaBottom: string)
    ensures var stops := AreaGradient(colorHex, alphaTop, alphaBottom);
      var top := stops[0].color;
      var bottom := stops[1].color;
      && top[..|top| - 1 - |alphaTop|] == bottom[..|bottom| - 1 - |alphaBottom|]
      && top == ColourPart(colorHex) + alphaTop + ")"
      && bottom == ColourPart(colorHex) + alphaBottom + ")"
  {
    var c := ColourPart(colorHex);
    AlphaSuffix(c, alphaTop);
    AlphaSuffix(c, alphaBottom);
  }

  /** Dropping the alpha and the closing parenthesis leaves the colour part. */
  lemma AlphaSuffix(c: string, alpha: string)
    ensures var r := c + alpha + ")"; r[..|r| - 1 - |alpha|] == c
  {
    var r := c + alpha + ")";
    assert |r| - 1 - |alpha| == |c|;
    assert r[..|c|] == c;
  }

  // ---- The round trip ---------------------------------------------------------

  function HexDigitChar(d: nat): (c: char)
    requires d < 16
    ensures IsHexDigit(c) && HexDigitValue(c) == d
  {
    if d < 10 then ('0' as int + d) as char else ('a' as int + d - 10) as char
  }

  /** A channel value as two lower-case hex digits. */
  function Hex2(v: nat): (s: string)
    requires v <= 255
    ensures |s| == 2 && IsHexDigit(s[0]) && IsHexDigit(s[1])
    ensures 16 * HexDigitValue(s[0]) + HexDigitValue(s[1]) == v
  {
    [HexDigitChar(v / 16), HexDigitChar(v % 16)]
  }

  /** A leading '#' is the one removed. */
  lemma LeadingHash(h: string)
    ensures RemoveFirstHash("#" + h) == h
  {
    assert HashIndex("#" + h) == 0;
    assert ("#" + h)[..0] + ("#" + h)[1..] == h;
  }

  /** A channel value a colour can carry. */
  predicate IsByte(p: Parsed)
  {
    p.Int? && 0 <= p.value <= 255
  }

  /** The two hex digits at `i` parse to their value. */
  lemma PairAt(h: string, i: nat, v: nat)
    requires i + 2 <= |h| && IsHexDigit(h[i]) && IsHexDigit(h[i + 1])
    requires 16 * HexDigitValue(h[i]) + HexDigitValue(h[i + 1]) == v
    ensures Channel(h, i) == Int(v)
  {
    HexPair(h[i..i + 2]);
  }

  /** Behind a leading '#', the channels are read from the text after it. */
  lemma ChannelsAfterHash(h: string)
    ensures Channels("#" + h) == (Channel(h, 0), Channel(h, 2), Channel(h, 4))
  {
    LeadingHash(h);
  }

  // The three lemmas below each project one channel out of ChannelsAfterHash.
  // They are kept apart so that RedChannel, GreenChannel and BlueChannel, and
  // their callers, see one small fact each rather than the whole triple, which
  // keeps those proofs cheap.

  lemma RedAfterHash(h: string)
    ensures Channels("#" + h).0 == Channel(h, 0)
  {
    ChannelsAfterHash(h);
  }

  lemma GreenAfterHash(h: string)
    ensures Channels("#" + h).1 == Channel(h, 2)
  {
    ChannelsAfterHash(h);
  }

  lemma BlueAfterHash(h: string)
    ensures Channels("#" + h).2 == Channel(h, 4)
  {
    ChannelsAfterHash(h);
  }

  /** The red channel is read from the first two characters after the '#'. */
  lemma RedChannel(h: string, red: nat)
    requires Channel(h, 0) == Int(red)
    ensures Channels("#" + h).0 == Int(red)
  {
    RedAfterHash(h);
  }

  /** The green channel is read from the third and fourth characters. */
  lemma GreenChannel(h: string, green: nat)
    requires Channel(h, 2) == Int(green)
    ensures Channels("#" + h).1 == Int(green)
  {
    GreenAfterHash(h);
  }

  /** The blue channel is read from the fifth and sixth characters. */
  lemma BlueChannel(h: string, blue: nat)
    requires Channel(h, 4) == Int(blue)
    ensures Channels("#" + h).2 == Int(blue)
  {
    BlueAfterHash(h);
  }

  /** Any six hex digits after the '#' decode to three channels in 0..255. */
  lemma SixDigitsInRange(h: string)
    requires |h| == 6
    requires IsHexDigit(h[0]) && IsHexDigit(h[1]) && IsHexDigit(h[2])
    requires IsHexDigit(h[3]) && IsHexDigit(h[4]) && IsHexDigit(h[5])
    ensures IsByte(Channels("#" + h).0) && IsByte(Channels("#" + h).1) && IsByte(Channels("#" + h).2)
  {
    var red, green, blue := 16 * HexDigitValue(h[0]) + HexDigitValue(h[1]),
      16 * HexDigitValue(h[2]) + HexDigitValue(h[3]), 16 * HexDigitValue(h[4]) + HexDigitValue(h[5]);
    ThreePairs(h, red, green, blue);
    ChannelsAre(h, red, green, blue);
  }

  /** Six hex digits hold three channel values, two digits each. */
  lemma ThreePairs(h: string, red: nat, green: nat, blue: nat)
    requires |h| == 6
    requires IsHexDigit(h[0]) && IsHexDigit(h[1]) && IsHexDigit(h[2])
    requires IsHexDigit(h[3]) && IsHexDigit(h[4]) && IsHexDigit(h[5])
    requires 16 * HexDigitValue(h[0]) + HexDigitValue(h[1]) == red
    requires 16 * HexDigitValue(h[2]) + HexDigitValue(h[3]) == green
    requires 16 * HexDigitValue(h[4]) + HexDigitValue(h[5]) == blue
    ensures Channel(h, 0) == Int(red) && Channel(h, 2) == Int(green) && Channel(h, 4) == Int(blue)
  {
    PairAt(h, 0, red);
    PairAt(h, 2, green);
    PairAt(h, 4, blue);
  }

  /** Channels that parse to numbers behind a '#'. */
  lemma ChannelsAre(h: string, red: nat, green: nat, blue: nat)
    requires Channel(h, 0) == Int(red) && Channel(h, 2) == Int(green) && Channel(h, 4) == Int(blue)
    ensures Channels("#" + h).0 == Int(red) && Channels("#" + h).1 == Int(green) && Channels("#" + h).2 == Int(blue)
  {
    RedChannel(h, red);
    GreenChannel(h, green);
    BlueChannel(h, blue);
  }

  /** The six digits that write three channel values. */
  lemma HexTriple(red: nat, green: nat, blue: nat) returns (h: string)
    requires red <= 255 && green <= 255 && blue <= 255
    ensures "#" + Hex2(red) + Hex2(green) + Hex2(blue) == "#" + h
    ensures |h| == 6
    ensures IsHexDigit(h[0]) && IsHexDigit(h[1]) && IsHexDigit(h[2])
    ensures IsHexDigit(h[3]) && IsHexDigit(h[4]) && IsHexDigit(h[5])
    ensures 16 * HexDigitValue(h[0]) + HexDigitValue(h[1]) == red
    ensures 16 * HexDigitValue(h[2]) + HexDigitValue(h[3]) == green
    ensures 16 * HexDigitValue(h[4]) + HexDigitValue(h[5]) == blue
  {
    var r, g, b := Hex2(red), Hex2(green), Hex2(blue);
    h := r + g + b;
    assert h[0] == r[0] && h[1] == r[1] && h[2] == g[0] && h[3] == g[1] && h[4] == b[0] && h[5] == b[1];
  }

  /** Three channels that parse to numbers print as those numbers. */
  lemma ColourOfBytes(hex: string, red: nat, green: nat, blue: nat)
    requires Channels(hex).0 == Int(red) && Channels(hex).1 == Int(green) && Channels(hex).2 == Int(blue)
    ensures ColourPart(hex) == "rgba(" + NatToString(red) + "," + NatToString(green) + "," + NatToString(blue) + ","
  {
  }

  /** Six hex digits of the three values print as those values. */
  lemma DigitsToRGBA(h: string, alpha: string, red: nat, green: nat, blue: nat)
    requires |h| == 6
    requires IsHexDigit(h[0]) && IsHexDigit(h[1]) && IsHexDigit(h[2])
    requires IsHexDigit(h[3]) && IsHexDigit(h[4]) && IsHexDigit(h[5])
    requires 16 * HexDigitValue(h[0]) + HexDigitValue(h[1]) == red
    requires 16 * HexDigitValue(h[2]) + HexDigitValue(h[3]) == green
    requires 16 * HexDigitValue(h[4]) + HexDigitValue(h[5]) == blue
    ensures ToRGBA("#" + h, alpha)
         == "rgba(" + NatToString(red) + "," + NatToString(green) + "," + NatToString(blue) + "," + alpha + ")"
  {
    ThreePairs(h, red, green, blue);
    ChannelsToRGBA(h, alpha, red, green, blue);
  }

  /** Channels that parse to numbers print as those numbers. */
  lemma ChannelsToRGBA(h: string, alpha: string, red: nat, green: nat, blue: nat)
    requires Channel(h, 0) == Int(red) && Channel(h, 2) == Int(green) && Channel(h, 4) == Int(blue)
    ensures ToRGBA("#" + h, alpha)
         == "rgba(" + NatToString(red) + "," + NatToString(green) + "," + NatToString(blue) + "," + alpha + ")"
  {
    ChannelsAre(h, red, green, blue);
    ColourOfBytes("#" + h, red, green, blue);
  }

  /** A colour written as "#" and three two-digit channels comes back as
      those three numbers. */
  lemma RoundTrip(red: nat, green: nat, blue: nat, alpha: string)
    requires red <= 255 && green <= 255 && blue <= 255
    ensures ToRGBA("#" + Hex2(red) + Hex2(green) + Hex2(blue), alpha)
         == "rgba(" + NatToString(red) + "," + NatToString(green) + "," + NatToString(blue) + "," + alpha + ")"
  {
    var h := HexTriple(red, green, blue);
    DigitsToRGBA(h, alpha, red, green, blue);
  }
}
