/** `adjustColor` of js/app.js: lighten or darken a `#RRGGBB` colour by adding the same amount
    to each channel and clamping to 0..255. */
module ColorAdjust {
  import opened Common
  import opened JsNumber

  /** `s.replace(c, '')` with a one-character pattern: only the first occurrence goes. */
  function RemoveFirst(s: string, c: char): (r: string)
    ensures c !in s ==> r == s
    ensures c in s ==> |r| == |s| - 1
  {
    if s == [] then []
    else if s[0] == c then s[1..]
    else [s[0]] + RemoveFirst(s[1..], c)
  }

  /** `s.substr(start, length)` for non-negative arguments. */
  function Substr(s: string, start: nat, length: nat): (r: string)
    ensures |r| == if start >= |s| then 0 else Min(length, |s| - start)
  {
    if start >= |s| then [] else s[start..Min(start + length, |s|)]
  }

  /** `Math.max(0, Math.min(255, v))`. */
  function Clamp(v: int): (r: int)
    ensures 0 <= r <= 255
    ensures 0 <= v <= 255 ==> r == v
    ensures v < 0 ==> r == 0
    ensures v > 255 ==> r == 255
  {
    Max(0, Min(255, v))
  }

  /** One channel: two characters read by `parseInt(·, 16)`, shifted by `amount`, clamped;
      `NaN` when the characters do not start with a hex digit. */
  function Channel(pair: string, amount: int): (c: Option<int>)
    ensures c.Some? ==> 0 <= c.value <= 255
  {
    match ParseInt(pair, Hex)
    case None => None
    case Some(v) => Some(Clamp(v + amount))
  }

  /** `c.toString(16).padStart(2, '0')` (`"NaN"` for `NaN`). */
  function ChannelHex(c: Option<int>): string
    requires c.Some? ==> 0 <= c.value
  {
    match c
    case None => "NaN"
    case Some(v) => PadStart(NatToString(v, 16), 2, '0')
  }

  /** `adjustColor(color, amount)`: the colour without its first `#`, read as red, green and
      blue channels at offsets 0, 2 and 4, each shifted and clamped, written back after a `#`. */
  function AdjustColor(color: string, amount: int): string {
    var hex := RemoveFirst(color, '#');
    var r := Channel(Substr(hex, 0, 2), amount);
    var g := Channel(Substr(hex, 2, 2), amount);
    var b := Channel(Substr(hex, 4, 2), amount);
    "#" + ChannelHex(r) + ChannelHex(g) + ChannelHex(b)
  }

  /** A colour written `#RRGGBB` with hex digits in either case. */
  predicate IsHexColor(s: string) {
    |s| == 7 && s[0] == '#' && forall i :: 1 <= i < 7 ==> IsDigit(s[i], 16)
  }

  /** A `#rrggbb` colour with lower-case hex digits. */
  predicate IsLowerHexColor(s: string) {
    IsHexColor(s) && forall i :: 1 <= i < 7 ==> !('A' <= s[i] <= 'Z')
  }

  /** The value of the channel whose two hex digits start at `k`. */
  function PairValue(s: string, k: nat): nat
    requires k + 1 < |s| && IsDigit(s[k], 16) && IsDigit(s[k + 1], 16)
  {
    16 * CharValue(s[k]) + CharValue(s[k + 1])
  }

  /** ASCII lower-casing. */
  function LowerChar(c: char): char {
    if 'A' <= c <= 'Z' then ((c as int) - ('A' as int) + ('a' as int)) as char else c
  }

  function ToLower(s: string): (r: string)
    ensures |r| == |s| && forall i :: 0 <= i < |s| ==> r[i] == LowerChar(s[i])
  {
    seq(|s|, i requires 0 <= i < |s| => LowerChar(s[i]))
  }

  /** Two hex digits are read by `parseInt(·, 16)` as one byte. */
  lemma ParseHexPair(p: string)
    requires |p| == 2 && IsDigit(p[0], 16) && IsDigit(p[1], 16)
    ensures ParseInt(p, Hex) == Some(PairValue(p, 0))
  {
    DigitIsNoSpace(p[0], 16);
    DigitIsNoSpace(p[1], 16);
    assert TrimStart(p) == p;
    ReadDigitsWhole(p, 16);
    assert p[..1] == [p[0]];
    assert DigitsValue([p[0]], 16) == CharValue(p[0]) by {
      assert [p[0]][..0] == [];
    }
  }

  /** Two lower-case hex digits for a byte, high nibble first. */
  function HexByte(v: int): (s: string)
    requires 0 <= v <= 255
    ensures |s| == 2 && IsDigit(s[0], 16) && IsDigit(s[1], 16)
    ensures !('A' <= s[0] <= 'Z') && !('A' <= s[1] <= 'Z')
  {
    [DigitChar(v / 16), DigitChar(v % 16)]
  }

  /** Reading back the two digits gives the byte. */
  lemma HexByteValue(v: int)
    requires 0 <= v <= 255
    ensures PairValue(HexByte(v), 0) == v
  {
  }

  /** A byte is written as two lower-case hex digits, high nibble first. */
  lemma ChannelHexOfByte(v: int)
    requires 0 <= v <= 255
    ensures ChannelHex(Some(v)) == HexByte(v)
  {
    if v < 16 {
      assert NatToString(v, 16) == [DigitChar(v)];
      assert DigitChar(0) == '0';
    } else {
      DivideByBase(v, 16);
      assert NatToString(v / 16, 16) == [DigitChar(v / 16)];
    }
  }

  /** Without its `#`, a `#RRGGBB` colour is its six digits. */
  lemma RemoveHash(color: string)
    requires IsHexColor(color)
    ensures RemoveFirst(color, '#') == color[1..]
  {
  }

  /** `substr(start, 2)` inside the string is the slice of two characters. */
  lemma SubstrPair(hex: string, start: nat)
    requires start + 2 <= |hex|
    ensures Substr(hex, start, 2) == hex[start..start + 2]
  {
  }

  /** Channel `k` (0 red, 1 green, 2 blue) of a `#RRGGBB` colour, shifted by `amount` and
      clamped. */
  function AdjustedChannel(color: string, amount: int, k: nat): (v: int)
    requires IsHexColor(color) && k < 3
    ensures 0 <= v <= 255
  {
    Clamp(PairValue(color, 1 + 2 * k) + amount)
  }

  /** The input channel at `start` of a `#RRGGBB` colour, shifted and clamped. */
  lemma ChannelOfHexColor(color: string, amount: int, k: nat)
    requires IsHexColor(color) && k < 3
    ensures Channel(Substr(RemoveFirst(color, '#'), 2 * k, 2), amount)
            == Some(AdjustedChannel(color, amount, k))
  {
    var p := Substr(RemoveFirst(color, '#'), 2 * k, 2);
    PairOfHexColor(color, k);
    ChannelOfPair(p, amount);
    assert PairValue(p, 0) == PairValue(color, 1 + 2 * k);
  }

  /** The two characters `substr(2 * k, 2)` takes from a `#RRGGBB` colour without its `#`. */
  lemma PairOfHexColor(color: string, k: nat)
    requires IsHexColor(color) && k < 3
    ensures var p := Substr(RemoveFirst(color, '#'), 2 * k, 2);
            |p| == 2 && p[0] == color[1 + 2 * k] && p[1] == color[2 + 2 * k]
  {
    var hex := RemoveFirst(color, '#');
    RemoveHash(color);
    SubstrPair(hex, 2 * k);
  }

  /** A channel written with two hex digits is their value, shifted and clamped. */
  lemma ChannelOfPair(p: string, amount: int)
    requires |p| == 2 && IsDigit(p[0], 16) && IsDigit(p[1], 16)
    ensures Channel(p, amount) == Some(Clamp(PairValue(p, 0) + amount))
  {
    ParseHexPair(p);
  }

  /** The output digits for the input channel `k`. */
  lemma ChannelHexAt(color: string, amount: int, k: nat)
    requires IsHexColor(color) && k < 3
    ensures ChannelHex(Channel(Substr(RemoveFirst(color, '#'), 2 * k, 2), amount))
            == HexByte(AdjustedChannel(color, amount, k))
  {
    ChannelOfHexColor(color, amount, k);
    ChannelHexOfByte(AdjustedChannel(color, amount, k));
  }

  /** The adjusted colour is `#` and the two digits of each adjusted channel. */
  lemma AdjustColorBytes(color: string, amount: int)
    requires IsHexColor(color)
    ensures AdjustColor(color, amount)
            == "#" + HexByte(AdjustedChannel(color, amount, 0))
               + HexByte(AdjustedChannel(color, amount, 1))
               + HexByte(AdjustedChannel(color, amount, 2))
  {
    ChannelHexAt(color, amount, 0);
    ChannelHexAt(color, amount, 1);
    ChannelHexAt(color, amount, 2);
  }

  /** `#` and the digits of three bytes make a `#rrggbb` colour with those channels. */
  lemma HexBytesColor(v0: int, v1: int, v2: int)
    requires 0 <= v0 <= 255 && 0 <= v1 <= 255 && 0 <= v2 <= 255
    ensures var r := "#" + HexByte(v0) + HexByte(v1) + HexByte(v2);
            IsLowerHexColor(r)
            && PairValue(r, 1) == v0 && PairValue(r, 3) == v1 && PairValue(r, 5) == v2
  {
    var h0, h1, h2 := HexByte(v0), HexByte(v1), HexByte(v2);
    var r := "#" + h0 + h1 + h2;
    assert r == ['#', h0[0], h0[1], h1[0], h1[1], h2[0], h2[1]];
    HexByteValue(v0);
    HexByteValue(v1);
    HexByteValue(v2);
  }

  /** `r` is a `#rrggbb` colour whose every channel is that of `color` plus `amount`, clamped
      to 0..255. */
  predicate ShiftedColor(r: string, color: string, amount: int)
    requires IsHexColor(color)
  {
    && IsLowerHexColor(r)
    && forall k :: 0 <= k < 3 ==>
         PairValue(r, 1 + 2 * k) == Clamp(PairValue(color, 1 + 2 * k) + amount)
  }

  /** Adjusting a `#RRGGBB` colour gives a `#rrggbb` colour whose every channel is the input
      channel plus `amount`, clamped to 0..255. */
  lemma AdjustColorOfHexColor(color: string, amount: int)
    requires IsHexColor(color)
    ensures ShiftedColor(AdjustColor(color, amount), color, amount)
  {
    AdjustColorBytes(color, amount);
    ShiftedFromBytes(AdjustColor(color, amount), color, amount);
  }

  /** `#` and the digits of the three adjusted channels are the shifted colour. */
  lemma ShiftedFromBytes(r: string, color: string, amount: int)
    requires IsHexColor(color)
    requires r == "#" + HexByte(AdjustedChannel(color, amount, 0))
                  + HexByte(AdjustedChannel(color, amount, 1))
                  + HexByte(AdjustedChannel(color, amount, 2))
    ensures ShiftedColor(r, color, amount)
  {
    HexBytesColor(AdjustedChannel(color, amount, 0), AdjustedChannel(color, amount, 1),
                  AdjustedChannel(color, amount, 2));
    forall k | 0 <= k < 3
      ensures PairValue(r, 1 + 2 * k) == Clamp(PairValue(color, 1 + 2 * k) + amount)
    {
      assert k == 0 || k == 1 || k == 2;
    }
  }

  /** A hex digit comes back from `DigitChar` in lower case. */
  lemma DigitCharOfHexDigit(c: char)
    requires IsDigit(c, 16)
    ensures DigitChar(CharValue(c)) == LowerChar(c)
  {
  }

  /** Two pairs of hex digits with the same value have digits of the same values. */
  lemma SamePairValue(s: string, t: string, i: nat, j: nat)
    requires i + 1 < |s| && IsDigit(s[i], 16) && IsDigit(s[i + 1], 16)
    requires j + 1 < |t| && IsDigit(t[j], 16) && IsDigit(t[j + 1], 16)
    requires PairValue(s, i) == PairValue(t, j)
    ensures CharValue(s[i]) == CharValue(t[j]) && CharValue(s[i + 1]) == CharValue(t[j + 1])
  {
  }

  /** A `#rrggbb` colour with the same channel values as a `#RRGGBB` colour is that colour in
      lower case. */
  lemma SameChannelsLower(r: string, color: string)
    requires IsLowerHexColor(r) && IsHexColor(color)
    requires forall k :: 0 <= k < 3 ==> PairValue(r, 1 + 2 * k) == PairValue(color, 1 + 2 * k)
    ensures r == ToLower(color)
  {
    var lower := ToLower(color);
    forall i | 1 <= i < 7 ensures r[i] == lower[i] {
      var k := (i - 1) / 2;
      assert PairValue(r, 1 + 2 * k) == PairValue(color, 1 + 2 * k);
      SamePairValue(r, color, 1 + 2 * k, 1 + 2 * k);
      DigitCharOfHexDigit(color[i]);
      DigitCharOfHexDigit(r[i]);
    }
  }

  /** `adjustColor(c, 0)` of a `#RRGGBB` colour is that colour in lower case. */
  lemma AdjustColorByZero(color: string)
    requires IsHexColor(color)
    ensures AdjustColor(color, 0) == ToLower(color)
  {
    AdjustColorOfHexColor(color, 0);
    SameChannelsLower(AdjustColor(color, 0), color);
  }
}
