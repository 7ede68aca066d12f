/** The JavaScript number built-ins that the app relies on, restricted to integers:
    `parseInt(s)` and `parseInt(s, 16)`, `String(n)`, `n.toString(16)` and `padStart`.
    `NaN` is `None`. */
module JsNumber {
  import opened Common

  /** The radix argument of `parseInt`: absent (decimal, or hexadecimal after a `0x` prefix)
      or 16. */
  datatype Radix = Decimal | Hex

  /** Characters that `parseInt` skips before the number (ECMAScript WhiteSpace and
      LineTerminator). */
  predicate IsSpace(c: char) {
    c == '\t' || c == '\n' || c == '\U{000B}' || c == '\U{000C}' || c == '\r' || c == ' '
    || c == '\U{00A0}' || c == '\U{1680}' || ('\U{2000}' <= c <= '\U{200A}')
    || c == '\U{2028}' || c == '\U{2029}' || c == '\U{202F}' || c == '\U{205F}'
    || c == '\U{3000}' || c == '\U{FEFF}'
  }

  /** The value of `c` as a digit of radix up to 36 (`0`-`9`, then letters in either case),
      or 36 when it is none. */
  function CharValue(c: char): (v: nat)
    ensures v <= 36
  {
    if '0' <= c <= '9' then (c as int) - ('0' as int)
    else if 'a' <= c <= 'z' then (c as int) - ('a' as int) + 10
    else if 'A' <= c <= 'Z' then (c as int) - ('A' as int) + 10
    else 36
  }

  predicate IsDigit(c: char, base: nat) { CharValue(c) < base }

  /** The lower-case digit for `d`, as `Number.prototype.toString` writes it. */
  function DigitChar(d: nat): (c: char)
    requires d < 16
    ensures CharValue(c) == d
  {
    if d < 10 then ('0' as int + d) as char else ('a' as int + d - 10) as char
  }

  /** `s` without its leading white space. */
  function TrimStart(s: string): (t: string)
  {
    if s != [] && IsSpace(s[0]) then TrimStart(s[1..]) else s
  }

  /** `TrimStart` keeps a suffix of its input that does not start with white space, after
      only white space. */
  lemma {:induction false} TrimStartSuffix(s: string)
    ensures var t := TrimStart(s);
            && |t| <= |s| && t == s[|s| - |t|..]
            && (t == [] || !IsSpace(t[0]))
            && (forall i :: 0 <= i < |s| - |t| ==> IsSpace(s[i]))
  {
    if s != [] && IsSpace(s[0]) {
      TrimStartSuffix(s[1..]);
      var t := TrimStart(s);
      forall i | 0 <= i < |s| - |t| ensures IsSpace(s[i]) {
        if i > 0 {
          assert s[i] == s[1..][i - 1];
        }
      }
    }
  }

  /** Length of the longest prefix of `s` made of digits of `base`. */
  function DigitRun(s: string, base: nat): (n: nat)
    ensures n <= |s|
  {
    if s == [] || !IsDigit(s[0], base) then 0 else 1 + DigitRun(s[1..], base)
  }

  /** `DigitRun` counts the digits before the first character that is not one. */
  lemma {:induction false} DigitRunLongest(s: string, base: nat)
    ensures var n := DigitRun(s, base);
            && (forall i :: 0 <= i < n ==> IsDigit(s[i], base))
            && (n < |s| ==> !IsDigit(s[n], base))
  {
    if s != [] && IsDigit(s[0], base) {
      DigitRunLongest(s[1..], base);
      var n := DigitRun(s, base);
      forall i | 0 <= i < n ensures IsDigit(s[i], base) {
        if i > 0 {
          assert s[i] == s[1..][i - 1];
        }
      }
      if n < |s| {
        assert s[n] == s[1..][n - 1];
      }
    }
  }

  /** The value of a run of digits, most significant first. */
  function DigitsValue(s: string, base: nat): nat
  {
    if s == [] then 0
    else DigitsValue(s[..|s| - 1], base) * base + CharValue(s[|s| - 1])
  }

  /** `parseInt(s)` (radix `Decimal`) and `parseInt(s, 16)` (radix `Hex`): skip leading white
      space, take one optional sign, drop a `0x`/`0X` prefix (which also switches the
      radix-less form to base 16), then read the longest run of digits; `NaN` when that run is
      empty. */
  function ParseInt(s: string, radix: Radix): Option<int> {
    ParseSigned(TrimStart(s), radix)
  }

  /** The sign step of `parseInt`. */
  function ParseSigned(t: string, radix: Radix): Option<int> {
    if t != [] && t[0] == '-' then
      match ParseUnsigned(t[1..], radix)
      case None => None
      case Some(m) => Some(-(m as int))
    else if t != [] && t[0] == '+' then ParseUnsigned(t[1..], radix)
    else ParseUnsigned(t, radix)
  }

  /** The prefix and radix step of `parseInt`. */
  function ParseUnsigned(u: string, radix: Radix): Option<nat> {
    if |u| >= 2 && u[0] == '0' && (u[1] == 'x' || u[1] == 'X') then ReadDigits(u[2..], 16)
    else ReadDigits(u, if radix == Hex then 16 else 10)
  }

  /** The longest run of digits at the start of `v`, `NaN` when there is none. */
  function ReadDigits(v: string, base: nat): Option<nat> {
    var n := DigitRun(v, base);
    if n == 0 then None else Some(DigitsValue(v[..n], base))
  }

  /** A string made only of digits is read whole. */
  lemma {:induction false} ReadDigitsWhole(v: string, base: nat)
    requires v != [] && forall i :: 0 <= i < |v| ==> IsDigit(v[i], base)
    ensures ReadDigits(v, base) == Some(DigitsValue(v, base))
  {
    DigitRunWhole(v, base);
    assert v[..|v|] == v;
  }

  lemma {:induction false} DigitRunWhole(v: string, base: nat)
    requires forall i :: 0 <= i < |v| ==> IsDigit(v[i], base)
    ensures DigitRun(v, base) == |v|
  {
    if v != [] {
      DigitRunWhole(v[1..], base);
    }
  }

  /** A digit of base up to 16 is neither white space nor a sign. */
  lemma DigitIsNoSpace(c: char, base: nat)
    requires base <= 16 && IsDigit(c, base)
    ensures !IsSpace(c) && c != '-' && c != '+' && c != 'x' && c != 'X'
  {
  }

  /** `n.toString(base)` for a non-negative integer: digits without leading zeros. */
  function NatToString(n: nat, base: nat): (s: string)
    requires 2 <= base <= 16
    ensures 1 <= |s|
    decreases n
  {
    if n < base then [DigitChar(n)]
    else
      DivideByBase(n, base);
      NatToString(n / base, base) + [DigitChar(n % base)]
  }

  /** Facts about one division step of `NatToString`. */
  lemma DivideByBase(n: nat, base: nat)
    requires 2 <= base <= n
    ensures 1 <= n / base < n && n % base < base
    ensures n == (n / base) * base + n % base
  {
  }

  /** `NatToString` writes lower-case digits of the base, without a leading zero. */
  lemma {:induction false} NatToStringDigits(n: nat, base: nat)
    requires 2 <= base <= 16
    ensures var s := NatToString(n, base);
            && (forall i :: 0 <= i < |s| ==> IsDigit(s[i], base) && !('A' <= s[i] <= 'Z'))
            && (|s| > 1 ==> s[0] != '0')
    decreases n
  {
    if n >= base {
      DivideByBase(n, base);
      NatToStringDigits(n / base, base);
      var head := NatToString(n / base, base);
      var s := head + [DigitChar(n % base)];
      assert NatToString(n, base) == s;
      forall i | 0 <= i < |s| ensures IsDigit(s[i], base) && !('A' <= s[i] <= 'Z') {
        if i < |head| {
          assert s[i] == head[i];
        }
      }
      assert s[0] == head[0];
      if |head| == 1 {
        assert head == [DigitChar(n / base)];
      }
    }
  }

  /** The magnitude from which `String(x)` switches to exponent notation (`1e+21`). */
  const ExponentLimit: int := 1_000_000_000_000_000_000_000

  /** Whether `String(x)` writes `x` in plain decimal digits: `NaN`, or an integer of magnitude
      below `ExponentLimit`. */
  predicate PlainDecimal(x: Option<int>) {
    x.None? || -ExponentLimit < x.value < ExponentLimit
  }

  /** `String(x)` for `NaN` and for an integer-valued number written in plain decimal digits
      (see `PlainDecimal`). */
  function NumberToString(x: Option<int>): string {
    match x
    case None => "NaN"
    case Some(n) => if n < 0 then "-" + NatToString(-n, 10) else NatToString(n, 10)
  }

  /** `s.padStart(len, fill)` for a one-character fill. */
  function PadStart(s: string, len: nat, fill: char): (r: string)
    ensures |r| == Max(|s|, len)
    ensures r[|r| - |s|..] == s
    ensures forall i :: 0 <= i < |r| - |s| ==> r[i] == fill
  {
    if |s| >= len then s else seq(len - |s|, _ => fill) + s
  }

  /** Reading back the digits that `NatToString` writes gives the number. */
  lemma {:induction false} DigitsValueOfNatToString(n: nat, base: nat)
    requires 2 <= base <= 16
    ensures DigitsValue(NatToString(n, base), base) == n
    decreases n
  {
    var s := NatToString(n, base);
    if n < base {
      assert s == [DigitChar(n)];
      assert DigitsValue(s, base) == DigitsValue([], base) * base + CharValue(DigitChar(n));
    } else {
      DivideByBase(n, base);
      var q, d := n / base, n % base;
      var head := NatToString(q, base);
      assert s == head + [DigitChar(d)];
      assert s[..|s| - 1] == head;
      DigitsValueOfNatToString(q, base);
      calc {
        DigitsValue(s, base);
        DigitsValue(head, base) * base + CharValue(DigitChar(d));
        q * base + d;
        n;
      }
    }
  }

  /** Parsing what `NatToString` writes in base 10 or 16 gives the number back. */
  lemma ParseIntOfNatToString(n: nat, radix: Radix)
    ensures var base := if radix == Hex then 16 else 10;
            ParseUnsigned(NatToString(n, base), radix) == Some(n)
  {
    var base := if radix == Hex then 16 else 10;
    var s := NatToString(n, base);
    NatToStringDigits(n, base);
    if |s| >= 2 {
      DigitIsNoSpace(s[1], base);
    }
    ReadDigitsWhole(s, base);
    DigitsValueOfNatToString(n, base);
  }

  /** `parseInt(String(x))` is `x` for `NaN` and for every integer that `String` writes in
      plain digits: the round trip that `localStorage` settings go through. */
  lemma ParseIntOfNumberToString(x: Option<int>)
    requires PlainDecimal(x)
    ensures ParseInt(NumberToString(x), Decimal) == x
  {
    if x.None? {
      RoundTripNaN(x);
    } else if x.value < 0 {
      RoundTripNegative(x);
    } else {
      RoundTripNonNegative(x);
    }
  }

  lemma RoundTripNaN(x: Option<int>)
    requires x.None?
    ensures ParseInt(NumberToString(x), Decimal) == x
  {
    ParseNaN(NumberToString(x));
  }

  lemma RoundTripNegative(x: Option<int>)
    requires x.Some? && -ExponentLimit < x.value < 0
    ensures ParseInt(NumberToString(x), Decimal) == x
  {
    ParseNegative(NatToString(-x.value, 10), x.value);
  }

  lemma RoundTripNonNegative(x: Option<int>)
    requires x.Some? && 0 <= x.value < ExponentLimit
    ensures ParseInt(NumberToString(x), Decimal) == x
  {
    assert NumberToString(x) == NatToString(x.value, 10);
    ParseNonNegative(x.value);
  }

  lemma ParseNaN(t: string)
    requires t == "NaN"
    ensures ParseInt(t, Decimal) == None
  {
    assert !IsSpace(t[0]);
    assert TrimStart(t) == t;
    assert !IsDigit(t[0], 10);
    assert DigitRun(t, 10) == 0;
    assert ParseUnsigned(t, Decimal) == None;
  }

  /** Nothing to trim before a character that is not white space. */
  lemma TrimStartNoSpace(s: string)
    requires s != [] && !IsSpace(s[0])
    ensures TrimStart(s) == s
  {
  }

  /** A number that starts with a digit is read without sign. */
  lemma ParseDigitsFirst(d: string, m: nat)
    requires d != [] && IsDigit(d[0], 10) && ParseUnsigned(d, Decimal) == Some(m)
    ensures ParseInt(d, Decimal) == Some(m)
  {
    DigitIsNoSpace(d[0], 10);
    TrimStartNoSpace(d);
  }

  /** A `-` followed by a number is read as its negation. */
  lemma ParseMinus(d: string, m: nat)
    requires ParseUnsigned(d, Decimal) == Some(m)
    ensures ParseInt("-" + d, Decimal) == Some(-(m as int))
  {
    var s := "-" + d;
    assert s[0] == '-';
    assert !IsSpace('-');
    TrimStartNoSpace(s);
    assert s[1..] == d;
    assert ParseSigned(s, Decimal) == Some(-(m as int));
  }

  lemma ParseNonNegative(n: nat)
    ensures ParseInt(NatToString(n, 10), Decimal) == Some(n)
  {
    ParseIntOfNatToString(n, Decimal);
    NatToStringDigits(n, 10);
    ParseDigitsFirst(NatToString(n, 10), n);
  }

  /** `-` followed by the digits of `-v` is read as `v`. */
  lemma ParseNegative(d: string, v: int)
    requires v < 0 && d == NatToString(-v, 10)
    ensures ParseInt("-" + d, Decimal) == Some(v)
  {
    ParseIntOfNatToString(-v, Decimal);
    ParseMinus(d, -v);
  }
}
