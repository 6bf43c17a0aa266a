/** The JavaScript built-ins the upload server relies on when it builds strings
    and reads its configuration, written as pure functions over `seq<char>`:
    - the regular-expression class `\s`,
    - `String(n)` for an integral number (as in a template literal `${n}`),
    - a template literal `${v}` where `v` may be `undefined`,
    - `parseInt(v)` with no radix argument.
 */
module JsText {

  datatype Option<+T> = None | Some(value: T)

  /** `${v}` for a value that is either a string or `undefined`
      (an environment variable that may be unset). */
  function Interpolate(v: Option<string>): string
  {
    match v
    case None => "undefined"
    case Some(s) => s
  }

  /** The `\s` class of a JavaScript regular expression: the WhiteSpace and
      LineTerminator code points of ECMAScript (tab, line feed, vertical tab,
      form feed, carriage return, space, no-break space, the Unicode space
      separators, line and paragraph separators, and the byte-order mark).
      The same set is what `parseInt` skips at the start of its input. */
  predicate IsWhitespace(c: char)
  {
    var n := c as int;
    (0x09 <= n <= 0x0D) || n == 0x20 || n == 0xA0 || n == 0x1680
    || (0x2000 <= n <= 0x200A) || n == 0x2028 || n == 0x2029 || n == 0x202F
    || n == 0x205F || n == 0x3000 || n == 0xFEFF
  }

  predicate IsDecimalDigit(c: char)
  {
    '0' <= c <= '9'
  }

  /** The value of `c` as a digit in any radix up to 36 (`0`-`9`, then the
      letters in either case), or 36 when `c` is no digit at all. */
  function DigitValue(c: char): (d: nat)
    ensures d <= 36
    ensures d < 10 <==> IsDecimalDigit(c)
  {
    if '0' <= c <= '9' then c as int - '0' as int
    else if 'a' <= c <= 'z' then c as int - 'a' as int + 10
    else if 'A' <= c <= 'Z' then c as int - 'A' as int + 10
    else 36
  }

  predicate IsRadixDigit(c: char, radix: nat)
  {
    DigitValue(c) < radix
  }

  predicate AllRadixDigits(s: string, radix: nat)
  {
    forall i :: 0 <= i < |s| ==> IsRadixDigit(s[i], radix)
  }

  /** The character of decimal digit `d`. */
  function DigitChar(d: nat): (c: char)
    requires d < 10
    ensures IsDecimalDigit(c) && DigitValue(c) == d
  {
    ('0' as int + d) as char
  }

  /** The decimal digits of `n`, most significant first, without leading zeros. */
  function Digits(n: nat): (s: string)
    ensures |s| >= 1
    ensures AllRadixDigits(s, 10)
    ensures s[0] == '0' <==> n == 0
    decreases n
  {
    if n < 10 then [DigitChar(n)] else Digits(n / 10) + [DigitChar(n % 10)]
  }

  /** The number that the digit string `s` denotes in base `radix` (only
      ever applied to a run of digits of that base). */
  function RadixValue(s: string, radix: nat): nat
  {
    if s == [] then 0 else RadixValue(s[..|s| - 1], radix) * radix + DigitValue(s[|s| - 1])
  }

  /** `String(t)` for an integral number `t`: an optional minus sign, then
      the decimal digits of its magnitude. */
  function ToDecimal(t: int): string
  {
    if t < 0 then "-" + Digits(-t) else Digits(t)
  }

  /** `s` with its leading `\s` characters removed (the first step of `parseInt`). */
  function TrimStart(s: string): (r: string)
    ensures r == [] || !IsWhitespace(r[0])
  {
    if s != [] && IsWhitespace(s[0]) then TrimStart(s[1..]) else s
  }

  /** Text that does not start with whitespace is not trimmed. */
  lemma TrimStartKeeps(s: string)
    requires s == [] || !IsWhitespace(s[0])
    ensures TrimStart(s) == s
  {
  }

  /** The length of the longest prefix of `s` made of digits of base `radix`. */
  function DigitPrefixLength(s: string, radix: nat): (k: nat)
    ensures k <= |s|
  {
    if s != [] && IsRadixDigit(s[0], radix) then 1 + DigitPrefixLength(s[1..], radix) else 0
  }

  /** What is trimmed is a run of whitespace at the front, and what is kept
      is the rest of the text. */
  lemma {:induction false} TrimStartSpec(s: string)
    ensures |TrimStart(s)| <= |s| && TrimStart(s) == s[|s| - |TrimStart(s)|..]
    ensures forall i :: 0 <= i < |s| - |TrimStart(s)| ==> IsWhitespace(s[i])
  {
    if s != [] && IsWhitespace(s[0]) {
      TrimStartSpec(s[1..]);
    }
  }

  /** The run that `parseInt` converts is made of digits and ends at the
      first character that is not one. */
  lemma {:induction false} DigitPrefixLengthSpec(s: string, radix: nat)
    ensures AllRadixDigits(s[..DigitPrefixLength(s, radix)], radix)
    ensures DigitPrefixLength(s, radix) < |s| ==> !IsRadixDigit(s[DigitPrefixLength(s, radix)], radix)
  {
    if s != [] && IsRadixDigit(s[0], radix) {
      DigitPrefixLengthSpec(s[1..], radix);
      var k := DigitPrefixLength(s, radix);
      assert s[..k] == [s[0]] + s[1..][..k - 1];
    }
  }

  /** `parseInt(v)` with the radix left out: `None` stands for `NaN`.
      The argument is turned into a string (`undefined` becomes
      `"undefined"`), leading whitespace is skipped and the rest is read as
      a signed number. `-0` is returned as `0`. */
  function ParseInt(v: Option<string>): Option<int>
  {
    ParseSigned(TrimStart(Interpolate(v)))
  }

  /** One optional sign, then a magnitude. */
  function ParseSigned(s: string): Option<int>
  {
    var negative := |s| > 0 && s[0] == '-';
    var unsigned := if |s| > 0 && (s[0] == '-' || s[0] == '+') then s[1..] else s;
    match ParseMagnitude(unsigned)
    case None => None
    case Some(m) => Some(if negative then -m else m)
  }

  /** A `0x`/`0X` prefix switches to base 16 (base 10 otherwise), and the
      longest run of digits that follows is converted; an empty run is `NaN`. */
  function ParseMagnitude(u: string): Option<int>
  {
    var hex := |u| >= 2 && u[0] == '0' && (u[1] == 'x' || u[1] == 'X');
    var radix := if hex then 16 else 10;
    var body := if hex then u[2..] else u;
    var k := DigitPrefixLength(body, radix);
    if k == 0 then None else Some(RadixValue(body[..k], radix))
  }

  // ---------------------------------------------------------------------------
  // Properties

  /** Reading back the decimal digits of `n` gives `n`. */
  lemma {:induction false} DigitsRoundTrip(n: nat)
    ensures RadixValue(Digits(n), 10) == n
    decreases n
  {
    var s := Digits(n);
    if n >= 10 {
      DigitsRoundTrip(n / 10);
      assert s[..|s| - 1] == Digits(n / 10);
    }
  }

  /** `String(t)` determines `t`: it starts with `-` exactly when `t` is
      negative, and every other character of it is a decimal digit. */
  lemma ToDecimalShape(t: int)
    ensures |ToDecimal(t)| >= 1
    ensures ToDecimal(t)[0] == '-' <==> t < 0
    ensures forall i :: 0 < i < |ToDecimal(t)| ==> IsDecimalDigit(ToDecimal(t)[i])
    ensures forall i :: 0 <= i < |ToDecimal(t)| ==> !IsWhitespace(ToDecimal(t)[i])
  {
    var d := Digits(if t < 0 then -t else t);
    assert forall i :: 0 <= i < |d| ==> IsDecimalDigit(d[i]) by {
      forall i | 0 <= i < |d| ensures IsDecimalDigit(d[i]) {
        assert IsRadixDigit(d[i], 10);
      }
    }
  }

  /** Distinct integers have distinct decimal renderings. */
  lemma {:induction false} ToDecimalInjective(a: int, b: int)
    requires ToDecimal(a) == ToDecimal(b)
    ensures a == b
  {
    ToDecimalShape(a);
    ToDecimalShape(b);
    var ma := if a < 0 then -a else a;
    var mb := if b < 0 then -b else b;
    assert (a < 0) == (b < 0);
    assert Digits(ma) == Digits(mb) by {
      if a < 0 {
        assert Digits(ma) == ToDecimal(a)[1..];
        assert Digits(mb) == ToDecimal(b)[1..];
      }
    }
    DigitsRoundTrip(ma);
    DigitsRoundTrip(mb);
  }

  /** Leading whitespace is dropped and nothing after it. */
  lemma {:induction false} TrimStartSkipsWhitespace(ws: string, s: string)
    requires forall i :: 0 <= i < |ws| ==> IsWhitespace(ws[i])
    requires s == [] || !IsWhitespace(s[0])
    ensures TrimStart(ws + s) == s
  {
    if ws != [] {
      assert (ws + s)[1..] == ws[1..] + s;
      TrimStartSkipsWhitespace(ws[1..], s);
    } else {
      assert ws + s == s;
    }
  }

  /** The digit run that `parseInt` reads stops at the first non-digit. */
  lemma {:induction false} DigitPrefixStops(d: string, rest: string, radix: nat)
    requires AllRadixDigits(d, radix)
    requires rest == [] || !IsRadixDigit(rest[0], radix)
    ensures DigitPrefixLength(d + rest, radix) == |d|
  {
    if d != [] {
      assert (d + rest)[1..] == d[1..] + rest;
      assert AllRadixDigits(d[1..], radix) by {
        forall i | 0 <= i < |d[1..]| ensures IsRadixDigit(d[1..][i], radix) {
          assert d[1..][i] == d[i + 1];
        }
      }
      DigitPrefixStops(d[1..], rest, radix);
    } else {
      assert d + rest == rest;
    }
  }

  /** A run of decimal digits that does not begin with `0x` is read in base 10 up to its end. */
  lemma MagnitudeOfDigits(m: nat, rest: string)
    requires rest == [] || (!IsDecimalDigit(rest[0]) && !(m == 0 && (rest[0] == 'x' || rest[0] == 'X')))
    ensures ParseMagnitude(Digits(m) + rest) == Some(m)
  {
    var d := Digits(m);
    var u := d + rest;
    assert !(|u| >= 2 && u[0] == '0' && (u[1] == 'x' || u[1] == 'X'));
    DigitPrefixStops(d, rest, 10);
    assert u[..|d|] == d;
    DigitsRoundTrip(m);
  }

  /** Text that starts with neither a sign nor a decimal digit is `NaN`. */
  lemma SignedNotANumber(s: string)
    requires s == [] || (!IsDecimalDigit(s[0]) && s[0] != '-' && s[0] != '+')
    ensures ParseSigned(s) == None
  {
    assert s == [] || !IsRadixDigit(s[0], 10);
  }

  /** A leading minus sign negates the magnitude that follows it. */
  lemma SignedMinus(u: string)
    ensures ParseSigned("-" + u) == match ParseMagnitude(u) case None => None case Some(m) => Some(-m)
  {
    assert ("-" + u)[0] == '-' && ("-" + u)[1..] == u;
  }

  /** Text that starts with a digit is read as an unsigned magnitude. */
  lemma SignedDigit(u: string)
    requires |u| > 0 && IsDecimalDigit(u[0])
    ensures ParseSigned(u) == ParseMagnitude(u)
  {
  }

  /** `String(n)` followed by `rest` is a sign (for negative `n`) followed
      by the digits of the magnitude and `rest`. */
  lemma RenderingSplits(n: int, rest: string)
    ensures n < 0 ==> ToDecimal(n) + rest == "-" + (Digits(-n) + rest)
    ensures n >= 0 ==> ToDecimal(n) + rest == Digits(n) + rest
  {
  }

  /** A signed decimal rendering is read back as the same integer. */
  lemma SignedOfDecimal(n: int, rest: string)
    requires rest == [] || (!IsDecimalDigit(rest[0]) && !(n == 0 && (rest[0] == 'x' || rest[0] == 'X')))
    ensures ParseSigned(ToDecimal(n) + rest) == Some(n)
  {
    RenderingSplits(n, rest);
    if n < 0 {
      MagnitudeOfDigits(-n, rest);
      SignedMinus(Digits(-n) + rest);
    } else {
      MagnitudeOfDigits(n, rest);
      assert IsRadixDigit(Digits(n)[0], 10);
      SignedDigit(Digits(n) + rest);
    }
  }

  /** `parseInt` reads back `String(n)`, whatever whitespace precedes it and
      whatever follows it, as long as what follows does not continue the
      number: it must not start with a decimal digit, nor (after `0`) with
      `x` or `X`, which would turn `0` into a hexadecimal prefix. */
  lemma ParseIntOfDecimal(ws: string, n: int, rest: string)
    requires forall i :: 0 <= i < |ws| ==> IsWhitespace(ws[i])
    requires rest == [] || (!IsDecimalDigit(rest[0]) && !(n == 0 && (rest[0] == 'x' || rest[0] == 'X')))
    ensures ParseInt(Some(ws + ToDecimal(n) + rest)) == Some(n)
  {
    var t := ToDecimal(n) + rest;
    assert !IsWhitespace(t[0]) by {
      ToDecimalShape(n);
    }
    assert ws + ToDecimal(n) + rest == ws + t;
    TrimStartSkipsWhitespace(ws, t);
    SignedOfDecimal(n, rest);
  }
}
