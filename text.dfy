/**
 * The string primitives of JavaScript that the system relies on, written as
 * functions on `seq<char>`: ASCII character classes, case mapping, `trim`,
 * `startsWith`, `includes`, `split`, decimal formatting of numbers and
 * `Number(string)`.
 */
module Text {
  import opened Wrappers

  // ---------------------------------------------------------------------------
  // Character classes

  predicate IsDigit(c: char) { '0' <= c <= '9' }
  predicate IsLowerAscii(c: char) { 'a' <= c <= 'z' }
  predicate IsUpperAscii(c: char) { 'A' <= c <= 'Z' }

  /** `[A-Za-z0-9]` */
  predicate IsAlnum(c: char) { IsDigit(c) || IsLowerAscii(c) || IsUpperAscii(c) }

  /** `\w` of a regular expression without the `u` flag: `[A-Za-z0-9_]`. */
  predicate IsWordChar(c: char) { IsAlnum(c) || c == '_' }

  /** `[0-9a-f]`, the characters of a lower-case hexadecimal string. */
  predicate IsLowerHex(c: char) { IsDigit(c) || 'a' <= c <= 'f' }

  /**
   * The characters `String.prototype.trim` removes: WhiteSpace and
   * LineTerminator of ECMAScript (section 12.2 and 12.3 of ECMA-262).
   */
  predicate IsJsWhitespace(c: char) {
    c in JsWhitespace || ('\U{2000}' <= c <= '\U{200A}')
  }

  /** The whitespace characters outside the range U+2000..U+200A. */
  const JsWhitespace: set<char> := {' ', '\t', '\n', '\r', '\U{000B}', '\U{000C}', '\U{00A0}', '\U{1680}',
    '\U{2028}', '\U{2029}', '\U{202F}', '\U{205F}', '\U{3000}', '\U{FEFF}'}

  // ---------------------------------------------------------------------------
  // Case mapping (ASCII letters only)

  function LowerChar(c: char): (r: char)
    ensures IsUpperAscii(c) ==> IsLowerAscii(r)
    ensures !IsUpperAscii(c) ==> r == c
    ensures IsAlnum(r) <==> IsAlnum(c)
  {
    if IsUpperAscii(c) then (c as int - 'A' as int + 'a' as int) as char else c
  }

  function UpperChar(c: char): (r: char)
    ensures IsLowerAscii(c) ==> IsUpperAscii(r)
    ensures !IsLowerAscii(c) ==> r == c
    ensures IsWordChar(r) <==> IsWordChar(c)
  {
    if IsLowerAscii(c) then (c as int - 'a' as int + 'A' as int) as char else c
  }

  /** `toLowerCase()`: same length, each character lower-cased on its own. */
  function Lower(s: string): (r: string)
    ensures |r| == |s|
    ensures forall i :: 0 <= i < |s| ==> r[i] == LowerChar(s[i])
  {
    seq(|s|, i requires 0 <= i < |s| => LowerChar(s[i]))
  }

  lemma LowerIdempotent(s: string)
    ensures Lower(Lower(s)) == Lower(s)
  {
  }

  // ---------------------------------------------------------------------------
  // trim()

  function TrimStart(s: string): (r: string)
    ensures |r| <= |s| && r == s[|s| - |r|..]
    ensures r == [] || !IsJsWhitespace(r[0])
    ensures forall i :: 0 <= i < |s| - |r| ==> IsJsWhitespace(s[i])
    decreases |s|
  {
    if s != [] && IsJsWhitespace(s[0]) then TrimStart(s[1..]) else s
  }

  function TrimEnd(s: string): (r: string)
    ensures |r| <= |s| && r == s[..|r|]
    ensures r == [] || !IsJsWhitespace(r[|r| - 1])
    ensures forall i :: |r| <= i < |s| ==> IsJsWhitespace(s[i])
    decreases |s|
  {
    if s != [] && IsJsWhitespace(s[|s| - 1]) then TrimEnd(s[..|s| - 1]) else s
  }

  /** `trim()`: the longest infix that neither starts nor ends with whitespace. */
  function Trim(s: string): (r: string)
    ensures |r| <= |s|
    ensures r == [] || (!IsJsWhitespace(r[0]) && !IsJsWhitespace(r[|r| - 1]))
  {
    TrimEnd(TrimStart(s))
  }

  /** A string is blank when every character is whitespace. */
  predicate AllWhitespace(s: string) {
    forall i :: 0 <= i < |s| ==> IsJsWhitespace(s[i])
  }

  /** `!s.trim()` holds exactly for the strings made only of whitespace. */
  lemma TrimEmptyIff(s: string)
    ensures Trim(s) == [] <==> AllWhitespace(s)
  {
    var t := TrimStart(s);
    assert forall i :: |s| - |t| <= i < |s| ==> s[i] == t[i - (|s| - |t|)];
    if t != [] {
      assert t[0] == s[|s| - |t|];
    }
  }

  lemma TrimStartOfTrimmed(s: string)
    requires s == [] || !IsJsWhitespace(s[0])
    ensures TrimStart(s) == s
  {
  }

  lemma TrimEndOfTrimmed(s: string)
    requires s == [] || !IsJsWhitespace(s[|s| - 1])
    ensures TrimEnd(s) == s
  {
  }

  lemma TrimIdempotent(s: string)
    ensures Trim(Trim(s)) == Trim(s)
  {
    var t := Trim(s);
    TrimStartOfTrimmed(t);
    TrimEndOfTrimmed(t);
  }

  // ---------------------------------------------------------------------------
  // startsWith, includes

  predicate StartsWith(s: string, prefix: string) {
    |prefix| <= |s| && s[..|prefix|] == prefix
  }

  /** `s.includes(sub)`: `sub` occurs in `s` at some position. */
  predicate Contains(s: string, sub: string) {
    exists i :: 0 <= i <= |s| - |sub| && StartsWith(s[i..], sub)
  }

  // ---------------------------------------------------------------------------
  // split(c) and its inverse join(c)

  /** `s.split(c)` for a one-character separator. */
  function Split(s: string, c: char): (parts: seq<string>)
    ensures |parts| >= 1
    ensures forall k, j :: 0 <= k < |parts| && 0 <= j < |parts[k]| ==> parts[k][j] != c
  {
    if s == [] then [""]
    else if s[0] == c then [""] + Split(s[1..], c)
    else
      var rest := Split(s[1..], c);
      [[s[0]] + rest[0]] + rest[1..]
  }

  /** `parts.join(c)` */
  function Join(parts: seq<string>, c: char): string
    requires |parts| >= 1
  {
    if |parts| == 1 then parts[0] else parts[0] + [c] + Join(parts[1..], c)
  }

  /** Joining the fields of a split gives back the original string. */
  lemma {:induction false} JoinSplit(s: string, c: char)
    ensures Join(Split(s, c), c) == s
  {
    if s == [] {
    } else if s[0] == c {
      JoinSplit(s[1..], c);
      assert s == [c] + s[1..];
    } else {
      var rest := Split(s[1..], c);
      JoinSplit(s[1..], c);
      if |rest| == 1 {
        assert s == [s[0]] + s[1..];
      } else {
        assert rest[1..][0] == rest[1];
        assert ([[s[0]] + rest[0]] + rest[1..])[1..] == rest[1..];
        assert s == [s[0]] + (rest[0] + [c] + Join(rest[1..], c));
      }
    }
  }

  /** The characters of `s` before the first `c` (all of `s` when it has none). */
  function TakeUntil(s: string, c: char): (r: string)
    ensures StartsWith(s, r)
    ensures forall j :: 0 <= j < |r| ==> r[j] != c
    ensures |r| < |s| ==> s[|r|] == c
  {
    if s == [] || s[0] == c then [] else [s[0]] + TakeUntil(s[1..], c)
  }

  /** When `word` has no `c`, the text before the first `c` of `word + [c] + rest` is `word`. */
  lemma {:induction false} TakeUntilAfterPrefix(word: string, c: char, rest: string)
    requires forall j :: 0 <= j < |word| ==> word[j] != c
    ensures TakeUntil(word + [c] + rest, c) == word
  {
    if word != [] {
      TakeUntilAfterPrefix(word[1..], c, rest);
      assert (word + [c] + rest)[1..] == word[1..] + [c] + rest;
      assert [word[0]] + word[1..] == word;
    }
  }

  /** The first field of a split is the text before the first separator. */
  /** Text cut at its first `c` determines both the part before and the part after. */
  lemma CutAtFirst(w1: string, w2: string, c: char, x1: string, x2: string)
    requires forall j :: 0 <= j < |w1| ==> w1[j] != c
    requires forall j :: 0 <= j < |w2| ==> w2[j] != c
    requires w1 + [c] + x1 == w2 + [c] + x2
    ensures w1 == w2 && x1 == x2
  {
    TakeUntilAfterPrefix(w1, c, x1);
    TakeUntilAfterPrefix(w2, c, x2);
    assert x1 == (w1 + [c] + x1)[|w1| + 1..];
    assert x2 == (w2 + [c] + x2)[|w2| + 1..];
  }

  lemma {:induction false} SplitFirstField(s: string, c: char)
    ensures Split(s, c)[0] == TakeUntil(s, c)
  {
    if s != [] && s[0] != c {
      SplitFirstField(s[1..], c);
    }
  }

  /** A separator-free prefix becomes the first field, and the rest is split on. */
  lemma {:induction false} SplitAfterPrefix(word: string, c: char, rest: string)
    requires forall j :: 0 <= j < |word| ==> word[j] != c
    ensures Split(word + [c] + rest, c) == [word] + Split(rest, c)
  {
    if word == [] {
      assert word + [c] + rest == [c] + rest;
    } else {
      SplitAfterPrefix(word[1..], c, rest);
      assert (word + [c] + rest)[1..] == word[1..] + [c] + rest;
      assert [word[0]] + word[1..] == word;
    }
  }

  // ---------------------------------------------------------------------------
  // Decimal numbers: template literals `${n}` and `Number(s)`

  function DigitChar(d: nat): (c: char)
    requires d < 10
    ensures IsDigit(c)
  {
    ('0' as int + d) as char
  }

  function DigitValue(c: char): (d: nat)
    requires IsDigit(c)
    ensures d < 10
  {
    c as int - '0' as int
  }

  predicate AllDigits(s: string) {
    forall i :: 0 <= i < |s| ==> IsDigit(s[i])
  }

  /** The decimal spelling of a natural number, as JavaScript prints it. */
  function NatToString(n: nat): (s: string)
    ensures |s| >= 1 && AllDigits(s)
    ensures |s| > 1 ==> s[0] != '0'
  {
    if n < 10 then [DigitChar(n)] else NatToString(n / 10) + [DigitChar(n % 10)]
  }

  /** The value of a string of decimal digits. */
  function DigitsValue(s: string): nat
    requires AllDigits(s)
  {
    if s == [] then 0 else DigitsValue(s[..|s| - 1]) * 10 + DigitValue(s[|s| - 1])
  }

  /** Reading back the decimal spelling of `n` gives `n`. */
  lemma {:induction false} NatToStringRoundTrip(n: nat)
    ensures DigitsValue(NatToString(n)) == n
  {
    if n >= 10 {
      var s := NatToString(n);
      NatToStringRoundTrip(n / 10);
      assert s[..|s| - 1] == NatToString(n / 10);
    }
  }

  lemma NatToStringInjective(m: nat, n: nat)
    requires NatToString(m) == NatToString(n)
    ensures m == n
  {
    NatToStringRoundTrip(m);
    NatToStringRoundTrip(n);
  }

  /** `${i}` for an integer: the digits of its magnitude, after a '-' when negative. */
  function IntToString(i: int): (s: string)
    ensures |s| >= 1
    ensures forall k :: 0 <= k < |s| ==> IsDigit(s[k]) || (k == 0 && s[k] == '-')
    ensures s[0] == '-' <==> i < 0
  {
    if i < 0 then "-" + NatToString(-i) else NatToString(i)
  }

  /** Different integers are spelt differently. */
  lemma IntToStringInjective(a: int, b: int)
    requires IntToString(a) == IntToString(b)
    ensures a == b
  {
    if a < 0 {
      assert IntToString(a)[1..] == NatToString(-a);
      assert IntToString(b)[1..] == NatToString(-b);
      NatToStringInjective(-a, -b);
    } else {
      NatToStringInjective(a, b);
    }
  }

  // ---------------------------------------------------------------------------
  // `Number(s)`: StringToNumber of ECMAScript (section 7.1.4.1.1 of ECMA-262)

  /**
   * A JavaScript number. A finite one is the exact value of the literal it
   * was read from: rounding to the nearest double is not modelled.
   */
  datatype Number = Finite(value: real) | Infinity(negative: bool) | NaN

  predicate IsInteger(x: real) {
    x == x.Floor as real
  }

  /** The integer a number is, when it is one: what an `Int` argument of a Prisma query accepts. */
  function IntegerOf(n: Number): (i: Option<int>)
    ensures i.Some? <==> n.Finite? && IsInteger(n.value)
    ensures i.Some? ==> i.value as real == n.value
  {
    if n.Finite? && IsInteger(n.value) then Some(n.value.Floor) else None
  }

  function Pow10(n: nat): (p: nat)
    ensures p >= 1
  {
    if n == 0 then 1 else 10 * Pow10(n - 1)
  }

  /** Ten to an integer power. */
  function Scale(e: int): (r: real)
    ensures r > 0.0
  {
    if e >= 0 then Pow10(e) as real else 1.0 / Pow10(-e) as real
  }

  /** The value of a digit of base 16 or less, in either case; 16 for any other character. */
  function RadixDigitValue(c: char): (d: nat)
    ensures d <= 16
    ensures IsDigit(c) ==> d == DigitValue(c)
  {
    if IsDigit(c) then DigitValue(c)
    else if 'a' <= c <= 'f' then c as int - 'a' as int + 10
    else if 'A' <= c <= 'F' then c as int - 'A' as int + 10
    else 16
  }

  predicate AllRadixDigits(s: string, radix: nat) {
    forall i :: 0 <= i < |s| ==> RadixDigitValue(s[i]) < radix
  }

  /** The value of a string of digits of the given base. */
  function RadixValue(s: string, radix: nat): nat
    requires AllRadixDigits(s, radix)
  {
    if s == [] then 0 else RadixValue(s[..|s| - 1], radix) * radix + RadixDigitValue(s[|s| - 1])
  }

  /** The base the letter of a prefix `0x`, `0o` or `0b` (either case) announces; 0 for any other character. */
  function RadixOf(c: char): nat {
    if c == 'x' || c == 'X' then 16
    else if c == 'o' || c == 'O' then 8
    else if c == 'b' || c == 'B' then 2
    else 0
  }

  /** The position of the first exponent mark, `e` or `E`; the length when there is none. */
  function ExponentMark(t: string): (k: nat)
    ensures k <= |t|
    ensures k < |t| ==> t[k] == 'e' || t[k] == 'E'
    ensures forall j :: 0 <= j < k ==> t[j] != 'e' && t[j] != 'E'
  {
    if t == [] || t[0] == 'e' || t[0] == 'E' then 0 else 1 + ExponentMark(t[1..])
  }

  /** Decimal digits with at most one `.` and at least one digit: their value. */
  function Mantissa(t: string): (m: Option<real>)
    ensures m.Some? ==> m.value >= 0.0
    ensures t != [] && AllDigits(t) ==> m == Some(DigitsValue(t) as real)
  {
    var whole := TakeUntil(t, '.');
    if |whole| == |t| then
      if t != [] && AllDigits(t) then Some(DigitsValue(t) as real) else None
    else
      var fraction := t[|whole| + 1..];
      if (whole != [] || fraction != []) && AllDigits(whole) && AllDigits(fraction)
      then Some(DecimalValue(whole, fraction))
      else None
  }

  /** The value of `whole.fraction` for two strings of decimal digits. */
  function DecimalValue(whole: string, fraction: string): (v: real)
    requires AllDigits(whole) && AllDigits(fraction)
    ensures v >= 0.0
  {
    DigitsValue(whole) as real + DigitsValue(fraction) as real / Pow10(|fraction|) as real
  }

  /** The exponent after the mark: decimal digits after an optional sign. */
  function Exponent(t: string): Option<int> {
    if t != [] && (t[0] == '+' || t[0] == '-') then
      if |t| > 1 && AllDigits(t[1..]) then Some(if t[0] == '-' then 0 - DigitsValue(t[1..]) else DigitsValue(t[1..]))
      else None
    else if t != [] && AllDigits(t) then Some(DigitsValue(t))
    else None
  }

  /** StrUnsignedDecimalLiteral, after the sign: `Infinity`, or a mantissa and an optional exponent. */
  function UnsignedDecimal(t: string, negative: bool): (n: Number)
    ensures n.Infinity? <==> t == "Infinity"
    ensures n.Infinity? ==> n.negative == negative
    ensures n.Finite? && n.value != 0.0 ==> (n.value < 0.0 <==> negative)
    ensures t != [] && AllDigits(t) ==> n == Finite(if negative then 0.0 - DigitsValue(t) as real else DigitsValue(t) as real)
  {
    if t == "Infinity" then Infinity(negative)
    else
      var k := ExponentMark(t);
      var m := Mantissa(t[..k]);
      var e := if k == |t| then Some(0) else Exponent(t[k + 1..]);
      assert t != [] && AllDigits(t) ==> k == |t| && t[..k] == t && e == Some(0);
      if m.None? || e.None? then NaN
      else
        var v := Scaled(m.value, e.value);
        Finite(if negative then 0.0 - v else v)
  }

  /** A mantissa times ten to the power of its exponent. */
  function Scaled(m: real, e: int): (v: real)
    requires m >= 0.0
    ensures v >= 0.0 && (v == 0.0 <==> m == 0.0)
    ensures e == 0 ==> v == m
  {
    NonNegativeProduct(m, Scale(e));
    m * Scale(e)
  }

  lemma NonNegativeProduct(a: real, b: real)
    requires a >= 0.0 && b > 0.0
    ensures a * b >= 0.0 && (a * b == 0.0 <==> a == 0.0)
  {
  }

  /**
   * StringToNumber on text with no surrounding whitespace: the empty text is
   * 0; otherwise it is a decimal literal (an optional sign, then digits with
   * an optional fraction and exponent, or `Infinity`) or an unsigned `0x`,
   * `0o` or `0b` integer, and anything else is NaN.
   */
  function Numeral(t: string): (n: Number)
    ensures t == [] ==> n == Finite(0.0)
    ensures t != [] && AllDigits(t) ==> n == Finite(DigitsValue(t) as real)
    ensures n.Infinity? <==> t == "Infinity" || t == "+Infinity" || t == "-Infinity"
    ensures n.Infinity? ==> (n.negative <==> t == "-Infinity")
    ensures n.Finite? && n.value < 0.0 ==> t != [] && t[0] == '-'
  {
    if t == [] then Finite(0.0)
    else if |t| > 2 && t[0] == '0' && RadixOf(t[1]) != 0 then
      if AllRadixDigits(t[2..], RadixOf(t[1])) then Finite(RadixValue(t[2..], RadixOf(t[1])) as real) else NaN
    else if t[0] == '+' then
      assert t == "+Infinity" <==> t[1..] == "Infinity";
      UnsignedDecimal(t[1..], false)
    else if t[0] == '-' then
      assert t == "-Infinity" <==> t[1..] == "Infinity";
      UnsignedDecimal(t[1..], true)
    else UnsignedDecimal(t, false)
  }

  /** `Number(s)`: surrounding whitespace is ignored, so blank text is 0. */
  function NumberOf(s: string): (n: Number)
    ensures AllWhitespace(s) ==> n == Finite(0.0)
    ensures n == Numeral(Trim(s))
  {
    TrimEmptyIff(s);
    Numeral(Trim(s))
  }

  /** Text without surrounding whitespace is read as it stands. */
  lemma NumberOfTrimmed(t: string)
    requires t != [] && !IsJsWhitespace(t[0]) && !IsJsWhitespace(t[|t| - 1])
    ensures NumberOf(t) == Numeral(t)
  {
    TrimStartOfTrimmed(t);
    TrimEndOfTrimmed(t);
  }

  /** A non-empty string of decimal digits is read as its value. */
  lemma NumberOfDigits(s: string)
    requires s != [] && AllDigits(s)
    ensures NumberOf(s) == Finite(DigitsValue(s) as real)
  {
    NumberOfTrimmed(s);
  }

  /** Reading `${n}` back with `Number` gives `n`. */
  lemma NumberOfNatToString(n: nat)
    ensures NumberOf(NatToString(n)) == Finite(n as real)
  {
    NumberOfDigits(NatToString(n));
    NatToStringRoundTrip(n);
  }

  /** Reading `${i}` back with `Number` gives `i`, negative numbers included, and it is an integer. */
  lemma NumberOfIntToString(i: int)
    ensures NumberOf(IntToString(i)) == Finite(i as real)
    ensures IntegerOf(NumberOf(IntToString(i))) == Some(i)
  {
    if i < 0 {
      NumberOfNegativeInt(i);
    } else {
      NumberOfNatToString(i);
    }
    IntegerOfInt(i);
  }

  lemma NumberOfNegativeInt(i: int)
    requires i < 0
    ensures NumberOf(IntToString(i)) == Finite(i as real)
  {
    var digits := NatToString(-i);
    assert DigitsValue(digits) == -i by {
      NatToStringRoundTrip(-i);
    }
    assert NumberOf("-" + digits) == Finite(i as real) by {
      NumberOfNegative(digits);
    }
    assert IntToString(i) == "-" + digits;
  }

  /** An integer is a number `IntegerOf` gives back. */
  lemma IntegerOfInt(i: int)
    ensures IntegerOf(Finite(i as real)) == Some(i)
  {
    assert (i as real).Floor == i;
  }

  /** A minus sign and digits are read as the negated value of the digits. */
  lemma NumberOfNegative(digits: string)
    requires digits != [] && AllDigits(digits)
    ensures NumberOf("-" + digits) == Finite(0.0 - DigitsValue(digits) as real)
  {
    var s := "-" + digits;
    assert s[1..] == digits && s[0] == '-' && s[|s| - 1] == digits[|digits| - 1];
    NumberOfTrimmed(s);
  }

  /** Digits, a point and digits are read as a decimal fraction. */
  lemma NumeralOfDecimalFraction(whole: string, fraction: string)
    requires whole != [] && AllDigits(whole) && AllDigits(fraction)
    ensures Numeral(whole + "." + fraction) == Finite(DecimalValue(whole, fraction))
  {
    var t := whole + "." + fraction;
    assert t == whole + ['.'] + fraction;
    assert forall j :: 0 <= j < |t| ==> t[j] == '.' || IsDigit(t[j]);
    assert RadixOf(t[1]) == 0;
    assert Numeral(t) == UnsignedDecimal(t, false);
    assert ExponentMark(t) == |t|;
    assert t[..|t|] == t;
    MantissaOfFraction(whole, fraction);
  }

  lemma MantissaOfFraction(whole: string, fraction: string)
    requires whole != [] && AllDigits(whole) && AllDigits(fraction)
    ensures Mantissa(whole + ['.'] + fraction) == Some(DecimalValue(whole, fraction))
  {
    var t := whole + ['.'] + fraction;
    TakeUntilAfterPrefix(whole, '.', fraction);
    assert t[|whole| + 1..] == fraction;
  }

  /** "1.5" is one and a half, which is no integer. */
  lemma NumberOfHalf()
    ensures NumberOf("1.5") == Finite(1.5) && IntegerOf(NumberOf("1.5")) == None
  {
    assert NumberOf("1.5") == Finite(1.5) by {
      assert "1" + "." + "5" == "1.5";
      NumberOfTrimmed("1.5");
      NumeralOfDecimalFraction("1", "5");
      OneDecimal("5", 5);
    }
    assert (1.5).Floor == 1;
  }

  /** "1.0" is the integer 1, as "1" is. */
  lemma NumberOfPointZero()
    ensures NumberOf("1.0") == Finite(1.0) && IntegerOf(NumberOf("1.0")) == Some(1)
    ensures NumberOf("1") == NumberOf("1.0")
  {
    assert NumberOf("1.0") == Finite(1.0) by {
      assert "1" + "." + "0" == "1.0";
      NumberOfTrimmed("1.0");
      NumeralOfDecimalFraction("1", "0");
      OneDecimal("0", 0);
    }
    IntegerOfInt(1);
    NumberOfOne();
  }

  lemma NumberOfOne()
    ensures NumberOf("1") == Finite(1.0)
  {
    NumberOfDigits("1");
    assert DigitsValue("1") == 1 by { assert "1"[..0] == ""; }
  }

  lemma OneDecimal(fraction: string, d: nat)
    requires d < 10 && fraction == [DigitChar(d)]
    ensures DecimalValue("1", fraction) == 1.0 + d as real / 10.0
  {
    assert "1"[..0] == [] && fraction[..0] == [];
    assert Pow10(1) == 10;
  }
}
