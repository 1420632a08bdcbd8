/**
 * The two string-to-number conversions the forms and the importer use:
 * `parseInt(s)` without a radix, and `Number(s)` restricted to plain decimal
 * notation. Floating point is not modelled: a decimal is kept exactly, as an
 * integer scaled by a power of ten.
 */
module JsNumbers {
  import opened Options
  import opened JsStrings

  predicate IsDecimalDigit(c: char) {
    '0' <= c <= '9'
  }

  predicate IsHexDigit(c: char) {
    IsDecimalDigit(c) || 'a' <= c <= 'f' || 'A' <= c <= 'F'
  }

  /** A digit of the given radix (10 or 16), as `parseInt` recognises it. */
  predicate IsDigit(c: char, radix: nat) {
    if radix == 16 then IsHexDigit(c) else IsDecimalDigit(c)
  }

  predicate AllDigits(s: string, radix: nat) {
    forall i | 0 <= i < |s| :: IsDigit(s[i], radix)
  }

  function DigitValue(c: char): (d: nat)
    ensures d < 16
  {
    if IsDecimalDigit(c) then c as int - '0' as int
    else if 'a' <= c <= 'f' then c as int - 'a' as int + 10
    else if 'A' <= c <= 'F' then c as int - 'A' as int + 10
    else 0
  }

  /** The value of a string of digits, most significant first. */
  function Value(ds: string, radix: nat): nat {
    if ds == [] then 0 else Value(ds[..|ds| - 1], radix) * radix + DigitValue(ds[|ds| - 1])
  }

  /** The longest prefix of `s` made of digits of the radix. */
  function DigitPrefix(s: string, radix: nat): (p: string)
    ensures |p| <= |s| && p == s[..|p|]
    ensures AllDigits(p, radix)
    ensures |p| < |s| ==> !IsDigit(s[|p|], radix)
  {
    if s != [] && IsDigit(s[0], radix) then [s[0]] + DigitPrefix(s[1..], radix) else []
  }

  /** Splits an optional leading sign off: (is it `-`, the rest). */
  function SplitSign(s: string): (bool, string) {
    if s != [] && (s[0] == '-' || s[0] == '+') then (s[0] == '-', s[1..]) else (false, s)
  }

  /**
   * `parseInt(s)`: leading white space is skipped, an optional sign is read, a
   * `0x`/`0X` prefix switches to radix 16, and the longest run of digits that
   * follows is the number; with no digits the result is `NaN` (here `None`).
   */
  function ParseInt(s: string): Option<int> {
    var (negative, body) := SplitSign(TrimStart(s));
    ParseDigits(negative, body)
  }

  /** `body` starts with the `0x` or `0X` prefix that selects radix 16. */
  predicate HasHexPrefix(body: string) {
    |body| >= 2 && body[0] == '0' && (body[1] == 'x' || body[1] == 'X')
  }

  /** The unsigned part of `parseInt`: the radix prefix, then the longest run of digits. */
  function ParseDigits(negative: bool, body: string): Option<int> {
    var radix := if HasHexPrefix(body) then 16 else 10;
    var digits := DigitPrefix(if HasHexPrefix(body) then body[2..] else body, radix);
    if digits == [] then None
    else Some(if negative then -(Value(digits, radix) as int) else Value(digits, radix))
  }

  /** A string of digits has a positive value exactly when one of its digits is not `0`. */
  lemma {:induction false} ValuePositiveIff(ds: string, radix: nat)
    requires radix == 10 || radix == 16
    requires AllDigits(ds, radix)
    ensures Value(ds, radix) > 0 <==> exists i | 0 <= i < |ds| :: ds[i] != '0'
    decreases |ds|
  {
    if ds != [] {
      var init := ds[..|ds| - 1];
      ValuePositiveIff(init, radix);
      assert forall i | 0 <= i < |init| :: init[i] == ds[i];
      if exists i | 0 <= i < |ds| :: ds[i] != '0' {
        var i :| 0 <= i < |ds| && ds[i] != '0';
        if i < |init| {
          assert init[i] != '0';
        } else {
          assert DigitValue(ds[|ds| - 1]) > 0;
        }
      }
    }
  }

  /** On a string made only of digits, the longest digit prefix is the whole string. */
  lemma {:induction false} DigitPrefixOfDigits(ds: string, radix: nat)
    requires AllDigits(ds, radix)
    ensures DigitPrefix(ds, radix) == ds
    decreases |ds|
  {
    if ds != [] {
      DigitPrefixOfDigits(ds[1..], radix);
    }
  }

  /** `parseInt` of a run of decimal digits is the value of those digits. */
  lemma ParseIntOfDigits(ds: string)
    requires ds != [] && AllDigits(ds, 10)
    ensures ParseInt(ds) == Some(Value(ds, 10))
  {
    assert TrimStart(ds) == ds by {
      assert !IsSpace(ds[0]);
    }
    assert SplitSign(ds) == (false, ds);
    assert !HasHexPrefix(ds) by {
      if |ds| >= 2 {
        assert IsDigit(ds[1], 10);
      }
    }
    DigitPrefixOfDigits(ds, 10);
  }

  /** Whatever follows a leading minus sign, `parseInt` never yields a positive number. */
  lemma ParseIntNegativeSign(s: string)
    ensures ParseInt("-" + s).Some? ==> ParseInt("-" + s).value <= 0
  {
    assert TrimStart("-" + s) == "-" + s;
    assert SplitSign("-" + s) == (true, s);
  }

  // ---- Number(s) ----

  function Pow10(n: nat): (p: nat)
    ensures p > 0
  {
    if n == 0 then 1 else 10 * Pow10(n - 1)
  }

  /**
   * The result of `Number(s)`: `NaN`, or the exact decimal written with the
   * sign, the digits (the fraction's last) and the number of fraction digits.
   */
  datatype NumValue = NaN | Finite(negative: bool, digits: string, scale: nat) {
    /** The value times `10^scale`. */
    function Scaled(): int
      requires Finite?
    {
      if negative then -(Value(digits, 10) as int) else Value(digits, 10)
    }
    /** `isNaN(x)` */
    predicate IsNaN() { NaN? }
    /** `x < 0` (false for `NaN` and for `-0`) */
    predicate IsNegative() { Finite? && Scaled() < 0 }
    /** `x <= 0` */
    predicate IsNonPositive() { Finite? && Scaled() <= 0 }
    /** `Number.isInteger(x)` */
    predicate IsInteger() { Finite? && Scaled() % Pow10(scale) == 0 }
  }

  /**
   * `Number(s)` on decimal notation: surrounding white space is ignored, the
   * empty string is 0, and otherwise an optional sign, digits and at most one
   * `.` with at least one digit in all are required.
   */
  function ToNumber(s: string): NumValue {
    var t := Trim(s);
    if t == [] then Finite(false, [], 0)
    else
      var (negative, body) := SplitSign(t);
      ParseDecimal(negative, body)
  }

  /** The unsigned decimal part of `Number`: digits with at most one `.` and at least one digit. */
  function ParseDecimal(negative: bool, body: string): NumValue {
    var dot := IndexOf(body, '.');
    var whole := body[..dot];
    var fraction := if dot < |body| then body[dot + 1..] else [];
    if !AllDigits(whole, 10) || !AllDigits(fraction, 10) || |whole| + |fraction| == 0 then NaN
    else Finite(negative, whole + fraction, |fraction|)
  }

  /** The decimal part of a run of digits with no `.`: those digits, with no fraction. */
  lemma ParseDecimalOfDigits(negative: bool, ds: string)
    requires ds != [] && AllDigits(ds, 10)
    ensures ParseDecimal(negative, ds) == Finite(negative, ds, 0)
  {
    assert IndexOf(ds, '.') == |ds|;
    assert ds[..|ds|] + [] == ds;
  }

  /** A run of decimal digits is a number, and an integer one. */
  lemma ToNumberOfDigits(ds: string)
    requires ds != [] && AllDigits(ds, 10)
    ensures ToNumber(ds) == Finite(false, ds, 0)
    ensures ToNumber(ds).Scaled() == Value(ds, 10) && ToNumber(ds).IsInteger()
  {
    assert IsDigit(ds[0], 10) && IsDigit(ds[|ds| - 1], 10);
    TrimOfTight(ds);
    assert SplitSign(ds) == (false, ds);
    ParseDecimalOfDigits(false, ds);
    assert Pow10(0) == 1;
  }

  /** White space alone is the number 0, as `Number("   ")` is. */
  lemma ToNumberOfBlank(s: string)
    requires AllSpace(s)
    ensures ToNumber(s).Finite? && ToNumber(s).Scaled() == 0 && ToNumber(s).IsInteger()
  {
    BlankIffTrimEmpty(s);
  }

  /** The decimal part of a text of digits, a `.` and more digits. */
  lemma ParseDecimalOfFraction(negative: bool, whole: string, fraction: string)
    requires AllDigits(whole, 10) && AllDigits(fraction, 10) && whole != []
    ensures ParseDecimal(negative, whole + "." + fraction)
         == Finite(negative, whole + fraction, |fraction|)
  {
    var s := whole + "." + fraction;
    var dot := IndexOf(s, '.');
    assert s[|whole|] == '.';
    assert forall i | 0 <= i < |whole| :: s[i] == whole[i];
    assert s[..dot] == whole;
    assert s[dot + 1..] == fraction;
  }

  /** Text that neither starts nor ends with white space is its own trim. */
  lemma TrimOfTight(s: string)
    requires s != [] && !IsSpace(s[0]) && !IsSpace(s[|s| - 1])
    ensures Trim(s) == s
  {
    assert TrimStart(s) == s;
  }

  /** Digits, a `.` and more digits make an exact decimal, an integer only when the fraction is zero. */
  lemma ToNumberOfFraction(whole: string, fraction: string)
    requires AllDigits(whole, 10) && AllDigits(fraction, 10) && whole != [] && fraction != []
    ensures ToNumber(whole + "." + fraction) == Finite(false, whole + fraction, |fraction|)
    ensures ToNumber(whole + "." + fraction).Scaled() == Value(whole + fraction, 10)
  {
    var s := whole + "." + fraction;
    assert IsDecimalDigit(whole[0]) && IsDecimalDigit(fraction[|fraction| - 1]);
    assert s[0] == whole[0] && s[|s| - 1] == fraction[|fraction| - 1];
    TrimOfTight(s);
    assert SplitSign(s) == (false, s);
    ParseDecimalOfFraction(false, whole, fraction);
  }

  /** A character other than a digit or a `.` in the unsigned part makes it `NaN`. */
  lemma ParseDecimalOfStrayChar(negative: bool, body: string, j: nat)
    requires j < |body| && !IsDecimalDigit(body[j]) && body[j] != '.'
    ensures ParseDecimal(negative, body).IsNaN()
  {
    var dot := IndexOf(body, '.');
    if j < dot {
      assert body[..dot][j] == body[j];
    } else {
      assert body[dot + 1..][j - dot - 1] == body[j];
    }
  }

  /** A character other than a digit, a `.` or a sign inside the trimmed text makes `Number` yield `NaN`. */
  lemma ToNumberOfStrayChar(s: string, k: nat)
    requires k < |Trim(s)|
    requires var c := Trim(s)[k]; !IsDecimalDigit(c) && c != '.' && c != '-' && c != '+'
    ensures ToNumber(s).IsNaN()
  {
    var t := Trim(s);
    var (negative, body) := SplitSign(t);
    var j := if |body| < |t| then k - 1 else k;
    assert 0 <= j < |body| && body[j] == t[k];
    ParseDecimalOfStrayChar(negative, body, j);
  }

  /** A fraction ending in a digit other than `0` is never an integer. */
  lemma FractionNotInteger(whole: string, fraction: string)
    requires AllDigits(whole, 10) && AllDigits(fraction, 10) && whole != [] && fraction != []
    requires fraction[|fraction| - 1] != '0'
    ensures !ToNumber(whole + "." + fraction).IsInteger()
  {
    var ds := whole + fraction;
    ToNumberOfFraction(whole, fraction);
    assert AllDigits(ds, 10) by {
      forall i | 0 <= i < |ds|
        ensures IsDigit(ds[i], 10)
      {
        if i < |whole| {
          assert ds[i] == whole[i];
        } else {
          assert ds[i] == fraction[i - |whole|];
        }
      }
    }
    assert ds[|ds| - 1] == fraction[|fraction| - 1];
    LastDigitNonZero(ds);
  }

  /** Digits ending in one other than `0` make a value that is no multiple of any positive power of ten. */
  lemma LastDigitNonZero(ds: string)
    requires ds != [] && AllDigits(ds, 10) && ds[|ds| - 1] != '0'
    ensures forall k: nat | k >= 1 :: Value(ds, 10) % Pow10(k) != 0
  {
    var c := ds[|ds| - 1];
    assert IsDigit(c, 10);
    LastDigit(ds);
    forall k: nat | k >= 1
      ensures Value(ds, 10) % Pow10(k) != 0
    {
      NotMultipleOfPow10(Value(ds, 10), k);
    }
  }

  /** The last decimal digit of a value is its last character's digit. */
  lemma LastDigit(ds: string)
    requires ds != []
    ensures Value(ds, 10) % 10 == DigitValue(ds[|ds| - 1]) % 10
  {
  }

  /** A number with a last decimal digit other than 0 is no multiple of a positive power of ten. */
  lemma NotMultipleOfPow10(x: nat, k: nat)
    requires k >= 1 && x % 10 != 0
    ensures x % Pow10(k) != 0
  {
    var p, m := Pow10(k), Pow10(k - 1);
    assert p == 10 * m;
    var q, r := x / p, x % p;
    assert x == p * q + r;
    TenTimes(m, q);
    LastDigitOfShift(m * q, r);
  }

  lemma TenTimes(m: int, q: int)
    ensures (10 * m) * q == 10 * (m * q)
  {
  }

  /** Adding a multiple of ten leaves the last decimal digit alone. */
  lemma LastDigitOfShift(t: int, r: int)
    ensures (10 * t + r) % 10 == r % 10
  {
  }


  /** A minus sign in front of digits that are not all zero gives a negative number. */
  lemma ToNumberOfNegative(ds: string)
    requires ds != [] && AllDigits(ds, 10)
    requires exists i | 0 <= i < |ds| :: ds[i] != '0'
    ensures ToNumber("-" + ds).IsNegative() && ToNumber("-" + ds).IsInteger()
  {
    var s := "-" + ds;
    assert s[|s| - 1] == ds[|ds| - 1] && IsDigit(ds[|ds| - 1], 10);
    TrimOfTight(s);
    assert SplitSign(s) == (true, ds) by {
      assert s[1..] == ds;
    }
    ParseDecimalOfDigits(true, ds);
    ValuePositiveIff(ds, 10);
    assert Pow10(0) == 1;
  }

  /** `parseInt` of a minus sign and a run of decimal digits is the negated value of those digits. */
  lemma ParseIntOfNegativeDigits(ds: string)
    requires ds != [] && AllDigits(ds, 10)
    ensures ParseInt("-" + ds) == Some(-(Value(ds, 10) as int))
  {
    var s := "-" + ds;
    assert TrimStart(s) == s;
    assert SplitSign(s) == (true, ds);
    assert !HasHexPrefix(ds) by {
      if |ds| >= 2 {
        assert IsDigit(ds[1], 10);
      }
    }
    DigitPrefixOfDigits(ds, 10);
  }

  /** Text with no decimal digit anywhere, such as "abc", "" or "-", parses to `NaN`. */
  lemma ParseIntOfWord(s: string)
    requires NoDecimalDigit(s)
    ensures ParseInt(s) == None
  {
    var t := TrimStart(s);
    NoDecimalDigitSuffix(s, |s| - |t|);
    var body := SplitSign(t).1;
    if body != t {
      NoDecimalDigitSuffix(t, 1);
    }
    assert body == [] || !IsDecimalDigit(body[0]);
  }

  predicate NoDecimalDigit(s: string) {
    forall i | 0 <= i < |s| :: !IsDecimalDigit(s[i])
  }

  lemma NoDecimalDigitSuffix(s: string, k: nat)
    requires k <= |s| && NoDecimalDigit(s)
    ensures NoDecimalDigit(s[k..])
  {
    assert forall i | 0 <= i < |s| - k :: s[k..][i] == s[k + i];
  }

  /** The digit prefix stops at the first character that is not a digit. */
  lemma {:induction false} DigitPrefixStops(ds: string, rest: string, radix: nat)
    requires AllDigits(ds, radix) && rest != [] && !IsDigit(rest[0], radix)
    ensures DigitPrefix(ds + rest, radix) == ds
    decreases |ds|
  {
    var s := ds + rest;
    if ds == [] {
      assert s == rest;
    } else {
      assert s[0] == ds[0] && IsDigit(ds[0], radix);
      assert s[1..] == ds[1..] + rest;
      DigitPrefixStops(ds[1..], rest, radix);
      assert [ds[0]] + ds[1..] == ds;
    }
  }

  /** Text starting with a decimal digit has no white space or sign to skip. */
  lemma ParseIntFromDigit(s: string)
    requires s != [] && IsDecimalDigit(s[0])
    ensures ParseInt(s) == ParseDigits(false, s)
  {
    assert TrimStart(s) == s;
    assert SplitSign(s) == (false, s);
  }

  /** Without a hexadecimal prefix, the digits read are those before the first non-digit. */
  lemma ParseDigitsStops(ds: string, rest: string)
    requires ds != [] && AllDigits(ds, 10)
    requires rest != [] && !IsDigit(rest[0], 10)
    requires !HasHexPrefix(ds + rest)
    ensures ParseDigits(false, ds + rest) == Some(Value(ds, 10))
  {
    DigitPrefixStops(ds, rest, 10);
  }

  /** `parseInt` reads decimal digits up to the first character that is not one, as in `parseInt("12abc")`. */
  lemma ParseIntStopsAtNonDigit(ds: string, rest: string)
    requires ds != [] && AllDigits(ds, 10)
    requires rest != [] && !IsDigit(rest[0], 10)
    requires !HasHexPrefix(ds + rest)
    ensures ParseInt(ds + rest) == Some(Value(ds, 10))
  {
    assert (ds + rest)[0] == ds[0] && IsDigit(ds[0], 10);
    ParseIntFromDigit(ds + rest);
    ParseDigitsStops(ds, rest);
  }

  /** A `0x` prefix switches `parseInt` to radix 16: `"0x" + ds` is the hexadecimal value of `ds`. */
  lemma ParseIntHex(ds: string)
    requires ds != [] && AllDigits(ds, 16)
    ensures ParseInt("0x" + ds) == Some(Value(ds, 16))
  {
    var s := "0x" + ds;
    assert TrimStart(s) == s;
    assert SplitSign(s) == (false, s);
    assert HasHexPrefix(s) && s[2..] == ds;
    DigitPrefixOfDigits(ds, 16);
  }
}
