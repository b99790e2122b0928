/**
 * The pieces of the Arduino `String` class and of the C library that the Zaber
 * ASCII codec relies on: `substring`, `toInt` (which is `atol`), `trim`,
 * `startsWith` and the decimal rendering done by `String(long)`.
 * Strings are sequences of characters; lengths are unbounded.
 */
module ArduinoString {

  /** The characters C's `isspace` accepts in the "C" locale. */
  predicate IsSpace(c: char) {
    c == ' ' || c == '\t' || c == '\n' || c == '\U{B}' || c == '\U{C}' || c == '\r'
  }

  predicate IsDigit(c: char) {
    '0' <= c <= '9'
  }

  predicate AllDigits(s: string) {
    forall i :: 0 <= i < |s| ==> IsDigit(s[i])
  }

  function DigitValue(c: char): (d: nat)
    requires IsDigit(c)
    ensures d < 10
  {
    c as int - '0' as int
  }

  function DigitChar(d: nat): (c: char)
    requires d < 10
    ensures IsDigit(c) && DigitValue(c) == d
  {
    ('0' as int + d) as char
  }

  function Min(a: nat, b: nat): nat { if a <= b then a else b }

  /**
   * `String::substring(left, right)`: the arguments are swapped when
   * left > right, the result is empty when the (smaller) left index is at or
   * past the end, and the right index is clamped to the length.
   */
  function Substring(s: string, left: nat, right: nat): (r: string)
    ensures |r| <= |s|
    ensures left <= right <= |s| ==> r == s[left..right]
    ensures right < left <= |s| ==> r == s[right..left]
    ensures left <= right && left < |s| < right ==> r == s[left..]
    ensures right < left && right < |s| < left ==> r == s[right..]
    ensures Min(left, right) >= |s| ==> r == []
  {
    var lo := if left > right then right else left;
    var hi := if left > right then left else right;
    if lo >= |s| then [] else s[lo..Min(hi, |s|)]
  }

  /** `String::startsWith(prefix)`. */
  predicate StartsWith(s: string, prefix: string) {
    |prefix| <= |s| && s[..|prefix|] == prefix
  }

  /** `startsWith` holds exactly when the string is the prefix followed by something. */
  lemma StartsWithPrefix(s: string, prefix: string, t: string)
    ensures StartsWith(s, prefix) <==> |prefix| <= |s| && s == prefix + s[|prefix|..]
    ensures StartsWith(prefix + t, prefix)
  {
    assert (prefix + t)[..|prefix|] == prefix;
    if |prefix| <= |s| && s == prefix + s[|prefix|..] {
      assert s[..|prefix|] == prefix;
    }
  }

  /** Drops the leading run of white space, as `atol` and `String::trim` both do. */
  function SkipSpace(s: string): (r: string)
    ensures |r| <= |s| && r == s[|s| - |r|..]
    ensures r == [] || !IsSpace(r[0])
    ensures forall i :: 0 <= i < |s| - |r| ==> IsSpace(s[i])
  {
    if s != [] && IsSpace(s[0]) then SkipSpace(s[1..]) else s
  }

  /** Drops the trailing run of white space, the second half of `String::trim`. */
  function SkipTrailingSpace(s: string): (r: string)
    ensures |r| <= |s| && r == s[..|r|]
    ensures r == [] || !IsSpace(r[|r| - 1])
    ensures forall i :: |r| <= i < |s| ==> IsSpace(s[i])
  {
    if s != [] && IsSpace(s[|s| - 1]) then SkipTrailingSpace(s[..|s| - 1]) else s
  }

  /** `String::trim()`: removes leading and trailing white space, nothing inside. */
  function Trim(s: string): (r: string)
    ensures exists i, j :: (0 <= i <= j <= |s| && r == s[i..j]
      && (forall k :: 0 <= k < i ==> IsSpace(s[k]))
      && (forall k :: j <= k < |s| ==> IsSpace(s[k])))
    ensures r == [] || (!IsSpace(r[0]) && !IsSpace(r[|r| - 1]))
  {
    var t := SkipSpace(s);
    var r := SkipTrailingSpace(t);
    TrimIsSlice(s, t, r);
    r
  }

  /** Cutting a white-space prefix and then a white-space suffix leaves a slice. */
  lemma TrimIsSlice(s: string, t: string, r: string)
    requires |t| <= |s| && t == s[|s| - |t|..]
    requires forall i :: 0 <= i < |s| - |t| ==> IsSpace(s[i])
    requires |r| <= |t| && r == t[..|r|]
    requires forall i :: |r| <= i < |t| ==> IsSpace(t[i])
    ensures exists i, j :: (0 <= i <= j <= |s| && r == s[i..j]
      && (forall k :: 0 <= k < i ==> IsSpace(s[k]))
      && (forall k :: j <= k < |s| ==> IsSpace(s[k])))
  {
    var i, j := |s| - |t|, |s| - |t| + |r|;
    assert r == s[i..j];
    assert forall k :: j <= k < |s| ==> IsSpace(s[k]) by {
      forall k | j <= k < |s| ensures IsSpace(s[k]) {
        assert s[k] == t[k - i];
      }
    }
  }

  /** The longest prefix of `s` made of decimal digits. */
  function LeadingDigits(s: string): (r: string)
    ensures |r| <= |s| && r == s[..|r|]
    ensures AllDigits(r)
    ensures |r| < |s| ==> !IsDigit(s[|r|])
  {
    if s != [] && IsDigit(s[0]) then [s[0]] + LeadingDigits(s[1..]) else []
  }

  /** The value of a string of decimal digits, most significant first. */
  function DigitsValue(ds: string): nat
    requires AllDigits(ds)
  {
    if ds == [] then 0 else 10 * DigitsValue(ds[..|ds| - 1]) + DigitValue(ds[|ds| - 1])
  }

  /**
   * `String::toInt()`, which is `atol` on the characters: optional leading
   * white space, an optional sign, then the longest run of digits; 0 when
   * there are no digits.
   */
  function ToInt(s: string): int {
    if s != [] && IsSpace(s[0]) then ToInt(s[1..])
    else if s != [] && s[0] == '-' then -(DigitsValue(LeadingDigits(s[1..])) as int)
    else if s != [] && s[0] == '+' then DigitsValue(LeadingDigits(s[1..]))
    else DigitsValue(LeadingDigits(s))
  }

  /**
   * `toInt` as `atol` describes it: skip the leading white space, read an
   * optional sign, then the longest run of digits after it.
   */
  lemma {:induction false} ToIntReadsNumber(s: string)
    ensures var t := SkipSpace(s);
      && (t != [] && t[0] == '-' ==> ToInt(s) == -(DigitsValue(LeadingDigits(t[1..])) as int))
      && (t != [] && t[0] == '+' ==> ToInt(s) == DigitsValue(LeadingDigits(t[1..])))
      && (t == [] || (t[0] != '-' && t[0] != '+') ==> ToInt(s) == DigitsValue(LeadingDigits(t)))
  {
    if s != [] && IsSpace(s[0]) {
      ToIntReadsNumber(s[1..]);
    }
  }

  /** Decimal digits of a natural number, without leading zeros. */
  function NatToString(n: nat): (r: string)
    ensures r != [] && AllDigits(r)
    ensures n < 10 <==> |r| == 1
  {
    if n < 10 then [DigitChar(n)] else NatToString(n / 10) + [DigitChar(n % 10)]
  }

  /** `String(long)` / `String(int)`: decimal, with a '-' for negative values. */
  function FromInt(n: int): (r: string)
    ensures r != [] && (IsDigit(r[0]) || r[0] == '-')
    ensures n >= 0 <==> AllDigits(r)
  {
    if n < 0 then "-" + NatToString(-n) else NatToString(n)
  }

  /** `String(long)` is the canonical rendering: "0" only for zero, no leading zeros. */
  lemma FromIntCanonical(n: int)
    ensures var r := FromInt(n);
      && (r == "0" <==> n == 0)
      && (|r| > 1 && r[0] != '-' ==> r[0] != '0')
      && (r[0] == '-' ==> |r| > 1 && r[1] != '0' && AllDigits(r[1..]))
  {
    NatToStringLeadingDigit(if n < 0 then -n else n);
  }

  /** The first digit of a rendered natural number is '0' only for zero. */
  lemma {:induction false} NatToStringLeadingDigit(n: nat)
    ensures NatToString(n)[0] == '0' <==> n == 0
  {
    if n >= 10 {
      NatToStringLeadingDigit(n / 10);
    }
  }

  lemma {:induction false} DigitsValueOfNat(n: nat)
    ensures DigitsValue(NatToString(n)) == n
  {
    if n >= 10 {
      var s := NatToString(n);
      assert s[..|s| - 1] == NatToString(n / 10);
      DigitsValueOfNat(n / 10);
    }
  }

  lemma {:induction false} LeadingDigitsStop(ds: string, rest: string)
    requires AllDigits(ds)
    requires rest == [] || !IsDigit(rest[0])
    ensures LeadingDigits(ds + rest) == ds
  {
    if ds != [] {
      assert (ds + rest)[1..] == ds[1..] + rest;
      LeadingDigitsStop(ds[1..], rest);
    } else {
      assert ds + rest == rest;
    }
  }

  /** `toInt` of text that starts with a digit or a '-' reads the digit run that follows. */
  lemma ToIntUnsigned(s: string)
    requires s != [] && IsDigit(s[0])
    ensures ToInt(s) == DigitsValue(LeadingDigits(s))
  {
  }

  lemma ToIntNegative(s: string)
    requires s != [] && s[0] == '-'
    ensures ToInt(s) == -(DigitsValue(LeadingDigits(s[1..])) as int)
  {
  }

  lemma {:induction false} ToIntFromNat(n: nat, rest: string)
    requires rest == [] || !IsDigit(rest[0])
    ensures ToInt(NatToString(n) + rest) == n
  {
    var digits := NatToString(n);
    var s := digits + rest;
    assert s[0] == digits[0];
    ToIntUnsigned(s);
    LeadingDigitsStop(digits, rest);
    DigitsValueOfNat(n);
  }

  lemma {:induction false} ToIntFromNegated(m: nat, rest: string)
    requires rest == [] || !IsDigit(rest[0])
    ensures ToInt("-" + NatToString(m) + rest) == -(m as int)
  {
    var digits := NatToString(m);
    var s := "-" + digits + rest;
    ToIntNegative(s);
    assert s[1..] == digits + rest;
    LeadingDigitsStop(digits, rest);
    DigitsValueOfNat(m);
  }

  /**
   * `toInt` reads back what `String(long)` wrote, whatever non-digit text
   * follows it.
   */
  lemma {:induction false} ToIntFromInt(n: int, rest: string)
    requires rest == [] || !IsDigit(rest[0])
    ensures ToInt(FromInt(n) + rest) == n
  {
    if n < 0 {
      ToIntFromNegated(-n, rest);
    } else {
      ToIntFromNat(n, rest);
    }
  }

  /** `toInt` of a run of digits is its decimal value. */
  lemma {:induction false} ToIntOfDigits(ds: string)
    requires ds != [] && AllDigits(ds)
    ensures ToInt(ds) == DigitsValue(ds)
  {
    ToIntUnsigned(ds);
    LeadingDigitsStop(ds, []);
    assert ds + [] == ds;
  }

  /** Trailing white space removal does not reach a leading non-space character. */
  lemma {:induction false} SkipTrailingSpaceAfter(c: char, s: string)
    requires !IsSpace(c)
    ensures SkipTrailingSpace([c] + s) == [c] + SkipTrailingSpace(s)
    decreases |s|
  {
    if s != [] && IsSpace(s[|s| - 1]) {
      assert ([c] + s)[..|s|] == [c] + s[..|s| - 1];
      SkipTrailingSpaceAfter(c, s[..|s| - 1]);
    }
  }
}
