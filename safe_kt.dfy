/**
 * Null-coalescing defaults and fallback-protected parsing of text into
 * `Int`, `Long` and `Boolean` values (the pure helpers of SafeKt.kt).
 */
module SafeKt {
  import opened Wrappers
  import opened Primitives

  // ---------------------------------------------------------------------------
  // Decimal digits

  predicate IsDigit(c: char) { '0' <= c <= '9' }

  predicate AllDigits(s: string) { forall i :: 0 <= i < |s| ==> IsDigit(s[i]) }

  function DigitValue(c: char): (d: nat)
    requires IsDigit(c)
    ensures d < 10
  {
    c as int - '0' as int
  }

  function DigitChar(d: nat): (c: char)
    requires d < 10
    ensures IsDigit(c) && DigitValue(c) == d
  {
    ('0' as int + d) as char
  }

  /** The decimal text of `n`, most significant digit first, with no sign and no leading zero. */
  function Decimal(n: nat): (s: string)
    ensures |s| > 0 && AllDigits(s)
    ensures s[0] == '0' <==> n == 0
    ensures n < 10 <==> |s| == 1
  {
    if n < 10 then [DigitChar(n)] else Decimal(n / 10) + [DigitChar(n % 10)]
  }

  /** The number a string of decimal digits denotes. */
  function DigitsValue(s: string): nat
    requires AllDigits(s)
  {
    if s == [] then 0 else 10 * DigitsValue(s[..|s| - 1]) + DigitValue(s[|s| - 1])
  }

  /** Reading back the digits `Decimal` writes gives the number again. */
  lemma {:induction false} DigitsValueOfDecimal(n: nat)
    ensures DigitsValue(Decimal(n)) == n
  {
    if n >= 10 {
      var s := Decimal(n);
      assert s[..|s| - 1] == Decimal(n / 10);
      DigitsValueOfDecimal(n / 10);
    }
  }

  /** A digit string starting with a non-zero digit denotes a positive number. */
  lemma {:induction false} DigitsValuePositive(s: string)
    requires |s| > 0 && AllDigits(s) && s[0] != '0'
    ensures DigitsValue(s) > 0
  {
    if |s| > 1 {
      DigitsValuePositive(s[..|s| - 1]);
    }
  }

  /** Conversely, a digit string without a superfluous leading zero is what `Decimal` writes for its value. */
  lemma {:induction false} DecimalOfDigitsValue(s: string)
    requires |s| > 0 && AllDigits(s)
    requires s[0] == '0' ==> |s| == 1
    ensures Decimal(DigitsValue(s)) == s
  {
    var prefix, last := s[..|s| - 1], s[|s| - 1];
    if prefix != [] {
      DigitsValuePositive(prefix);
      DecimalOfDigitsValue(prefix);
      var n := DigitsValue(s);
      assert n / 10 == DigitsValue(prefix) && n % 10 == DigitValue(last);
      assert s == prefix + [last];
    }
  }

  // ---------------------------------------------------------------------------
  // Int.toTextString

  /**
   * `Int.toTextString()`: the empty text for zero and negative numbers,
   * otherwise the number's decimal digits.
   */
  function ToTextString(n: Int32): (s: string)
    ensures s == "" <==> n <= 0
    ensures n > 0 ==> AllDigits(s) && s[0] != '0' && DigitsValue(s) == n
  {
    if n <= 0 then "" else DigitsValueOfDecimal(n); Decimal(n)
  }

  // ---------------------------------------------------------------------------
  // Null-coalescing defaults

  /** `Int?.orZero()`. */
  function OrZero(n: Option<Int32>): (r: Int32)
    ensures n.Some? ==> r == n.value
    ensures n.None? ==> r == 0
  {
    match n
    case Some(v) => v
    case None => 0
  }

  /** `Long?.orZero()`. */
  function OrZeroLong(n: Option<Int64>): (r: Int64)
    ensures n.Some? ==> r == n.value
    ensures n.None? ==> r == 0
  {
    match n
    case Some(v) => v
    case None => 0
  }

  /** `Boolean?.orFalse()`. */
  function OrFalse(b: Option<bool>): (r: bool)
    ensures r <==> b == Some(true)
  {
    match b
    case Some(v) => v
    case None => false
  }

  /** `Boolean?.orTrue()`. */
  function OrTrue(b: Option<bool>): (r: bool)
    ensures !r <==> b == Some(false)
  {
    match b
    case Some(v) => v
    case None => true
  }

  // ---------------------------------------------------------------------------
  // Parsing text

  /**
   * Radix-10 parsing as `Integer.parseInt` and `Long.parseLong` do it: an
   * optional `-` or `+`, then at least one decimal digit and nothing else,
   * denoting a number in [min, max]. `None` stands for the
   * `NumberFormatException` thrown otherwise.
   */
  function ParseDecimal(s: string, min: int, max: int): (r: Option<int>)
    ensures r.Some? ==> min <= r.value <= max
    ensures r.Some? ==> |s| > 0 && (IsDigit(s[0]) || s[0] in "+-") && IsDigit(s[|s| - 1])
    ensures r.Some? ==> forall i :: 0 < i < |s| ==> IsDigit(s[i])
    ensures |s| > 0 && AllDigits(s) ==>
      r == if min <= DigitsValue(s) <= max then Some(DigitsValue(s)) else None
    ensures |s| > 1 && s[0] == '+' && AllDigits(s[1..]) ==>
      r == if min <= DigitsValue(s[1..]) <= max then Some(DigitsValue(s[1..])) else None
    ensures |s| > 1 && s[0] == '-' && AllDigits(s[1..]) ==>
      r == if min <= -(DigitsValue(s[1..]) as int) <= max then Some(-(DigitsValue(s[1..]) as int)) else None
  {
    var signed := |s| > 0 && (s[0] == '-' || s[0] == '+');
    var body := if signed then s[1..] else s;
    if |body| == 0 || !AllDigits(body) then None
    else
      var v: int := if signed && s[0] == '-' then -(DigitsValue(body) as int) else DigitsValue(body);
      if min <= v <= max then Some(v) else None
  }

  /** `Int.toString()` read back by `String.toInt()` gives the number, sign included. */
  lemma ParseDecimalOfDecimal(n: int, min: int, max: int)
    requires min <= n <= max
    ensures n >= 0 ==> ParseDecimal(Decimal(n), min, max) == Some(n)
    ensures n < 0 ==> ParseDecimal("-" + Decimal(-n), min, max) == Some(n)
  {
    if n >= 0 {
      DigitsValueOfDecimal(n);
    } else {
      DigitsValueOfDecimal(-n);
      assert ("-" + Decimal(-n))[1..] == Decimal(-n);
    }
  }

  /** ASCII lower-casing, the only case folding `"true"` is sensitive to. */
  function LowerAscii(c: char): char
  {
    if 'A' <= c <= 'Z' then (c as int + 32) as char else c
  }

  /**
   * `String.toBoolean()` (`java.lang.Boolean.parseBoolean`): true exactly for
   * "true" in any mix of upper and lower case; it never fails.
   */
  function ToBoolean(s: string): (r: bool)
    ensures r <==> |s| == 4 && forall i :: 0 <= i < 4 ==> s[i] == "true"[i] || s[i] == "TRUE"[i]
  {
    |s| == 4 && forall i :: 0 <= i < 4 ==> LowerAscii(s[i]) == "true"[i]
  }

  /**
   * The runtime value passed as `fallback` to `toValueSafe`, by the class the
   * `when` dispatches on; `OtherBox` is any class outside the handled ones
   * (for instance a `String`).
   */
  datatype Boxed = IntBox(i: Int32) | LongBox(l: Int64) | BoolBox(b: bool) | OtherBox(id: nat)

  predicate SameClass(a: Boxed, b: Boxed)
  {
    (a.IntBox? && b.IntBox?) || (a.LongBox? && b.LongBox?) || (a.BoolBox? && b.BoolBox?) || (a.OtherBox? && b.OtherBox?)
  }

  /**
   * `String?.toValueSafe(fallback)`: parse the text as a value of the
   * fallback's class, and return the fallback when the text is null or empty,
   * does not parse, or the class is not one the helper knows.
   */
  function ToValueSafe(s: Option<string>, fallback: Boxed): (r: Boxed)
    ensures SameClass(r, fallback)
    ensures s.None? || s.value == "" ==> r == fallback
    ensures fallback.OtherBox? ==> r == fallback
    ensures s.Some? && fallback.IntBox? ==>
      r == (match ParseDecimal(s.value, INT_MIN, INT_MAX) case Some(v) => IntBox(v) case None => fallback)
    ensures s.Some? && fallback.LongBox? ==>
      r == (match ParseDecimal(s.value, LONG_MIN, LONG_MAX) case Some(v) => LongBox(v) case None => fallback)
    ensures s.Some? && s.value != "" && fallback.BoolBox? ==> r == BoolBox(ToBoolean(s.value))
  {
    if s.None? || s.value == "" then fallback
    else
      match fallback
      case IntBox(_) =>
        (match ParseDecimal(s.value, INT_MIN, INT_MAX) case Some(v) => IntBox(v) case None => fallback)
      case LongBox(_) =>
        (match ParseDecimal(s.value, LONG_MIN, LONG_MAX) case Some(v) => LongBox(v) case None => fallback)
      case BoolBox(_) => BoolBox(ToBoolean(s.value))
      case OtherBox(_) => fallback
  }

  /** `parseIntSafe(content, fallback = 0)`. */
  function ParseIntSafe(content: Option<string>, fallback: Int32 := 0): (r: Int32)
    ensures content.None? || content.value == "" ==> r == fallback
    ensures content.Some? ==> r == (match ParseDecimal(content.value, INT_MIN, INT_MAX) case Some(v) => v case None => fallback)
  {
    ToValueSafe(content, IntBox(fallback)).i
  }

  /** `parseLongSafe(content, fallback = 0L)`. */
  function ParseLongSafe(content: Option<string>, fallback: Int64 := 0): (r: Int64)
    ensures content.None? || content.value == "" ==> r == fallback
    ensures content.Some? ==> r == (match ParseDecimal(content.value, LONG_MIN, LONG_MAX) case Some(v) => v case None => fallback)
  {
    ToValueSafe(content, LongBox(fallback)).l
  }

  /**
   * Round trip: `parseIntSafe(n.toTextString(), fallback)` gives `n` back
   * for a positive `n`, and the fallback otherwise (the text is then empty).
   */
  lemma ParseIntSafeOfTextString(n: Int32, fallback: Int32)
    ensures ParseIntSafe(Some(ToTextString(n)), fallback) == if n > 0 then n else fallback
  {
  }

  function Pow10(k: nat): (p: nat)
    ensures p >= 1
  {
    if k == 0 then 1 else 10 * Pow10(k - 1)
  }

  /** `parseLongSafe` reads back every `Long`'s `toString()`, whatever the fallback. */
  lemma ParseLongSafeOfDecimal(n: Int64, fallback: Int64)
    ensures n >= 0 ==> ParseLongSafe(Some(Decimal(n)), fallback) == n
    ensures n < 0 ==> ParseLongSafe(Some("-" + Decimal(-(n as int))), fallback) == n
  {
    ParseDecimalOfDecimal(n, LONG_MIN, LONG_MAX);
  }

  /** A digit string starting with a non-zero digit denotes at least 10^(length - 1). */
  lemma {:induction false} DigitsValueLowerBound(s: string)
    requires |s| > 0 && AllDigits(s) && s[0] != '0'
    ensures DigitsValue(s) >= Pow10(|s| - 1)
  {
    if |s| > 1 {
      DigitsValueLowerBound(s[..|s| - 1]);
    } else {
      assert DigitsValue(s) == DigitValue(s[0]);
    }
  }

  /**
   * Digits beyond `Int`'s range make `toInt()` throw, so `parseIntSafe`
   * gives the fallback: every unsigned run of more than ten digits without a
   * leading zero is out of range.
   */
  lemma ParseIntSafeOverflow(s: string, fallback: Int32)
    requires |s| > 10 && AllDigits(s) && s[0] != '0'
    ensures ParseIntSafe(Some(s), fallback) == fallback
  {
    DigitsValueLowerBound(s);
    assert Pow10(10) == 10_000_000_000;
    var k := |s| - 1;
    assert Pow10(k) >= Pow10(10) by { Pow10Monotone(10, k); }
  }

  lemma {:induction false} Pow10Monotone(i: nat, j: nat)
    requires i <= j
    ensures Pow10(i) <= Pow10(j)
  {
    if i < j {
      Pow10Monotone(i, j - 1);
    }
  }

  /** Concrete cases: a sign alone, a leading `+`, leading zeros, a negative zero, and letters. */
  lemma ParseIntSafeExamples()
    ensures ParseIntSafe(Some("abc")) == 0
    ensures ParseIntSafe(Some("-")) == 0
    ensures ParseIntSafe(Some("+7")) == 7
    ensures ParseIntSafe(Some("007")) == 7
    ensures ParseIntSafe(Some("-0"), 5) == 0
    ensures ParseIntSafe(Some(""), 5) == 5
    ensures ParseIntSafe(None, 5) == 5
  {
    assert DigitsValue("007") == 10 * DigitsValue("00") + 7;
  }

  /**
   * `String?.toColorSafely(fallback)`: the colour `parseColor` reads from the
   * text, or the fallback when the text is null or empty or `parseColor`
   * rejects it (`None` stands for its exception).
   */
  function ToColorSafely(s: Option<string>, fallback: Int32, parseColor: string -> Option<Int32>): (r: Int32)
    ensures s.None? || s.value == "" ==> r == fallback
    ensures s.Some? && s.value != "" && parseColor(s.value).None? ==> r == fallback
    ensures s.Some? && s.value != "" && parseColor(s.value).Some? ==> r == parseColor(s.value).value
  {
    if s.None? || s.value == "" then fallback
    else
      match parseColor(s.value)
      case Some(c) => c
      case None => fallback
  }
}
