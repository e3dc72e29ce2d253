/** Decimal numerals: what digits mean, how `std::to_string` writes them, and how `parse_int` reads them. */
module Decimal {
  import opened Text
  import opened Json
  import opened ParserSpec
  import opened ScanProofs

  /** The number a digit string continues to, starting from `val`. */
  function Value(val: nat, digits: string): nat
    requires AllDigits(digits)
    decreases |digits|
  {
    if digits == "" then val
    else
      assert digits[0] in digits;
      Value(val * 10 + DigitValue(digits[0]), digits[1..])
  }

  function DigitChar(d: nat): char
    requires d < 10
  {
    ('0' as int + d) as char
  }

  /** `std::to_string` on a non-negative number. */
  function DecimalText(n: nat): (t: string)
    ensures t != "" && AllDigits(t)
    ensures t[0] == '0' ==> n == 0 && t == "0"
  {
    if n < 10 then [DigitChar(n)] else DecimalText(n / 10) + [DigitChar(n % 10)]
  }

  function IntText(n: int): string {
    if n < 0 then "-" + DecimalText(-n) else DecimalText(n)
  }

  /** The integer a JSON value denotes, when it is a number without fraction and exponent. */
  function IntegerOf(v: Json): Option<int>
    requires Scannable(v)
  {
    if v.Number? && v.numeral.fraction.None? && v.numeral.exponent.None? then
      var magnitude: int := Value(0, v.numeral.whole);
      Some(if v.numeral.negative then -magnitude else magnitude)
    else None
  }

  /** The integers `parse_int` accepts: all of the 32-bit range but its least element. */
  predicate Fits(n: int) {
    -INT_MAX <= n <= INT_MAX
  }

  function IntJson(n: int): (v: Json)
    ensures WellFormed(v) && Scannable(v) && v.Number?
  {
    Number(Numeral(n < 0, DecimalText(if n < 0 then -n else n), None, None))
  }

  lemma {:induction false} ValueSnoc(val: nat, digits: string, c: char)
    requires AllDigits(digits) && IsDigit(c)
    ensures Value(val, digits + [c]) == Value(val, digits) * 10 + DigitValue(c)
    decreases |digits|
  {
    if digits == "" {
      assert digits + [c] == [c];
      assert [c][1..] == "";
    } else {
      assert digits[0] in digits;
      assert (digits + [c])[1..] == digits[1..] + [c];
      ValueSnoc(val * 10 + DigitValue(digits[0]), digits[1..], c);
    }
  }

  lemma {:induction false} ValueOfText(n: nat)
    ensures Value(0, DecimalText(n)) == n
  {
    if n >= 10 {
      ValueOfText(n / 10);
      ValueSnoc(0, DecimalText(n / 10), DigitChar(n % 10));
    } else {
      assert [DigitChar(n)][1..] == "";
    }
  }

  /** Writing an integer and reading the numeral back are inverse. */
  lemma IntTextRoundTrip(n: int)
    ensures Print(IntJson(n)) == IntText(n)
    ensures IntegerOf(IntJson(n)) == Some(n)
  {
    ValueOfText(if n < 0 then -n else n);
    var t := DecimalText(if n < 0 then -n else n);
    assert t + "" + "" == t;
  }

  lemma {:induction false} ValueGrows(val: nat, digits: string)
    requires AllDigits(digits)
    ensures Value(val, digits) >= val
    decreases |digits|
  {
    if digits != "" {
      assert digits[0] in digits;
      ValueGrows(val * 10 + DigitValue(digits[0]), digits[1..]);
    }
  }

  lemma {:induction false} ParseDigitsExact(s: string, i: nat, digits: string, val: nat)
    requires At(s, i, digits) && AllDigits(digits) && val <= INT_MAX
    requires i + |digits| < |s| ==> !IsDigit(s[i + |digits|])
    ensures ParseDigits(s, i, val) ==
            var n := Value(val, digits);
            if n <= INT_MAX then Some(Parsed(n, i + |digits|)) else None
    decreases |digits|
  {
    if digits != "" {
      assert digits[0] in digits;
      var next := val * 10 + DigitValue(digits[0]);
      if next <= INT_MAX {
        ParseDigitsExact(s, i + 1, digits[1..], next);
      } else {
        ValueGrows(next, digits[1..]);
      }
    }
  }

  /**
    `parse_int` on an optional minus and a maximal run of digits: it succeeds exactly when the
    magnitude is at most 2^31 - 1, and then returns the number and consumes the whole run.
   */
  lemma ParseIntExact(s: string, i: nat, ws: string, negative: bool, digits: string)
    requires At(s, i, ws) && AllSpace(ws)
    requires At(s, i + |ws|, (if negative then "-" else "") + digits)
    requires digits != "" && AllDigits(digits)
    requires var j := i + |ws| + (if negative then 1 else 0) + |digits|;
             j < |s| ==> !IsDigit(s[j])
    ensures ParseInt(s, i) ==
            var n: int := Value(0, digits);
            if n <= INT_MAX
            then Some(Parsed(if negative then -n else n,
                             i + |ws| + (if negative then 1 else 0) + |digits|))
            else None
  {
    var q := i + |ws|;
    AtSplit(s, q, if negative then "-" else "", digits);
    assert digits[0] in digits;
    SkipWsExact(s, i, ws);
    ParseDigitsExact(s, if negative then q + 1 else q, digits, 0);
  }

  /**
    `parse_int` inverts `std::to_string` on every 32-bit integer but -2^31, which it rejects:
    the guard is on the magnitude.
   */
  lemma ParseIntInvertsIntText(n: int, rest: string)
    requires -INT_MAX - 1 <= n <= INT_MAX
    requires rest != "" ==> !IsDigit(rest[0])
    ensures Fits(n) ==> ParseInt(IntText(n) + rest, 0) == Some(Parsed(n, |IntText(n)|))
    ensures !Fits(n) ==> ParseInt(IntText(n) + rest, 0) == None
    ensures !Fits(n) <==> n == -2147483648
  {
    var digits := DecimalText(if n < 0 then -n else n);
    var s := IntText(n) + rest;
    AtSlice(s, 0, IntText(n));
    assert (if n < 0 then "-" else "") + digits == IntText(n);
    ParseIntExact(s, 0, "", n < 0, digits);
    ValueOfText(if n < 0 then -n else n);
  }
}
