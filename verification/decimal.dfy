/** Rust's `str::parse` for unsigned integers in base 10 (`u8`, `u16`, `u32`).

    The accepted text is an optional leading `+` followed by one or more ASCII
    digits; the value must not exceed the type's maximum. The digits are scanned
    left to right and the first problem met decides the error: a non-digit gives
    `InvalidDigit`, a running value past the maximum gives `PosOverflow`. */
module Decimal {

  datatype ParseError = Empty | InvalidDigit | PosOverflow

  datatype ParseResult = Parsed(value: nat) | Failed(error: ParseError)

  predicate IsDigit(c: char)
  {
    '0' <= c <= '9'
  }

  function DigitValue(c: char): nat
    requires IsDigit(c)
  {
    c as int - '0' as int
  }

  predicate AllDigits(s: string)
  {
    forall k :: 0 <= k < |s| ==> IsDigit(s[k])
  }

  /** The number a string of digits denotes. */
  function ValueOf(s: string): nat
    requires AllDigits(s)
  {
    if |s| == 0 then 0 else 10 * ValueOf(s[..|s| - 1]) + DigitValue(s[|s| - 1])
  }

  /** The digits after the optional sign. */
  function Digits(s: string): string
  {
    if |s| > 0 && s[0] == '+' then s[1..] else s
  }

  /** The scan of `from_str_radix` over the digits, from the value read so far. */
  function Scan(acc: nat, rest: string, max: nat): (r: ParseResult)
    requires acc <= max
    ensures r.Parsed? ==> r.value <= max
    decreases |rest|
  {
    if |rest| == 0 then Parsed(acc)
    else if !IsDigit(rest[0]) then Failed(InvalidDigit)
    else if 10 * acc + DigitValue(rest[0]) > max then Failed(PosOverflow)
    else Scan(10 * acc + DigitValue(rest[0]), rest[1..], max)
  }

  /** `s.parse::<T>()` where `max` is `T::MAX`. */
  function Parse(s: string, max: nat): (r: ParseResult)
    ensures r.Parsed? ==> r.value <= max
    ensures |s| == 0 ==> r == Failed(Empty)
    ensures s == "+" ==> r == Failed(InvalidDigit)
  {
    if |s| == 0 then Failed(Empty)
    else if s == "+" then Failed(InvalidDigit)
    else Scan(0, Digits(s), max)
  }

  function ValueOfPrefix(acc: nat, s: string): nat
    requires AllDigits(s)
  {
    if |s| == 0 then acc else 10 * ValueOfPrefix(acc, s[..|s| - 1]) + DigitValue(s[|s| - 1])
  }

  lemma {:induction false} ValueOfPrefixStep(acc: nat, c: char, s: string)
    requires IsDigit(c) && AllDigits(s)
    ensures AllDigits([c] + s)
    ensures ValueOfPrefix(acc, [c] + s) == ValueOfPrefix(10 * acc + DigitValue(c), s)
    decreases |s|
  {
    var cs := [c] + s;
    if |s| > 0 {
      assert cs[..|cs| - 1] == [c] + s[..|s| - 1];
      ValueOfPrefixStep(acc, c, s[..|s| - 1]);
    }
  }

  lemma {:induction false} ValueOfPrefixGrows(acc: nat, s: string)
    requires AllDigits(s)
    ensures ValueOfPrefix(acc, s) >= acc
    ensures ValueOfPrefix(acc, s) == ValueOfPrefix(0, s) + acc * Pow10(|s|)
    decreases |s|
  {
    if |s| > 0 {
      ValueOfPrefixGrows(acc, s[..|s| - 1]);
    }
  }

  function Pow10(k: nat): (r: nat)
    ensures r >= 1
  {
    if k == 0 then 1 else 10 * Pow10(k - 1)
  }

  lemma {:induction false} ValueOfIsPrefixFromZero(s: string)
    requires AllDigits(s)
    ensures ValueOf(s) == ValueOfPrefix(0, s)
    decreases |s|
  {
    if |s| > 0 {
      ValueOfIsPrefixFromZero(s[..|s| - 1]);
    }
  }

  /** The scan succeeds exactly on digit strings whose value stays within the maximum,
      and then yields that value. */
  lemma {:induction false} ScanMeaning(acc: nat, rest: string, max: nat)
    requires acc <= max
    ensures Scan(acc, rest, max).Parsed?
        <==> AllDigits(rest) && ValueOfPrefix(acc, rest) <= max
    ensures Scan(acc, rest, max).Parsed? ==> Scan(acc, rest, max).value == ValueOfPrefix(acc, rest)
    decreases |rest|
  {
    if |rest| > 0 {
      var c, tail := rest[0], rest[1..];
      assert rest == [c] + tail;
      if IsDigit(c) {
        var acc' := 10 * acc + DigitValue(c);
        if acc' > max {
          if AllDigits(rest) {
            ValueOfPrefixStep(acc, c, tail);
            ValueOfPrefixGrows(acc', tail);
          }
        } else {
          ScanMeaning(acc', tail, max);
          if AllDigits(tail) {
            ValueOfPrefixStep(acc, c, tail);
          }
        }
      }
    }
  }

  /** `parse` succeeds exactly on an optional `+` followed by at least one digit whose
      value is at most the maximum, and returns that value. */
  lemma ParseMeaning(s: string, max: nat)
    ensures Parse(s, max).Parsed?
        <==> |Digits(s)| > 0 && AllDigits(Digits(s)) && ValueOf(Digits(s)) <= max
    ensures Parse(s, max).Parsed? ==> Parse(s, max).value == ValueOf(Digits(s))
  {
    if |s| > 0 && s != "+" {
      assert |Digits(s)| > 0;
      ScanMeaning(0, Digits(s), max);
      if AllDigits(Digits(s)) {
        ValueOfIsPrefixFromZero(Digits(s));
      }
    }
  }

  /** The decimal text of n, without sign or leading zeros. */
  function ToDecimal(n: nat): (s: string)
    ensures |s| > 0 && AllDigits(s) && s[0] != '+'
  {
    if n < 10 then ['0' + n as char]
    else ToDecimal(n / 10) + ['0' + (n % 10) as char]
  }

  lemma {:induction false} ValueOfToDecimal(n: nat)
    ensures ValueOf(ToDecimal(n)) == n
  {
    if n >= 10 {
      var s := ToDecimal(n);
      assert s[..|s| - 1] == ToDecimal(n / 10);
      ValueOfToDecimal(n / 10);
    }
  }

  /** Printing a number in range and parsing it back gives the number. */
  lemma ParseToDecimal(n: nat, max: nat)
    requires n <= max
    ensures Parse(ToDecimal(n), max) == Parsed(n)
  {
    ValueOfToDecimal(n);
    ParseMeaning(ToDecimal(n), max);
  }
}
