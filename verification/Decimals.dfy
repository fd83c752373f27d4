/** Decimal numerals, and how they are read back. */
module Decimals {

  function Decimal(n: nat): string {
    (if n < 10 then "" else Decimal(n / 10)) + [('0' as int + n % 10) as char]
  }

  predicate IsDigit(c: char) {
    '0' <= c <= '9'
  }

  function DigitOf(c: char): nat {
    if IsDigit(c) then c as int - '0' as int else 0
  }

  /** The number that a text begins with, after some digits seen before, and the rest of the text. */
  function ReadNumber(text: string, seen: nat): (nat, string) {
    if text == "" || !IsDigit(text[0]) then (seen, text)
    else ReadNumber(text[1..], 10 * seen + DigitOf(text[0]))
  }

  /** The value of digits after some digits seen before. */
  function Value(digits: string, seen: nat): nat
    requires forall c :: c in digits ==> IsDigit(c)
  {
    if digits == "" then seen else Value(digits[1..], 10 * seen + DigitOf(digits[0]))
  }

  lemma {:induction false} DecimalHasDigits(n: nat)
    ensures forall c :: c in Decimal(n) ==> IsDigit(c)
  {
    if n >= 10 {
      DecimalHasDigits(n / 10);
    }
  }

  lemma {:induction false} ValueOfMore(digits: string, last: char, seen: nat)
    requires forall c :: c in digits + [last] ==> IsDigit(c)
    ensures Value(digits + [last], seen) == 10 * Value(digits, seen) + DigitOf(last)
  {
    var more := digits + [last];
    if digits == "" {
      assert more[1..] == "";
    } else {
      assert more[1..] == digits[1..] + [last];
      ValueOfMore(digits[1..], last, 10 * seen + DigitOf(digits[0]));
    }
  }

  lemma {:induction false} ValueOfDecimal(n: nat)
    ensures forall c :: c in Decimal(n) ==> IsDigit(c)
    ensures Value(Decimal(n), 0) == n
  {
    DecimalHasDigits(n);
    var front := if n < 10 then "" else Decimal(n / 10);
    var last := ('0' as int + n % 10) as char;
    assert Decimal(n) == front + [last];
    ValueOfMore(front, last, 0);
    if n >= 10 {
      ValueOfDecimal(n / 10);
    }
  }

  lemma {:induction false} DigitsAreRead(digits: string, rest: string, seen: nat)
    requires forall c :: c in digits ==> IsDigit(c)
    ensures ReadNumber(digits + rest, seen) == ReadNumber(rest, Value(digits, seen))
  {
    if digits == "" {
      assert digits + rest == rest;
    } else {
      assert (digits + rest)[1..] == digits[1..] + rest;
      DigitsAreRead(digits[1..], rest, 10 * seen + DigitOf(digits[0]));
    }
  }

  /** A numeral is read back, up to what follows it. */
  lemma NumeralReadsBack(n: nat, rest: string)
    requires rest == "" || !IsDigit(rest[0])
    ensures ReadNumber(Decimal(n) + rest, 0) == (n, rest)
  {
    ValueOfDecimal(n);
    DigitsAreRead(Decimal(n), rest, 0);
  }
}
