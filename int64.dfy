/** Rust's `i64` and `str::parse::<i64>()`, which the chat handler applies to the
    identifiers it takes from a request path. */
module Int64 {
  import opened Wrappers

  const MIN: int := -0x8000_0000_0000_0000
  const MAX: int := 0x7FFF_FFFF_FFFF_FFFF

  type I64 = x: int | MIN <= x <= MAX

  // Display texts of the `ParseIntError` kinds.
  const EMPTY: string := "cannot parse integer from empty string"
  const INVALID_DIGIT: string := "invalid digit found in string"
  const POS_OVERFLOW: string := "number too large to fit in target type"
  const NEG_OVERFLOW: string := "number too small to fit in target type"

  predicate IsDigit(c: char)
  {
    '0' <= c <= '9'
  }

  function DigitValue(c: char): (d: nat)
    requires IsDigit(c)
    ensures d < 10
  {
    c as int - '0' as int
  }

  predicate AllDigits(s: string)
  {
    forall i :: 0 <= i < |s| ==> IsDigit(s[i])
  }

  /** The value of the decimal digits `ds` read after a prefix worth `acc`. */
  function Value(acc: int, ds: string): int
    requires AllDigits(ds)
    decreases |ds|
  {
    if ds == [] then acc else Value(acc * 10 + DigitValue(ds[0]), ds[1..])
  }

  /** The digit loop of `from_str_radix`: left to right, a bad digit or an
      overflow stops it at the first position where it happens; a negative
      number is accumulated downwards so that `MIN` itself can be read. */
  function Accumulate(ds: string, acc: I64, negative: bool): Result<I64>
    decreases |ds|
  {
    if ds == [] then Ok(acc)
    else if !IsDigit(ds[0]) then Err(INVALID_DIGIT)
    else
      var next := if negative then acc * 10 - DigitValue(ds[0]) else acc * 10 + DigitValue(ds[0]);
      if next > MAX then Err(POS_OVERFLOW)
      else if next < MIN then Err(NEG_OVERFLOW)
      else Accumulate(ds[1..], next, negative)
  }

  /** `s.parse::<i64>()`: an optional `+` or `-` and at least one digit. */
  function Parse(s: string): (r: Result<I64>)
  {
    if s == [] then Err(EMPTY)
    else if s == "+" || s == "-" then Err(INVALID_DIGIT)
    else if s[0] == '-' then Accumulate(s[1..], 0, true)
    else if s[0] == '+' then Accumulate(s[1..], 0, false)
    else Accumulate(s, 0, false)
  }

  /** The decimal digits of a natural number, without leading zeros. */
  function DigitsOf(n: nat): (s: string)
    ensures |s| > 0 && AllDigits(s)
  {
    if n < 10 then [('0' as int + n) as char]
    else DigitsOf(n / 10) + [('0' as int + n % 10) as char]
  }

  /** The `Display` text of an `i64`. */
  function Show(n: I64): string
  {
    if n < 0 then "-" + DigitsOf(-(n as int)) else DigitsOf(n)
  }

  lemma {:induction false} ValueAppend(acc: int, ds: string, c: char)
    requires AllDigits(ds) && IsDigit(c)
    ensures AllDigits(ds + [c])
    ensures Value(acc, ds + [c]) == Value(acc, ds) * 10 + DigitValue(c)
    decreases |ds|
  {
    if ds != [] {
      assert (ds + [c])[1..] == ds[1..] + [c];
      ValueAppend(acc * 10 + DigitValue(ds[0]), ds[1..], c);
    }
  }

  lemma {:induction false} ValueOfDigits(n: nat)
    ensures Value(0, DigitsOf(n)) == n
  {
    if n >= 10 {
      ValueOfDigits(n / 10);
      ValueAppend(0, DigitsOf(n / 10), ('0' as int + n % 10) as char);
    }
  }

  lemma {:induction false} ValueGrows(acc: nat, ds: string)
    requires AllDigits(ds)
    ensures Value(acc, ds) >= acc
    decreases |ds|
  {
    if ds != [] {
      ValueGrows(acc * 10 + DigitValue(ds[0]), ds[1..]);
    }
  }

  /** Digits whose value fits are read exactly, upwards or downwards. */
  lemma {:induction false} AccumulateValue(ds: string, acc: nat, negative: bool)
    requires AllDigits(ds)
    requires negative ==> acc <= -MIN && Value(acc, ds) <= -MIN
    requires !negative ==> acc <= MAX && Value(acc, ds) <= MAX
    ensures negative ==> Accumulate(ds, -(acc as int), true) == Ok(-Value(acc, ds))
    ensures !negative ==> Accumulate(ds, acc, false) == Ok(Value(acc, ds))
    decreases |ds|
  {
    ValueGrows(acc, ds);
    if ds != [] {
      var next := acc * 10 + DigitValue(ds[0]);
      ValueGrows(next, ds[1..]);
      AccumulateValue(ds[1..], next, negative);
    }
  }

  /** Parsing the text of an `i64` gives the number back. */
  lemma ParseShow(n: I64)
    ensures Parse(Show(n)) == Ok(n)
  {
    if n < 0 {
      var ds := DigitsOf(-(n as int));
      ValueOfDigits(-(n as int));
      AccumulateValue(ds, 0, true);
      var s := Show(n);
      assert s[0] == '-' && s[1..] == ds;
    } else {
      var ds := DigitsOf(n);
      ValueOfDigits(n);
      AccumulateValue(ds, 0, false);
    }
  }

  /** A successful parse read a sign-less or signed run of digits. */
  lemma {:induction false} AccumulateOk(ds: string, acc: I64, negative: bool)
    requires Accumulate(ds, acc, negative).Ok?
    ensures AllDigits(ds)
    decreases |ds|
  {
    if ds != [] {
      var next := if negative then acc * 10 - DigitValue(ds[0]) else acc * 10 + DigitValue(ds[0]);
      AccumulateOk(ds[1..], next, negative);
    }
  }

  lemma ParseOkShape(s: string)
    requires Parse(s).Ok?
    ensures |s| > 0
    ensures s[0] == '-' || s[0] == '+' ==> |s| > 1 && AllDigits(s[1..])
    ensures !(s[0] == '-' || s[0] == '+') ==> AllDigits(s)
  {
    if s[0] == '-' || s[0] == '+' {
      AccumulateOk(s[1..], 0, s[0] == '-');
    } else {
      AccumulateOk(s, 0, false);
    }
  }
}
