/** Decimal numerals, as Rust prints and parses them. */
module Text {

  datatype Option<+T> = None | Some(value: T)

  const I64_MIN: int := -0x8000_0000_0000_0000
  const I64_MAX: int := 0x7FFF_FFFF_FFFF_FFFF
  const U32_MAX: int := 0xFFFF_FFFF

  predicate IsDigit(c: char) {
    '0' <= c <= '9'
  }

  function Digit(d: nat): (c: char)
    requires d < 10
    ensures IsDigit(c)
  {
    ['0', '1', '2', '3', '4', '5', '6', '7', '8', '9'][d]
  }

  function DigitValue(c: char): nat
    requires IsDigit(c)
  {
    c as int - '0' as int
  }

  /** `n.to_string()`. */
  function Decimal(n: nat): (s: string)
    ensures |s| > 0 && forall i :: 0 <= i < |s| ==> IsDigit(s[i])
  {
    if n < 10 then [Digit(n)] else Decimal(n / 10) + [Digit(n % 10)]
  }

  /** `i.to_string()` for a signed integer. */
  function Signed(i: int): (s: string)
    ensures |s| > 0
  {
    if i < 0 then "-" + Decimal(-i) else Decimal(i)
  }

  /** The value of a run of digits, `None` on an empty run or any other character. */
  function ParseNat(s: string): (r: Option<nat>) {
    if s == [] || !IsDigit(s[|s| - 1]) then None
    else if |s| == 1 then Some(DigitValue(s[0]))
    else
      match ParseNat(s[..|s| - 1])
      case None => None
      case Some(v) => Some(10 * v + DigitValue(s[|s| - 1]))
  }

  /** `s.parse::<u32>()`: an optional plus sign, digits, in range. */
  function ParseU32(s: string): (r: Option<nat>) {
    match ParseNat(Unsigned(s))
    case Some(v) => if v <= U32_MAX then Some(v) else None
    case None => None
  }

  /** `s.parse::<i64>()`: an optional sign, digits, in range. */
  function ParseI64(s: string): (r: Option<int>) {
    if s != [] && s[0] == '-' then
      match ParseNat(s[1..])
      case Some(v) => var m: int := v; if -m >= I64_MIN then Some(-m) else None
      case None => None
    else
      match ParseNat(Unsigned(s))
      case Some(v) => if v <= I64_MAX then Some(v) else None
      case None => None
  }

  function Unsigned(s: string): string {
    if s != [] && s[0] == '+' then s[1..] else s
  }

  lemma {:induction false} DigitRoundTrip(d: nat)
    requires d < 10
    ensures DigitValue(Digit(d)) == d
  {
    assert d == 0 || d == 1 || d == 2 || d == 3 || d == 4 || d == 5 || d == 6 || d == 7 || d == 8 || d == 9;
  }

  /** Printing a natural number and reading it back gives the number. */
  lemma {:induction false} DecimalRoundTrip(n: nat)
    ensures ParseNat(Decimal(n)) == Some(n)
  {
    if n < 10 {
      DigitRoundTrip(n);
    } else {
      DecimalRoundTrip(n / 10);
      DigitRoundTrip(n % 10);
      assert Decimal(n)[..|Decimal(n)| - 1] == Decimal(n / 10);
    }
  }

  function Ten(w: nat): nat {
    if w == 0 then 1 else 10 * Ten(w - 1)
  }

  lemma {:induction false} DecimalIsShort(n: nat, w: nat)
    requires w > 0 && n < Ten(w)
    ensures |Decimal(n)| <= w
  {
    if n >= 10 {
      DecimalIsShort(n / 10, w - 1);
    }
  }

  lemma LongIsShort(n: nat)
    requires n < 0x1_0000_0000_0000_0000
    ensures |Decimal(n)| <= 20
  {
    assert Ten(5) == 100_000;
    assert Ten(10) == 10_000_000_000;
    assert Ten(15) == 1_000_000_000_000_000;
    assert Ten(20) == 100_000_000_000_000_000_000;
    DecimalIsShort(n, 20);
  }

  /** Every `i64` printed as text is read back by `parse::<i64>()`. */
  lemma SignedRoundTrip(i: int)
    requires I64_MIN <= i <= I64_MAX
    ensures ParseI64(Signed(i)) == Some(i)
  {
    DecimalRoundTrip(if i < 0 then -i else i);
    if i < 0 {
      assert Signed(i)[1..] == Decimal(-i);
    }
  }

  lemma U32RoundTrip(n: nat)
    requires n <= U32_MAX
    ensures ParseU32(Decimal(n)) == Some(n)
  {
    DecimalRoundTrip(n);
  }
}
