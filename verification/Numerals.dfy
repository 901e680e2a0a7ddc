/** Number formatting (strconv.Itoa, strconv.FormatUint, the %x verb) and the 64-bit shift 1 << k. */
module Numerals {

  const DIGITS := "0123456789abcdef"

  function Pow2(k: nat): (p: nat)
    ensures p >= 1
  {
    if k == 0 then 1 else 2 * Pow2(k - 1)
  }

  /** Go's `1 << k` in a 64-bit int: the sign bit at 63, nothing left from 64 on. */
  function ShiftOne(k: nat): int
  {
    if k < 63 then Pow2(k) else if k == 63 then -(Pow2(63) as int) else 0
  }

  /** The numeral of `n`, in hexadecimal or in decimal. */
  function Format(n: nat, hex: bool): string
  {
    if hex then
      if n < 16 then [DIGITS[n]] else Format(n / 16, hex) + [DIGITS[n % 16]]
    else
      if n < 10 then [DIGITS[n]] else Format(n / 10, hex) + [DIGITS[n % 10]]
  }

  /** strconv.Itoa */
  function Itoa(n: int): string
  {
    if n < 0 then "-" + Format(-n, false) else Format(n, false)
  }

  function DigitValue(c: char): nat
  {
    if '0' <= c <= '9' then (c - '0') as nat else if 'a' <= c <= 'f' then 10 + (c - 'a') as nat else 0
  }

  /** Reading a numeral back: the inverse of Format. */
  function Value(s: string, hex: bool): nat
  {
    if s == "" then 0
    else (if hex then 16 else 10) * Value(s[..|s| - 1], hex) + DigitValue(s[|s| - 1])
  }

  lemma DigitRoundTrip(d: nat)
    requires d < 16
    ensures DigitValue(DIGITS[d]) == d
    ensures DIGITS[d] != '-'
  {
  }

  lemma ValueSnoc(s: string, c: char, hex: bool)
    ensures Value(s + [c], hex) == (if hex then 16 else 10) * Value(s, hex) + DigitValue(c)
  {
    assert (s + [c])[..|s|] == s;
  }

  /** Value undoes Format, so no two numbers share a numeral. */
  lemma {:induction false} ValueOfFormat(n: nat, hex: bool)
    ensures Value(Format(n, hex), hex) == n
    ensures |Format(n, hex)| >= 1 && Format(n, hex)[0] != '-'
  {
    var base := if hex then 16 else 10;
    DigitRoundTrip(n % base);
    if n < base {
      ValueSnoc("", DIGITS[n], hex);
      assert "" + [DIGITS[n]] == [DIGITS[n]];
    } else {
      ValueOfFormat(n / base, hex);
      ValueSnoc(Format(n / base, hex), DIGITS[n % base], hex);
    }
  }

  lemma ItoaInjective(a: int, b: int)
    requires Itoa(a) == Itoa(b)
    ensures a == b
  {
    var x, y := if a < 0 then -a else a, if b < 0 then -b else b;
    ValueOfFormat(x, false);
    ValueOfFormat(y, false);
    assert ("-" + Format(x, false))[1..] == Format(x, false);
    assert ("-" + Format(y, false))[1..] == Format(y, false);
  }

  lemma {:induction false} Pow2Grows(j: nat, k: nat)
    requires j < k
    ensures Pow2(j) < Pow2(k)
    decreases k
  {
    if j < k - 1 {
      Pow2Grows(j, k - 1);
    }
  }
}
