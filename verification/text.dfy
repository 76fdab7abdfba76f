/** Rendering of integers the way the C runtime's printf conversions do it:
    %u / %d (decimal), %X / %x (hexadecimal), field widths with a fill
    character (%02d, %08x, %4d), and %d applied to a 32-bit unsigned value.
    Each rendering has a parser as its partner, and the round trips are
    proved, so that every later statement about a formatted number can be
    read back as a statement about the number itself.
 */
module Text {

  const TWO_POW_31: nat := 0x8000_0000
  const TWO_POW_32: nat := 0x1_0000_0000

  /** Digit for 0 <= d < 16, upper- or lower-case letters above 9. */
  function DigitChar(d: nat, upper: bool): (c: char)
    requires d < 16
    ensures d < 10 ==> '0' <= c <= '9'
    ensures 10 <= d && upper ==> 'A' <= c <= 'F'
    ensures 10 <= d && !upper ==> 'a' <= c <= 'f'
  {
    if d < 10 then ('0' as int + d) as char
    else if upper then ('A' as int + d - 10) as char
    else ('a' as int + d - 10) as char
  }

  /** Value of a hexadecimal or decimal digit character, 0 for anything else. */
  function DigitValue(c: char): nat {
    if '0' <= c <= '9' then c as int - '0' as int
    else if 'A' <= c <= 'F' then c as int - 'A' as int + 10
    else if 'a' <= c <= 'f' then c as int - 'a' as int + 10
    else 0
  }

  predicate IsDigitOf(c: char, base: nat) {
    if base == 10 then '0' <= c <= '9'
    else '0' <= c <= '9' || 'A' <= c <= 'F' || 'a' <= c <= 'f'
  }

  predicate AllDigits(s: string, base: nat) {
    forall i :: 0 <= i < |s| ==> IsDigitOf(s[i], base)
  }

  lemma DigitRoundTrip(d: nat, upper: bool)
    requires d < 16
    ensures DigitValue(DigitChar(d, upper)) == d
  {
  }

  /** Positional digits of n in base 10 or 16, most significant first, no
      leading zeros (the single digit "0" for zero). */
  function Digits(n: nat, base: nat, upper: bool): (s: string)
    requires base == 10 || base == 16
    ensures 1 <= |s|
    ensures AllDigits(s, base)
    ensures n > 0 ==> s[0] != '0'
    decreases n
  {
    if n < base then [DigitChar(n, upper)]
    else Digits(n / base, base, upper) + [DigitChar(n % base, upper)]
  }

  /** Positional value of a digit string (the parser that undoes Digits). */
  function ParseDigits(s: string, base: nat): nat
    decreases |s|
  {
    if |s| == 0 then 0
    else ParseDigits(s[..|s| - 1], base) * base + DigitValue(s[|s| - 1])
  }

  lemma {:induction false} ParseDigitsOfDigits(n: nat, base: nat, upper: bool)
    requires base == 10 || base == 16
    ensures ParseDigits(Digits(n, base, upper), base) == n
    decreases n
  {
    var s := Digits(n, base, upper);
    if n < base {
      DigitRoundTrip(n, upper);
      assert s[..0] == [];
    } else {
      var front := Digits(n / base, base, upper);
      assert s[..|s| - 1] == front;
      ParseDigitsOfDigits(n / base, base, upper);
      DigitRoundTrip(n % base, upper);
    }
  }

  /** A leading '0' does not change the value of a digit string. */
  lemma {:induction false} ParseDigitsLeadingZero(s: string, base: nat)
    ensures ParseDigits(['0'] + s, base) == ParseDigits(s, base)
    decreases |s|
  {
    var t := ['0'] + s;
    if |s| == 0 {
      assert t[..0] == [];
    } else {
      assert t[..|t| - 1] == ['0'] + s[..|s| - 1];
      ParseDigitsLeadingZero(s[..|s| - 1], base);
    }
  }

  /** `n` copies of `c`. */
  function Fill(c: char, n: nat): (r: string)
    ensures |r| == n
  {
    if n == 0 then [] else [c] + Fill(c, n - 1)
  }

  /** printf's field width: fill on the left up to `width`, never truncate. */
  function PadLeft(s: string, width: nat, fill: char): (r: string)
    ensures |r| == if |s| < width then width else |s|
  {
    if |s| < width then Fill(fill, width - |s|) + s else s
  }

  /** Leading zeros do not change the value of a digit string. */
  lemma {:induction false} ParseDigitsLeadingZeros(k: nat, s: string, base: nat)
    ensures ParseDigits(Fill('0', k) + s, base) == ParseDigits(s, base)
    decreases k
  {
    if k == 0 {
      assert Fill('0', k) + s == s;
    } else {
      assert Fill('0', k) + s == ['0'] + (Fill('0', k - 1) + s);
      ParseDigitsLeadingZeros(k - 1, s, base);
      ParseDigitsLeadingZero(Fill('0', k - 1) + s, base);
    }
  }

  lemma ParseDigitsZeroPadded(s: string, width: nat, base: nat)
    ensures ParseDigits(PadLeft(s, width, '0'), base) == ParseDigits(s, base)
  {
    if |s| < width {
      ParseDigitsLeadingZeros(width - |s|, s, base);
    }
  }

  /** %u, and %d of a non-negative value. */
  function Decimal(n: nat): string {
    Digits(n, 10, false)
  }

  /** %X */
  function HexUpper(n: nat): string {
    Digits(n, 16, true)
  }

  /** %x */
  function HexLower(n: nat): string {
    Digits(n, 16, false)
  }

  /** %0<width>d of a non-negative value. */
  function ZeroPadded(n: nat, width: nat): string {
    PadLeft(Decimal(n), width, '0')
  }

  /** %08x (and %08I64x): lower-case hexadecimal, at least eight digits. */
  function Hex8(n: nat): string {
    PadLeft(HexLower(n), 8, '0')
  }

  /** %d applied to a 32-bit unsigned value: the bits are read as a signed
      two's-complement int. */
  function SignedDecimal32(v: nat): (s: string)
    requires v < TWO_POW_32
    ensures 1 <= |s|
    ensures v < TWO_POW_31 ==> ParseDigits(s, 10) == v && AllDigits(s, 10)
    ensures TWO_POW_31 <= v ==> s[0] == '-' && ParseDigits(s[1..], 10) == TWO_POW_32 - v
    ensures AllDigits(s[1..], 10)
  {
    if v < TWO_POW_31 then
      ParseDigitsOfDigits(v, 10, false);
      Decimal(v)
    else
      var s := "-" + Decimal(TWO_POW_32 - v);
      ParseDigitsOfDigits(TWO_POW_32 - v, 10, false);
      assert s[1..] == Decimal(TWO_POW_32 - v);
      s
  }

  /** Round trips of the renderings used by the report. */
  lemma DecimalRoundTrip(n: nat)
    ensures AllDigits(Decimal(n), 10)
    ensures ParseDigits(Decimal(n), 10) == n
  {
    ParseDigitsOfDigits(n, 10, false);
  }

  lemma HexUpperRoundTrip(n: nat)
    ensures ParseDigits(HexUpper(n), 16) == n
    ensures forall i :: 0 <= i < |HexUpper(n)| ==> !('a' <= HexUpper(n)[i] <= 'z')
  {
    ParseDigitsOfDigits(n, 16, true);
    UpperDigitsHaveNoLowerCase(n);
  }

  lemma {:induction false} UpperDigitsHaveNoLowerCase(n: nat)
    ensures forall i :: 0 <= i < |Digits(n, 16, true)| ==> !('a' <= Digits(n, 16, true)[i] <= 'z')
    decreases n
  {
    if n >= 16 {
      UpperDigitsHaveNoLowerCase(n / 16);
    }
  }

  lemma ZeroPaddedRoundTrip(n: nat, width: nat)
    ensures |ZeroPadded(n, width)| >= width
    ensures n < 100 && width == 2 ==> |ZeroPadded(n, width)| == 2
    ensures ParseDigits(ZeroPadded(n, width), 10) == n
  {
    ParseDigitsZeroPadded(Decimal(n), width, 10);
    ParseDigitsOfDigits(n, 10, false);
    if n < 100 && width == 2 {
      DecimalLength(n);
    }
  }

  lemma Hex8RoundTrip(n: nat)
    ensures |Hex8(n)| >= 8
    ensures ParseDigits(Hex8(n), 16) == n
  {
    ParseDigitsZeroPadded(HexLower(n), 8, 16);
    ParseDigitsOfDigits(n, 16, false);
  }

  function Power(b: nat, k: nat): nat {
    if k == 0 then 1 else b * Power(b, k - 1)
  }

  lemma {:induction false} PowerAdd(b: nat, m: nat, n: nat)
    ensures Power(b, m + n) == Power(b, m) * Power(b, n)
    decreases m
  {
    if m > 0 {
      PowerAdd(b, m - 1, n);
      assert Power(b, m + n) == b * Power(b, m - 1 + n);
    }
  }

  /** A value below base^k has at most k digits. */
  lemma {:induction false} DigitsBound(n: nat, base: nat, upper: bool, k: nat)
    requires base == 10 || base == 16
    requires 1 <= k && n < Power(base, k)
    ensures |Digits(n, base, upper)| <= k
    decreases k
  {
    if n >= base && k > 1 {
      DigitsBound(n / base, base, upper, k - 1);
    }
  }

  /** %08x of a 32-bit value is exactly eight digits. */
  lemma Hex8Width(n: nat)
    requires n < TWO_POW_32
    ensures |Hex8(n)| == 8
  {
    assert Power(16, 8) == TWO_POW_32;
    DigitsBound(n, 16, false, 8);
  }

  /** Number of decimal digits of small values. */
  lemma DecimalLength(n: nat)
    ensures n < 10 ==> |Decimal(n)| == 1
    ensures 10 <= n < 100 ==> |Decimal(n)| == 2
    ensures 100 <= n < 1000 ==> |Decimal(n)| == 3
    ensures 1000 <= n < 10000 ==> |Decimal(n)| == 4
  {
    if 10 <= n {
      DecimalLength(n / 10);
    }
  }
}
