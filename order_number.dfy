/**
 * The order number `onBeforeInsert` assigns: the date as `yyyy-MM-dd`, a
 * dash, and the day's serial number in decimal.
 */
module OrderNumberFormat {
  import opened Wrappers
  import opened OrdermanEntities

  predicate IsDigit(c: char) {
    '0' <= c <= '9'
  }

  predicate AllDigits(s: string) {
    forall k :: 0 <= k < |s| ==> IsDigit(s[k])
  }

  function DigitChar(d: nat): (c: char)
    requires d < 10
    ensures IsDigit(c)
  {
    (('0' as int) + d) as char
  }

  function DigitValue(c: char): nat
    requires IsDigit(c)
  {
    (c as int) - ('0' as int)
  }

  /** `Long.toString` of a non-negative number. */
  function DecimalString(n: nat): (s: string)
    ensures |s| >= 1 && AllDigits(s)
  {
    if n < 10 then [DigitChar(n)] else DecimalString(n / 10) + [DigitChar(n % 10)]
  }

  function Zeros(k: nat): (s: string)
    ensures |s| == k && AllDigits(s)
  {
    if k == 0 then "" else Zeros(k - 1) + "0"
  }

  /** A `SimpleDateFormat` field of `width` letters: at least `width` digits, padded with zeros. */
  function ZeroPadded(n: nat, width: nat): (s: string)
    ensures AllDigits(s)
  {
    var d := DecimalString(n);
    if |d| < width then Zeros(width - |d|) + d else d
  }

  /** The number a string of decimal digits denotes. */
  function DigitsValue(s: string): nat
    requires AllDigits(s)
  {
    if s == [] then 0 else DigitsValue(s[..|s| - 1]) * 10 + DigitValue(s[|s| - 1])
  }

  function Pow10(k: nat): nat {
    if k == 0 then 1 else 10 * Pow10(k - 1)
  }

  lemma {:induction false} DecimalStringValue(n: nat)
    ensures DigitsValue(DecimalString(n)) == n
  {
    if n >= 10 {
      var s := DecimalString(n);
      assert s[..|s| - 1] == DecimalString(n / 10);
      DecimalStringValue(n / 10);
    }
  }

  lemma {:induction false} LeadingZerosValue(k: nat, s: string)
    requires AllDigits(s)
    ensures DigitsValue(Zeros(k) + s) == DigitsValue(s)
  {
    if s == [] {
      assert Zeros(k) + s == Zeros(k);
      ZerosValue(k);
    } else {
      assert (Zeros(k) + s)[..|Zeros(k) + s| - 1] == Zeros(k) + s[..|s| - 1];
      LeadingZerosValue(k, s[..|s| - 1]);
    }
  }

  lemma {:induction false} ZerosValue(k: nat)
    ensures DigitsValue(Zeros(k)) == 0
  {
    if k > 0 {
      assert Zeros(k)[..k - 1] == Zeros(k - 1);
      ZerosValue(k - 1);
    }
  }

  /** Padding does not change the value read back. */
  lemma ZeroPaddedValue(n: nat, width: nat)
    ensures DigitsValue(ZeroPadded(n, width)) == n
  {
    var d := DecimalString(n);
    DecimalStringValue(n);
    if |d| < width {
      LeadingZerosValue(width - |d|, d);
    }
  }

  lemma {:induction false} DecimalStringLength(n: nat, k: nat)
    requires k >= 1 && n < Pow10(k)
    ensures |DecimalString(n)| <= k
  {
    if n >= 10 {
      assert k >= 2;
      assert n / 10 < Pow10(k - 1);
      DecimalStringLength(n / 10, k - 1);
    }
  }

  /** A value below 10^width fills exactly `width` characters. */
  lemma ZeroPaddedLength(n: nat, width: nat)
    requires width >= 1 && n < Pow10(width)
    ensures |ZeroPadded(n, width)| == width
  {
    DecimalStringLength(n, width);
  }

  /** The order number for a date and the serial number drawn for that date. */
  function OrderNumber(date: Date, serial: nat): string {
    ZeroPadded(date.year, 4) + "-" + ZeroPadded(date.month, 2) + "-" +
    ZeroPadded(date.day, 2) + "-" + DecimalString(serial)
  }

  /** The `Order.number` pattern `\d{4}-\d{2}-\d{2}-\d+`. */
  predicate MatchesNumberPattern(s: string) {
    && |s| >= 12
    && AllDigits(s[..4]) && s[4] == '-'
    && AllDigits(s[5..7]) && s[7] == '-'
    && AllDigits(s[8..10]) && s[10] == '-'
    && AllDigits(s[11..])
  }

  /** Dates whose fields print in 4, 2 and 2 digits: every year up to 9999. */
  predicate DateFitsPattern(d: Date) {
    d.year <= 9999 && d.month <= 99 && d.day <= 99
  }

  /** Reads a number matching the pattern back into its date and serial. */
  function ParseOrderNumber(s: string): Option<(Date, nat)> {
    if MatchesNumberPattern(s) then
      Some((Date(DigitsValue(s[..4]), DigitsValue(s[5..7]), DigitsValue(s[8..10])), DigitsValue(s[11..])))
    else None
  }

  /** The parts of an order number and the positions they occupy. */
  lemma OrderNumberLayout(d: Date, serial: nat)
    requires DateFitsPattern(d)
    ensures var s := OrderNumber(d, serial);
            && s[..4] == ZeroPadded(d.year, 4) && s[4] == '-'
            && s[5..7] == ZeroPadded(d.month, 2) && s[7] == '-'
            && s[8..10] == ZeroPadded(d.day, 2) && s[10] == '-'
            && s[11..] == DecimalString(serial)
  {
    assert Pow10(4) == 10000 && Pow10(2) == 100;
    ZeroPaddedLength(d.year, 4);
    ZeroPaddedLength(d.month, 2);
    ZeroPaddedLength(d.day, 2);
  }

  /** The assigned number always matches the entity's pattern. */
  lemma OrderNumberMatchesPattern(d: Date, serial: nat)
    requires DateFitsPattern(d)
    ensures MatchesNumberPattern(OrderNumber(d, serial))
  {
    OrderNumberLayout(d, serial);
  }

  /** The date and the serial can be read back from the number. */
  lemma OrderNumberRoundTrip(d: Date, serial: nat)
    requires DateFitsPattern(d)
    ensures ParseOrderNumber(OrderNumber(d, serial)) == Some((d, serial))
  {
    OrderNumberLayout(d, serial);
    ZeroPaddedValue(d.year, 4);
    ZeroPaddedValue(d.month, 2);
    ZeroPaddedValue(d.day, 2);
    DecimalStringValue(serial);
  }
}
