/**
  Calendar dates as Python's datetime.date sees them: a (year, month, day)
  triple, compared chronologically, printed with strftime('%d/%m/%Y').
*/
module Dates {

  datatype Date = Date(year: nat, month: nat, day: nat)

  predicate IsLeapYear(y: int) {
    y % 4 == 0 && (y % 100 != 0 || y % 400 == 0)
  }

  function DaysInMonth(y: int, m: int): (n: int)
    requires 1 <= m <= 12
    ensures 28 <= n <= 31
    ensures n == 29 <==> m == 2 && IsLeapYear(y)
  {
    if m == 2 then (if IsLeapYear(y) then 29 else 28)
    else if m == 4 || m == 6 || m == 9 || m == 11 then 30
    else 31
  }

  /** What the datetime.date constructor accepts (MINYEAR 1, MAXYEAR 9999). */
  predicate IsValid(d: Date) {
    1 <= d.year <= 9999 && 1 <= d.month <= 12 && 1 <= d.day <= DaysInMonth(d.year, d.month)
  }

  /** Chronological order of Python dates: `a < b`. */
  predicate Before(a: Date, b: Date) {
    a.year < b.year
    || (a.year == b.year && (a.month < b.month || (a.month == b.month && a.day < b.day)))
  }

  /** `a <= b` on Python dates. */
  predicate NotAfter(a: Date, b: Date) {
    Before(a, b) || a == b
  }

  /** `<` on dates is a strict total order: exactly one of `a < b`, `a == b`, `b < a` holds, and it is transitive. */
  lemma Trichotomy(a: Date, b: Date, c: Date)
    ensures Before(a, b) || a == b || Before(b, a)
    ensures !(Before(a, b) && Before(b, a))
    ensures !Before(a, a)
    ensures Before(a, b) && Before(b, c) ==> Before(a, c)
  {
  }

  /**
    strptime without a year builds its date in 1900, which is not a leap
    year, so a (month, day) that passes there passes in any year.
  */
  lemma ValidIn1900IsValidEveryYear(m: nat, d: nat, y: nat)
    requires IsValid(Date(1900, m, d))
    requires 1 <= y <= 9999
    ensures IsValid(Date(y, m, d))
  {
  }

  // ---- strftime('%d/%m/%Y') -------------------------------------------------

  function DigitChar(n: nat): char
    requires n < 10
  {
    ('0' as int + n) as char
  }

  function DigitValue(c: char): nat {
    if '0' <= c <= '9' then (c as int - '0' as int) as nat else 0
  }

  /** Decimal representation of `n` without leading zeros. */
  function Decimal(n: nat): (s: string)
    ensures 1 <= |s|
    ensures forall k :: 0 <= k < |s| ==> '0' <= s[k] <= '9'
  {
    if n < 10 then [DigitChar(n)] else Decimal(n / 10) + [DigitChar(n % 10)]
  }

  /** Value of a string of decimal digits, most significant first. */
  function DecimalValue(s: string): nat {
    if s == [] then 0 else 10 * DecimalValue(s[..|s| - 1]) + DigitValue(s[|s| - 1])
  }

  function Zeros(k: nat): (s: string)
    ensures |s| == k
  {
    if k == 0 then [] else "0" + Zeros(k - 1)
  }

  /** `n` printed in at least `width` digits, zero-padded on the left. */
  function Padded(n: nat, width: nat): string {
    var s := Decimal(n);
    if |s| < width then Zeros(width - |s|) + s else s
  }

  /** `date.strftime('%d/%m/%Y')`. */
  function Format(d: Date): string {
    Padded(d.day, 2) + "/" + Padded(d.month, 2) + "/" + Padded(d.year, 4)
  }

  /** Reads back a "dd/mm/yyyy" string. */
  function Unformat(s: string): Date
    requires |s| == 10
  {
    Date(DecimalValue(s[6..10]), DecimalValue(s[3..5]), DecimalValue(s[0..2]))
  }

  lemma {:induction false} DecimalRoundTrip(n: nat)
    ensures DecimalValue(Decimal(n)) == n
  {
    if n >= 10 {
      var s := Decimal(n);
      assert s[..|s| - 1] == Decimal(n / 10);
      DecimalRoundTrip(n / 10);
    }
  }

  lemma {:induction false} ZerosAreInvisible(k: nat, s: string)
    ensures DecimalValue(Zeros(k) + s) == DecimalValue(s)
  {
    if s == [] {
      assert Zeros(k) + s == Zeros(k);
      if k > 0 {
        assert Zeros(k)[..k - 1] == Zeros(k - 1) by { ZerosPrefix(k); }
        ZerosAreInvisible(k - 1, []);
        assert Zeros(k - 1) + [] == Zeros(k - 1);
      }
    } else {
      var t := Zeros(k) + s;
      assert t[..|t| - 1] == Zeros(k) + s[..|s| - 1];
      ZerosAreInvisible(k, s[..|s| - 1]);
    }
  }

  lemma {:induction false} ZerosPrefix(k: nat)
    requires k > 0
    ensures Zeros(k)[..k - 1] == Zeros(k - 1)
    ensures Zeros(k)[k - 1] == '0'
  {
    if k > 1 {
      ZerosPrefix(k - 1);
      assert Zeros(k) == "0" + Zeros(k - 1);
    }
  }

  function Pow10(k: nat): (p: nat)
    ensures p >= 1
  {
    if k == 0 then 1 else 10 * Pow10(k - 1)
  }

  lemma {:induction false} DecimalLength(n: nat, k: nat)
    requires 1 <= k && n < Pow10(k)
    ensures |Decimal(n)| <= k
  {
    if n >= 10 {
      assert k >= 2;
      assert n / 10 < Pow10(k - 1);
      DecimalLength(n / 10, k - 1);
    }
  }

  lemma PaddedRoundTrip(n: nat, width: nat)
    requires (width == 2 && n < 100) || (width == 4 && n < 10000)
    ensures |Padded(n, width)| == width
    ensures DecimalValue(Padded(n, width)) == n
  {
    assert Pow10(2) == 100 && Pow10(4) == 10000;
    DecimalLength(n, width);
    DecimalRoundTrip(n);
    if |Decimal(n)| < width {
      ZerosAreInvisible(width - |Decimal(n)|, Decimal(n));
    }
  }

  /** strftime('%d/%m/%Y') loses nothing on a valid date: it reads back as the same date. */
  lemma FormatRoundTrip(d: Date)
    requires IsValid(d)
    ensures |Format(d)| == 10
    ensures Unformat(Format(d)) == d
  {
    PaddedRoundTrip(d.day, 2);
    PaddedRoundTrip(d.month, 2);
    PaddedRoundTrip(d.year, 4);
    FormatFields(Padded(d.day, 2), Padded(d.month, 2), Padded(d.year, 4));
  }

  /** The three fields of "dd/mm/yyyy" sit at offsets 0, 3 and 6. */
  lemma FormatFields(dd: string, mm: string, yyyy: string)
    requires |dd| == 2 && |mm| == 2 && |yyyy| == 4
    ensures var s := dd + "/" + mm + "/" + yyyy;
      |s| == 10 && s[0..2] == dd && s[3..5] == mm && s[6..10] == yyyy
  {
  }

  /** Two different valid dates never print the same. */
  lemma FormatInjective(a: Date, b: Date)
    requires IsValid(a) && IsValid(b)
    requires Format(a) == Format(b)
    ensures a == b
  {
    FormatRoundTrip(a);
    FormatRoundTrip(b);
  }
}
