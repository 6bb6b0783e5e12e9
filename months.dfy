/**
 * Calendar months and the two month-key strings of script.js:
 *  - the padded "YYYY-MM" key of getLastNMonths, and
 *  - the unpadded "YYYY-M" key that processRecurring stores in lastRecurringMonth.
 * A month is the (getFullYear(), getMonth()) pair of a JavaScript Date, so the
 * month number is 0-based.
 */
module Months {
  import opened Wrappers

  type MonthOfYear = m: int | 0 <= m < 12

  datatype YearMonth = YearMonth(year: int, month: MonthOfYear)

  /** Number of months since January of year 0: orders calendar months. */
  function Index(ym: YearMonth): int
  {
    ym.year * 12 + ym.month
  }

  lemma IndexInjective(a: YearMonth, b: YearMonth)
    requires Index(a) == Index(b)
    ensures a == b
  {
  }

  /** `new Date(year, month, 1)`: a month outside 0..11 is carried into the year. */
  function Normalize(year: int, month: int): (r: YearMonth)
    ensures Index(r) == year * 12 + month
    ensures 0 <= month < 12 ==> r == YearMonth(year, month)
  {
    YearMonth(year + month / 12, month % 12)
  }

  /** The month `delta` months after `ym` (before it when delta < 0). */
  function AddMonths(ym: YearMonth, delta: int): (r: YearMonth)
    ensures Index(r) == Index(ym) + delta
  {
    Normalize(ym.year, ym.month + delta)
  }

  /** One month before January is December of the previous year. */
  lemma JanuaryRollover(year: int)
    ensures AddMonths(YearMonth(year, 0), -1) == YearMonth(year - 1, 11)
  {
  }

  // ---------------------------------------------------------------------
  // Decimal rendering, as JavaScript's String(n) and template literals do
  // for integers.

  predicate IsDigit(c: char)
  {
    '0' <= c <= '9'
  }

  predicate AllDigits(s: string)
  {
    forall i :: 0 <= i < |s| ==> IsDigit(s[i])
  }

  function DigitChar(d: int): (c: char)
    requires 0 <= d < 10
    ensures IsDigit(c) && c as int - '0' as int == d
  {
    ('0' as int + d) as char
  }

  /** Decimal digits of n without leading zeros. */
  function NatToString(n: nat): (s: string)
    ensures 1 <= |s| && AllDigits(s)
    ensures n < 10 <==> |s| == 1
  {
    if n < 10 then [DigitChar(n)] else NatToString(n / 10) + [DigitChar(n % 10)]
  }

  /** `${n}` for an integer: a leading '-' for negatives. */
  function IntToString(n: int): (s: string)
    ensures 1 <= |s|
    ensures s[0] == '-' <==> n < 0
  {
    if n < 0 then "-" + NatToString(-n) else NatToString(n)
  }

  /** `s.padStart(2, "0")`. */
  function PadTwo(s: string): (r: string)
    ensures |r| == if |s| >= 2 then |s| else 2
    ensures AllDigits(s) ==> AllDigits(r)
    decreases 2 - |s|
  {
    if |s| >= 2 then s else PadTwo("0" + s)
  }

  /** The bucket key of getLastNMonths: `${year}-${String(month + 1).padStart(2, "0")}`. */
  function MonthKey(ym: YearMonth): string
  {
    IntToString(ym.year) + "-" + PadTwo(NatToString(ym.month + 1))
  }

  /** The lastRecurringMonth key of processRecurring: `${year}-${month + 1}`, not padded. */
  function RecurringKey(ym: YearMonth): string
  {
    IntToString(ym.year) + "-" + NatToString(ym.month + 1)
  }

  // ---------------------------------------------------------------------
  // Reading keys back: the inverse that shows both key formats are injective.

  /** Value of a string of decimal digits (leading zeros allowed). */
  function DigitsValue(s: string): int
  {
    if s == [] then 0 else DigitsValue(s[..|s| - 1]) * 10 + (s[|s| - 1] as int - '0' as int)
  }

  function ParseInt(s: string): int
  {
    if |s| > 0 && s[0] == '-' then -DigitsValue(s[1..]) else DigitsValue(s)
  }

  /** Position of the last '-' in s, or -1. */
  function LastDash(s: string): (d: int)
    ensures -1 <= d < |s|
    ensures d >= 0 ==> s[d] == '-'
    ensures forall i :: d < i < |s| ==> s[i] != '-'
  {
    if s == [] then -1
    else if s[|s| - 1] == '-' then |s| - 1
    else LastDash(s[..|s| - 1])
  }

  /** Reads "Y-M" or "Y-MM" back into a month; None when there is no '-' or M is not 1..12. */
  function ParseKey(key: string): Option<YearMonth>
  {
    var d := LastDash(key);
    if d < 0 then None
    else
      var m := DigitsValue(key[d + 1..]);
      if 1 <= m <= 12 then Some(YearMonth(ParseInt(key[..d]), m - 1)) else None
  }

  lemma {:induction false} DigitsValueOfNatToString(n: nat)
    ensures DigitsValue(NatToString(n)) == n
  {
    if n >= 10 {
      var s := NatToString(n);
      assert s[..|s| - 1] == NatToString(n / 10);
      DigitsValueOfNatToString(n / 10);
    }
  }

  lemma {:induction false} DigitsValueLeadingZero(s: string)
    ensures DigitsValue("0" + s) == DigitsValue(s)
    decreases |s|
  {
    if s != [] {
      assert ("0" + s)[..|s|] == "0" + s[..|s| - 1];
      DigitsValueLeadingZero(s[..|s| - 1]);
    }
  }

  lemma {:induction false} DigitsValueOfPadTwo(s: string)
    ensures DigitsValue(PadTwo(s)) == DigitsValue(s)
    decreases 2 - |s|
  {
    if |s| < 2 {
      DigitsValueOfPadTwo("0" + s);
      DigitsValueLeadingZero(s);
    }
  }

  lemma IntToStringRoundTrip(n: int)
    ensures ParseInt(IntToString(n)) == n
  {
    var s := IntToString(n);
    if n < 0 {
      var digits := NatToString(-n);
      assert s == "-" + digits;
      assert s[1..] == digits;
      DigitsValueOfNatToString(-n);
    } else {
      assert s[0] != '-';
      DigitsValueOfNatToString(n);
    }
  }

  lemma {:induction false} LastDashOfJoin(a: string, b: string)
    requires forall i :: 0 <= i < |b| ==> b[i] != '-'
    ensures LastDash(a + "-" + b) == |a|
    decreases |b|
  {
    if b != [] {
      assert (a + "-" + b)[..|a + "-" + b| - 1] == a + "-" + b[..|b| - 1];
      LastDashOfJoin(a, b[..|b| - 1]);
    }
  }

  /** Splitting "Y-M" at its last '-' gives back the year and the month. */
  lemma JoinedKeyParses(ym: YearMonth, monthText: string)
    requires AllDigits(monthText)
    requires DigitsValue(monthText) == ym.month + 1
    ensures ParseKey(IntToString(ym.year) + "-" + monthText) == Some(ym)
  {
    var y := IntToString(ym.year);
    var key := y + "-" + monthText;
    LastDashOfJoin(y, monthText);
    assert key[|y| + 1..] == monthText;
    assert key[..|y|] == y;
    IntToStringRoundTrip(ym.year);
  }

  /** The getLastNMonths key reads back to its month. */
  lemma MonthKeyRoundTrip(ym: YearMonth)
    ensures ParseKey(MonthKey(ym)) == Some(ym)
  {
    DigitsValueOfNatToString(ym.month + 1);
    DigitsValueOfPadTwo(NatToString(ym.month + 1));
    JoinedKeyParses(ym, PadTwo(NatToString(ym.month + 1)));
  }

  /** The processRecurring key reads back to its month. */
  lemma RecurringKeyRoundTrip(ym: YearMonth)
    ensures ParseKey(RecurringKey(ym)) == Some(ym)
  {
    DigitsValueOfNatToString(ym.month + 1);
    JoinedKeyParses(ym, NatToString(ym.month + 1));
  }

  /** Two months share a "YYYY-MM" key exactly when they are the same month. */
  lemma MonthKeyInjective(a: YearMonth, b: YearMonth)
    ensures MonthKey(a) == MonthKey(b) <==> a == b
  {
    MonthKeyRoundTrip(a);
    MonthKeyRoundTrip(b);
  }

  /** Two months share a lastRecurringMonth key exactly when they are the same month. */
  lemma RecurringKeyInjective(a: YearMonth, b: YearMonth)
    ensures RecurringKey(a) == RecurringKey(b) <==> a == b
  {
    RecurringKeyRoundTrip(a);
    RecurringKeyRoundTrip(b);
  }
}
