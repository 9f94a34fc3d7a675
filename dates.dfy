/**
 * Calendar dates as `save_to_csv` handles them: `datetime.strptime(s, "%d-%m-%Y")`
 * to read a printed date, `strftime("%d-%m-%Y")` to write it back, and the
 * ordering of `datetime` values that the sort uses.
 */
module Dates {
  import opened Wrappers
  import opened Text

  /** A calendar date. */
  datatype Date = Date(year: int, month: int, day: int)

  predicate IsLeap(y: int) {
    y % 4 == 0 && (y % 100 != 0 || y % 400 == 0)
  }

  function DaysInMonth(y: int, m: int): (n: int)
    requires 1 <= m <= 12
    ensures 28 <= n <= 31
  {
    if m == 2 then (if IsLeap(y) then 29 else 28)
    else if m == 4 || m == 6 || m == 9 || m == 11 then 30
    else 31
  }

  /** What `datetime.date` accepts: years 1 to 9999 and a day that exists in its month. */
  predicate Valid(d: Date) {
    && 1 <= d.year <= 9999
    && 1 <= d.month <= 12
    && 1 <= d.day <= DaysInMonth(d.year, d.month)
  }

  /** `a <= b` on `datetime` values: by year, then month, then day. */
  predicate NotAfter(a: Date, b: Date) {
    || a.year < b.year
    || (a.year == b.year && a.month < b.month)
    || (a.year == b.year && a.month == b.month && a.day <= b.day)
  }

  lemma NotAfterTotal(a: Date, b: Date)
    ensures NotAfter(a, b) || NotAfter(b, a)
    ensures NotAfter(a, b) && NotAfter(b, a) ==> a == b
  {
  }

  lemma NotAfterTransitive(a: Date, b: Date, c: Date)
    requires NotAfter(a, b) && NotAfter(b, c)
    ensures NotAfter(a, c)
  {
  }

  /* ---------------------------------------------------------------------- */
  /* strptime(s, "%d-%m-%Y")                                                 */

  /** The index of the first `-` at or after `from`, or `|s|` when there is none. */
  function DashFrom(s: string, from: nat): (i: nat)
    requires from <= |s|
    ensures from <= i <= |s|
    ensures forall k :: from <= k < i ==> s[k] != '-'
    ensures i < |s| ==> s[i] == '-'
    decreases |s| - from
  {
    if from == |s| || s[from] == '-' then from else DashFrom(s, from + 1)
  }

  predicate NonZeroDigit(c: char) {
    '1' <= c <= '9'
  }

  /** `%d`, whose pattern is `3[01]|[12]\d|0[1-9]|[1-9]| [1-9]`. */
  function DayField(f: string): (r: Option<int>)
    ensures r.Some? ==> 1 <= r.value <= 31 && 1 <= |f| <= 2
  {
    if |f| == 1 && NonZeroDigit(f[0]) then Some(DigitValue(f[0]))
    else if |f| == 2 && f[0] == ' ' && NonZeroDigit(f[1]) then Some(DigitValue(f[1]))
    else if |f| == 2 && IsDigit(f[0]) && IsDigit(f[1])
            && 1 <= 10 * DigitValue(f[0]) + DigitValue(f[1]) <= 31
    then Some(10 * DigitValue(f[0]) + DigitValue(f[1]))
    else None
  }

  /** `%m`, whose pattern is `1[0-2]|0[1-9]|[1-9]`. */
  function MonthField(f: string): (r: Option<int>)
    ensures r.Some? ==> 1 <= r.value <= 12 && 1 <= |f| <= 2
  {
    if |f| == 1 && NonZeroDigit(f[0]) then Some(DigitValue(f[0]))
    else if |f| == 2 && IsDigit(f[0]) && IsDigit(f[1])
            && 1 <= 10 * DigitValue(f[0]) + DigitValue(f[1]) <= 12
    then Some(10 * DigitValue(f[0]) + DigitValue(f[1]))
    else None
  }

  /** `%Y`, whose pattern is `\d\d\d\d`; nothing may follow it. */
  function YearField(f: string): (r: Option<int>)
    ensures r.Some? ==> 0 <= r.value <= 9999 && |f| == 4
  {
    if |f| == 4 && AllDigits(f) then
      ParseFourDigits(f);
      Some(ParseDigits(f))
    else None
  }

  lemma ParseFourDigits(f: string)
    requires |f| == 4 && AllDigits(f)
    ensures ParseDigits(f) == 1000 * DigitValue(f[0]) + 100 * DigitValue(f[1]) + 10 * DigitValue(f[2]) + DigitValue(f[3])
  {
    assert f[..1][..0] == [];
    assert ParseDigits(f[..1]) == DigitValue(f[0]);
    assert f[..2][..1] == f[..1];
    assert ParseDigits(f[..2]) == 10 * DigitValue(f[0]) + DigitValue(f[1]);
    assert f[..3][..2] == f[..2];
    assert ParseDigits(f[..3]) == 100 * DigitValue(f[0]) + 10 * DigitValue(f[1]) + DigitValue(f[2]);
    assert f[..4][..3] == f[..3] && f[..4] == f;
  }

  /**
   * `datetime.strptime(s, "%d-%m-%Y")`: the day is what precedes the first `-`,
   * the month what lies between the first two, the year the rest; each must
   * fit its field's pattern and the date must exist, or the call raises
   * `ValueError` (here `None`).
   */
  function ParseDate(s: string): (r: Option<Date>)
    ensures r.Some? ==> Valid(r.value)
  {
    var i := DashFrom(s, 0);
    if i == |s| then None
    else
      var j := DashFrom(s, i + 1);
      if j == |s| then None
      else Assemble(DayField(s[..i]), MonthField(s[i + 1..j]), YearField(s[j + 1..]))
  }

  /** The date the three fields name, when all three were read and the date exists. */
  function Assemble(d: Option<int>, m: Option<int>, y: Option<int>): (r: Option<Date>)
    ensures r.Some? ==> Valid(r.value)
  {
    if d.Some? && m.Some? && y.Some? && Valid(Date(y.value, m.value, d.value))
    then Some(Date(y.value, m.value, d.value))
    else None
  }

  /** With two dash-free fields in front, the string splits at its first two dashes. */
  lemma ParseDateParts(a: string, b: string, c: string)
    requires forall k :: 0 <= k < |a| ==> a[k] != '-'
    requires forall k :: 0 <= k < |b| ==> b[k] != '-'
    ensures ParseDate(a + "-" + b + "-" + c) == Assemble(DayField(a), MonthField(b), YearField(c))
  {
    var s := a + "-" + b + "-" + c;
    DashIs(s, 0, |a|);
    DashIs(s, |a| + 1, |a| + 1 + |b|);
    assert s[..|a|] == a;
    assert s[|a| + 1..|a| + 1 + |b|] == b;
    assert s[|a| + 1 + |b| + 1..] == c;
  }

  /* ---------------------------------------------------------------------- */
  /* strftime("%d-%m-%Y")                                                    */

  function Pad2(n: int): (r: string)
    requires 0 <= n < 100
    ensures |r| == 2 && AllDigits(r)
  {
    [DigitChar(n / 10), DigitChar(n % 10)]
  }

  function Pad4(n: int): (r: string)
    requires 0 <= n < 10000
    ensures |r| == 4 && AllDigits(r)
  {
    Pad2(n / 100) + Pad2(n % 100)
  }

  /** `date.strftime("%d-%m-%Y")`: zero-padded day and month; the year is zero-padded to four digits. */
  function FormatDate(d: Date): (r: string)
    requires Valid(d)
    ensures |r| == 10 && r[2] == '-' && r[5] == '-'
  {
    Pad2(d.day) + "-" + Pad2(d.month) + "-" + Pad4(d.year)
  }

  lemma DayPad(n: int)
    requires 1 <= n <= 31
    ensures DayField(Pad2(n)) == Some(n)
  {
  }

  lemma MonthPad(n: int)
    requires 1 <= n <= 12
    ensures MonthField(Pad2(n)) == Some(n)
  {
  }

  lemma YearPad(n: int)
    requires 0 <= n < 10000
    ensures YearField(Pad4(n)) == Some(n)
  {
    var f := Pad4(n);
    ParseFourDigits(f);
    assert 10 * DigitValue(f[0]) + DigitValue(f[1]) == n / 100;
    assert 10 * DigitValue(f[2]) + DigitValue(f[3]) == n % 100;
  }

  /** Reading back a rendered date gives the same date. */
  lemma ParseFormat(d: Date)
    requires Valid(d)
    ensures ParseDate(FormatDate(d)) == Some(d)
  {
    ParseDateParts(Pad2(d.day), Pad2(d.month), Pad4(d.year));
    DayPad(d.day);
    MonthPad(d.month);
    YearPad(d.year);
  }

  lemma DashIs(s: string, from: nat, i: nat)
    requires from <= i < |s| && s[i] == '-'
    requires forall k :: from <= k < i ==> s[k] != '-'
    ensures DashFrom(s, from) == i
  {
  }

  /**
   * A date written in the canonical `DD-MM-YYYY` form renders back to the very
   * same string; other spellings strptime accepts (`1-8-2023`, ` 1-08-2023`)
   * are rewritten into that form.
   */
  lemma FormatParse(s: string)
    requires ParseDate(s).Some? && |s| == 10 && IsDigit(s[0])
    ensures FormatDate(ParseDate(s).value) == s
  {
    var d := ParseDate(s).value;
    var i := DashFrom(s, 0);
    var j := DashFrom(s, i + 1);
    assert i == 2 && j == 5;
    var a, b, c := s[..2], s[3..5], s[6..];
    assert s == a + "-" + b + "-" + c;
    assert IsDigit(a[1]) by { assert DayField(a).Some?; }
    PadOf2(a);
    PadOf2(b);
    PadOf4(c);
  }

  /** Two digits are the padded rendering of their value. */
  lemma PadOf2(f: string)
    requires |f| == 2 && AllDigits(f)
    ensures Pad2(10 * DigitValue(f[0]) + DigitValue(f[1])) == f
  {
  }

  lemma PadOf4(f: string)
    requires |f| == 4 && AllDigits(f)
    ensures 0 <= ParseDigits(f) < 10000 && Pad4(ParseDigits(f)) == f
  {
    ParseFourDigits(f);
    var hi, lo := 10 * DigitValue(f[0]) + DigitValue(f[1]), 10 * DigitValue(f[2]) + DigitValue(f[3]);
    DivMod100(hi, lo);
    PadOf2(f[..2]);
    PadOf2(f[2..]);
    assert f == f[..2] + f[2..];
  }

  lemma DivMod100(hi: int, lo: int)
    requires 0 <= hi < 100 && 0 <= lo < 100
    ensures (100 * hi + lo) / 100 == hi && (100 * hi + lo) % 100 == lo
  {
  }

  lemma Year2023()
    ensures YearField("2023") == Some(2023)
  {
    ParseFourDigits("2023");
  }

  lemma ParseAugust()
    ensures ParseDate("01-08-2023") == Some(Date(2023, 8, 1))
  {
    assert "01-08-2023" == "01" + "-" + "08" + "-" + "2023";
    ParseDateParts("01", "08", "2023");
    assert DayField("01") == Some(1) && MonthField("08") == Some(8);
    Year2023();
  }

  lemma ParseSeptember()
    ensures ParseDate("01-09-2023") == Some(Date(2023, 9, 1))
  {
    assert "01-09-2023" == "01" + "-" + "09" + "-" + "2023";
    ParseDateParts("01", "09", "2023");
    assert DayField("01") == Some(1) && MonthField("09") == Some(9);
    Year2023();
  }

  /** The two dates of the sorting example: August 2023 comes before September 2023. */
  lemma SortingExampleDates()
    ensures ParseDate("01-08-2023") == Some(Date(2023, 8, 1))
    ensures ParseDate("01-09-2023") == Some(Date(2023, 9, 1))
    ensures NotAfter(Date(2023, 8, 1), Date(2023, 9, 1)) && !NotAfter(Date(2023, 9, 1), Date(2023, 8, 1))
  {
    ParseAugust();
    ParseSeptember();
  }
}
