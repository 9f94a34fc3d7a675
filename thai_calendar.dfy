/**
 * The Thai month table and the due-date rewrite that uses it: a Thai month name
 * becomes its two-digit number (unknown names fall back to "01") and a Buddhist
 * Era year becomes a Gregorian one by subtracting 543.
 */
module ThaiCalendar {
  import opened Wrappers
  import opened Text

  /** `thai_months`: Thai month name to two-digit month number. */
  const ThaiMonths: map<string, string> := map[
      "มกราคม" := "01",
      "กุมภาพันธ์" := "02",
      "มีนาคม" := "03",
      "เมษายน" := "04",
      "พฤษภาคม" := "05",
      "มิถุนายน" := "06",
      "กรกฎาคม" := "07",
      "สิงหาคม" := "08",
      "กันยายน" := "09",
      "ตุลาคม" := "10",
      "พฤศจิกายน" := "11",
      "ธันวาคม" := "12"
    ]

  /** The difference between the Buddhist Era and the Gregorian year numbering. */
  const BuddhistEraOffset: int := 543

  /** The value of a two-character digit string. */
  function TwoDigitValue(code: string): int
    requires |code| == 2 && AllDigits(code)
  {
    10 * DigitValue(code[0]) + DigitValue(code[1])
  }

  /** `thai_months.get(name, "01")`. */
  function MonthNumber(name: string): (r: string)
    ensures name in ThaiMonths ==> r == ThaiMonths[name]
    ensures name !in ThaiMonths ==> r == "01"
    ensures |r| == 2 && AllDigits(r) && 1 <= TwoDigitValue(r) <= 12
  {
    if name in ThaiMonths then ThaiMonths[name] else "01"
  }

  /** The inverse of the table: the month name for a two-digit month number. */
  function MonthName(code: string): (r: Option<string>)
    ensures r.Some? ==> r.value in ThaiMonths && ThaiMonths[r.value] == code
  {
    match code
    case "01" => Some("มกราคม")
    case "02" => Some("กุมภาพันธ์")
    case "03" => Some("มีนาคม")
    case "04" => Some("เมษายน")
    case "05" => Some("พฤษภาคม")
    case "06" => Some("มิถุนายน")
    case "07" => Some("กรกฎาคม")
    case "08" => Some("สิงหาคม")
    case "09" => Some("กันยายน")
    case "10" => Some("ตุลาคม")
    case "11" => Some("พฤศจิกายน")
    case "12" => Some("ธันวาคม")
    case _ => None
  }

  /** Looking a known month name up and back gives the name again. */
  lemma MonthNameOfNumber(name: string)
    requires name in ThaiMonths
    ensures MonthName(MonthNumber(name)) == Some(name)
  {
  }

  /** No two month names share a number. */
  lemma ThaiMonthsInjective(a: string, b: string)
    requires a in ThaiMonths && b in ThaiMonths && ThaiMonths[a] == ThaiMonths[b]
    ensures a == b
  {
    MonthNameOfNumber(a);
    MonthNameOfNumber(b);
  }

  /** Every month number from 01 to 12 names a month of the table. */
  lemma MonthNameTotal(code: string)
    requires |code| == 2 && AllDigits(code) && 1 <= TwoDigitValue(code) <= 12
    ensures MonthName(code).Some?
  {
    assert code == [code[0], code[1]];
  }

  /** `f"{day}-{month}-{year}"` with the month looked up and the year shifted to the Gregorian era. */
  function DueDate(day: string, monthName: string, buddhistYear: string): (r: string)
    requires AllDigits(buddhistYear)
  {
    day + "-" + MonthNumber(monthName) + "-" + IntToString(ParseDigits(buddhistYear) - BuddhistEraOffset)
  }

  /**
   * The rewritten date falls apart into the day as captured, the month number,
   * and a year that reads back as the Buddhist year minus 543.
   */
  lemma DueDateFields(day: string, monthName: string, buddhistYear: string)
    requires AllDigits(buddhistYear)
    ensures var r := DueDate(day, monthName, buddhistYear);
      var y := r[|day| + 4..];
      && r[..|day|] == day
      && r[|day|..|day| + 4] == "-" + MonthNumber(monthName) + "-"
      && |y| > 0 && (if y[0] == '-' then AllDigits(y[1..]) else AllDigits(y))
      && ParseInt(y) == ParseDigits(buddhistYear) - 543
  {
    var n := ParseDigits(buddhistYear) - BuddhistEraOffset;
    IntToStringRoundTrip(n);
    var r := DueDate(day, monthName, buddhistYear);
    assert r == day + ("-" + MonthNumber(monthName) + "-") + IntToString(n);
  }

  lemma Year2567()
    ensures ParseDigits("2567") == 2567
  {
    assert "2567"[..3] == "256" && "256"[..2] == "25" && "25"[..1] == "2" && "2"[..0] == "";
  }

  lemma Year2024()
    ensures NatToString(2024) == "2024"
  {
    assert NatToString(2) == "2";
    assert NatToString(20) == "20";
    assert NatToString(202) == "202";
  }

  /** Day 5 of January 2567 BE is written `5-01-2024`. */
  lemma DueDateExample()
    ensures DueDate("5", "มกราคม", "2567") == "5-01-2024"
  {
    Year2567();
    Year2024();
    assert MonthNumber("มกราคม") == "01";
  }

  /** A name missing from the table is read as January. */
  lemma UnknownMonthIsJanuary(day: string, monthName: string, buddhistYear: string)
    requires AllDigits(buddhistYear) && monthName !in ThaiMonths
    ensures DueDate(day, monthName, buddhistYear)[|day|..|day| + 4] == "-01-"
  {
    DueDateFields(day, monthName, buddhistYear);
  }
}
