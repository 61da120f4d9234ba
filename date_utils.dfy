/**
 * The client's branded date strings: `ISODate` (`YYYY-MM-DD`),
 * `ISODatetime` (`YYYY-MM-DDTHH:MM:SS[.fff]Z`) and `ISOYearMonth`
 * (`YYYY-MM`), with the regex checks that guard them and the builders
 * that format them from numbers. The year-month helpers of the separate
 * `YearMonth` utility use the same pattern and the same formatting.
 * A JavaScript `$` without the `m` flag matches only at the very end.
 */
module DateUtils {
  import opened Wrappers
  import opened Text
  import opened Dates

  /** `(0[1-9]|[12]\d|3[01])` on two characters. */
  predicate IsDay(a: char, b: char)
  {
    (a == '0' && '1' <= b <= '9') || ((a == '1' || a == '2') && IsDigit(b)) || (a == '3' && (b == '0' || b == '1'))
  }

  /** `DATE_RE`. */
  predicate IsIsoDate(s: string)
  {
    |s| == 10 && IsYearMonth(s[..7]) && s[7] == '-' && IsDay(s[8], s[9])
  }

  /** `\d+`. */
  predicate AllDigits(s: string)
  {
    forall i :: 0 <= i < |s| ==> IsDigit(s[i])
  }

  /** `T\d{2}:\d{2}:\d{2}(\.\d+)?Z` after the date. */
  predicate IsTimeOfDay(t: string)
  {
    && |t| >= 10
    && t[0] == 'T' && IsDigit(t[1]) && IsDigit(t[2]) && t[3] == ':'
    && IsDigit(t[4]) && IsDigit(t[5]) && t[6] == ':' && IsDigit(t[7]) && IsDigit(t[8])
    && t[|t| - 1] == 'Z'
    && (|t| == 10 || (|t| >= 12 && t[9] == '.' && AllDigits(t[10..|t| - 1])))
  }

  /** `DATETIME_RE`. */
  predicate IsIsoDatetime(s: string)
  {
    |s| >= 20 && IsIsoDate(s[..10]) && IsTimeOfDay(s[10..])
  }

  /** `pad`: `String(n).padStart(2, '0')`. */
  function Pad(n: int): (r: string)
    ensures |r| >= 2
    ensures 0 <= n < 10 ==> r == ['0', (n + 48) as char]
    ensures 10 <= n < 100 ==> r == IntToString(n)
  {
    var s := IntToString(n);
    if |s| < 2 then ['0'] + s else s
  }

  /** `ISODate.fromParts`. */
  function DateFromParts(year: int, month: int, day: int): string
  {
    IntToString(year) + "-" + Pad(month) + "-" + Pad(day)
  }

  /** `ISOYearMonth.fromParts` and `YearMonth.fromParts`. */
  function YearMonthFromParts(year: int, month: int): string
  {
    IntToString(year) + "-" + Pad(month)
  }

  /** `parse`: the value itself when the pattern accepts it, otherwise the thrown message. */
  function Parse(value: string, accepts: bool, kind: string): (r: Result<string, string>)
    ensures r.Ok? <==> accepts
    ensures r.Ok? ==> r.value == value
    ensures r.Err? ==> r.error == "Invalid " + kind + ": " + value
  {
    if accepts then Ok(value) else Err("Invalid " + kind + ": " + value)
  }

  function ParseIsoDate(value: string): (r: Result<string, string>)
    ensures r.Ok? <==> IsIsoDate(value)
    ensures r.Ok? ==> r.value == value
  {
    Parse(value, IsIsoDate(value), "ISODate")
  }

  function ParseIsoDatetime(value: string): (r: Result<string, string>)
    ensures r.Ok? <==> IsIsoDatetime(value)
    ensures r.Ok? ==> r.value == value
  {
    Parse(value, IsIsoDatetime(value), "ISODatetime")
  }

  function ParseYearMonth(value: string, kind: string): (r: Result<string, string>)
    ensures r.Ok? <==> IsYearMonth(value)
    ensures r.Ok? ==> r.value == value
  {
    Parse(value, IsYearMonth(value), kind)
  }

  // ---------------------------------------------------------------- builders meet validators

  lemma FourDigitYear(year: int)
    requires 1000 <= year <= 9999
    ensures |IntToString(year)| == 4 && AllDigits(IntToString(year))
  {
  }

  lemma PaddedMonth(month: int)
    requires 1 <= month <= 12
    ensures |Pad(month)| == 2
    ensures (Pad(month)[0] == '0' && '1' <= Pad(month)[1] <= '9') || (Pad(month)[0] == '1' && '0' <= Pad(month)[1] <= '2')
  {
    if month >= 10 {
      assert IntToString(month) == [(month / 10 + 48) as char, (month % 10 + 48) as char];
    }
  }

  lemma PaddedDay(day: int)
    requires 1 <= day <= 31
    ensures |Pad(day)| == 2 && IsDay(Pad(day)[0], Pad(day)[1])
  {
    if day >= 10 {
      assert IntToString(day) == [(day / 10 + 48) as char, (day % 10 + 48) as char];
    }
  }

  /** `fromParts` output passes `is` for four-digit years and in-range months. */
  lemma YearMonthFromPartsValid(year: int, month: int)
    requires 1000 <= year <= 9999 && 1 <= month <= 12
    ensures IsYearMonth(YearMonthFromParts(year, month))
    ensures ParseYearMonth(YearMonthFromParts(year, month), "ISOYearMonth") == Ok(YearMonthFromParts(year, month))
  {
    FourDigitYear(year);
    PaddedMonth(month);
  }

  /** `ISODate.fromParts` output passes `ISODate.is` for four-digit years, months 1-12 and days 1-31. */
  lemma DateFromPartsValid(year: int, month: int, day: int)
    requires 1000 <= year <= 9999 && 1 <= month <= 12 && 1 <= day <= 31
    ensures IsIsoDate(DateFromParts(year, month, day))
  {
    var s := DateFromParts(year, month, day);
    YearMonthFromPartsValid(year, month);
    PaddedDay(day);
    assert s == YearMonthFromParts(year, month) + "-" + Pad(day);
    assert s[..7] == YearMonthFromParts(year, month);
  }

  /**
   * `pad` only pads to two characters, so a year from 0 to 999 yields a
   * string whose first dash comes too early: `is` rejects it, whatever the
   * month and day.
   */
  lemma ShortYearRejected(year: int, month: int, day: int)
    requires 0 <= year < 1000
    ensures !IsIsoDate(DateFromParts(year, month, day))
    ensures !IsYearMonth(YearMonthFromParts(year, month))
  {
    var y := IntToString(year);
    assert |y| < 4;
    var d := DateFromParts(year, month, day);
    var ym := YearMonthFromParts(year, month);
    assert d[|y|] == '-';
    assert ym[|y|] == '-';
    EarlyDash(d, |y|);
    EarlyDash(ym, |y|);
  }

  /** A dash among the first four characters leaves no room for the four year digits. */
  lemma EarlyDash(s: string, k: int)
    requires 0 <= k < 4 && k < |s| && s[k] == '-'
    ensures !IsYearMonth(s)
    ensures !IsIsoDate(s)
  {
    if |s| >= 7 {
      assert s[..7][k] == '-';
    }
  }

  /** The check is purely syntactic: the 31st of February passes. */
  lemma NoCalendarCheck()
    ensures IsIsoDate("2023-02-31")
  {
    assert "2023-02-31"[..7] == "2023-02";
  }

  /** Months `00` and `13` are rejected by every year-month check. */
  lemma BadMonthsRejected(year: string)
    requires |year| == 4
    ensures ParseYearMonth(year + "-00", "ISOYearMonth").Err?
    ensures ParseYearMonth(year + "-13", "YearMonth").Err?
  {
    assert (year + "-00")[5] == '0' && (year + "-00")[6] == '0';
    assert (year + "-13")[5] == '1' && (year + "-13")[6] == '3';
  }

  /** A datetime needs the `T` separator and the trailing `Z`; fractional seconds are optional. */
  lemma DatetimeShape(s: string)
    ensures IsIsoDatetime(s) ==> s[10] == 'T' && s[|s| - 1] == 'Z'
    ensures IsIsoDatetime(s) ==> IsIsoDatetime(s[..19] + "Z")
  {
    if IsIsoDatetime(s) {
      var t := s[..19] + "Z";
      assert t[..10] == s[..10];
      assert t[10..] == s[10..19] + "Z";
    }
  }

  /**
   * The frontend accepts only what the backend accepts. A seven-character
   * value the backend accepts passes the frontend too exactly when its year
   * is written in ASCII digits: Python's `\d` also takes the digits of other
   * scripts, the frontend's does not.
   */
  lemma YearMonthAgreement(s: string)
    ensures ParseYearMonth(s, "YearMonth").Ok? ==> ValidateYearMonth(PyStr(s)) == Ok(s)
    ensures ValidateYearMonth(PyStr(s)).Ok? && |s| == 7 ==>
      (ParseYearMonth(s, "YearMonth").Ok? <==> IsDigit(s[0]) && IsDigit(s[1]) && IsDigit(s[2]) && IsDigit(s[3]))
  {
    if |s| == 7 {
      assert s[..7] == s;
    }
  }

  /** A year in full-width digits is stored by the backend but refused by the frontend. */
  lemma FullWidthYearDisagrees()
    ensures ValidateYearMonth(PyStr("\U{FF12}\U{FF10}\U{FF12}\U{FF15}-12")).Ok?
    ensures ParseYearMonth("\U{FF12}\U{FF10}\U{FF12}\U{FF15}-12", "YearMonth").Err?
  {
    YearMonthAgreement("\U{FF12}\U{FF10}\U{FF12}\U{FF15}-12");
    Dates.YearMonthExamples();
  }
}
