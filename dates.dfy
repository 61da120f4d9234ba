/**
 * The date types of the API schemas: `ISODatetime` values are forced to
 * UTC on input and written with a `Z` suffix, and `ISOYearMonth` strings
 * must have the shape `YYYY-MM` with a month from 01 to 12.
 */
module Dates {
  import opened Wrappers

  predicate IsDigit(c: char) { '0' <= c <= '9' }

  function DigitValue(c: char): (n: nat)
    requires IsDigit(c)
    ensures n < 10
  {
    (c - '0') as nat
  }

  /**
   * A Unicode decimal digit (general category Nd, Unicode 15.0), which is
   * what `\d` matches in a Python `str` pattern.
   */
  predicate IsDecimal(c: char)
  {
    IsDigit(c) || IsOtherDecimal(c)
  }

  /** The decimal digits outside ASCII, one zero-to-nine run per script. */
  predicate IsOtherDecimal(c: char)
  {
    ('\U{660}' <= c <= '\U{669}') || ('\U{6F0}' <= c <= '\U{6F9}')
    || ('\U{7C0}' <= c <= '\U{7C9}') || ('\U{966}' <= c <= '\U{96F}')
    || ('\U{9E6}' <= c <= '\U{9EF}') || ('\U{A66}' <= c <= '\U{A6F}')
    || ('\U{AE6}' <= c <= '\U{AEF}') || ('\U{B66}' <= c <= '\U{B6F}')
    || ('\U{BE6}' <= c <= '\U{BEF}') || ('\U{C66}' <= c <= '\U{C6F}')
    || ('\U{CE6}' <= c <= '\U{CEF}') || ('\U{D66}' <= c <= '\U{D6F}')
    || ('\U{DE6}' <= c <= '\U{DEF}') || ('\U{E50}' <= c <= '\U{E59}')
    || ('\U{ED0}' <= c <= '\U{ED9}') || ('\U{F20}' <= c <= '\U{F29}')
    || ('\U{1040}' <= c <= '\U{1049}') || ('\U{1090}' <= c <= '\U{1099}')
    || ('\U{17E0}' <= c <= '\U{17E9}') || ('\U{1810}' <= c <= '\U{1819}')
    || ('\U{1946}' <= c <= '\U{194F}') || ('\U{19D0}' <= c <= '\U{19D9}')
    || ('\U{1A80}' <= c <= '\U{1A89}') || ('\U{1A90}' <= c <= '\U{1A99}')
    || ('\U{1B50}' <= c <= '\U{1B59}') || ('\U{1BB0}' <= c <= '\U{1BB9}')
    || ('\U{1C40}' <= c <= '\U{1C49}') || ('\U{1C50}' <= c <= '\U{1C59}')
    || ('\U{A620}' <= c <= '\U{A629}') || ('\U{A8D0}' <= c <= '\U{A8D9}')
    || ('\U{A900}' <= c <= '\U{A909}') || ('\U{A9D0}' <= c <= '\U{A9D9}')
    || ('\U{A9F0}' <= c <= '\U{A9F9}') || ('\U{AA50}' <= c <= '\U{AA59}')
    || ('\U{ABF0}' <= c <= '\U{ABF9}') || ('\U{FF10}' <= c <= '\U{FF19}')
    || ('\U{104A0}' <= c <= '\U{104A9}') || ('\U{10D30}' <= c <= '\U{10D39}')
    || ('\U{11066}' <= c <= '\U{1106F}') || ('\U{110F0}' <= c <= '\U{110F9}')
    || ('\U{11136}' <= c <= '\U{1113F}') || ('\U{111D0}' <= c <= '\U{111D9}')
    || ('\U{112F0}' <= c <= '\U{112F9}') || ('\U{11450}' <= c <= '\U{11459}')
    || ('\U{114D0}' <= c <= '\U{114D9}') || ('\U{11650}' <= c <= '\U{11659}')
    || ('\U{116C0}' <= c <= '\U{116C9}') || ('\U{11730}' <= c <= '\U{11739}')
    || ('\U{118E0}' <= c <= '\U{118E9}') || ('\U{11950}' <= c <= '\U{11959}')
    || ('\U{11C50}' <= c <= '\U{11C59}') || ('\U{11D50}' <= c <= '\U{11D59}')
    || ('\U{11DA0}' <= c <= '\U{11DA9}') || ('\U{11F50}' <= c <= '\U{11F59}')
    || ('\U{16A60}' <= c <= '\U{16A69}') || ('\U{16AC0}' <= c <= '\U{16AC9}')
    || ('\U{16B50}' <= c <= '\U{16B59}') || ('\U{1D7CE}' <= c <= '\U{1D7FF}')
    || ('\U{1E140}' <= c <= '\U{1E149}') || ('\U{1E2F0}' <= c <= '\U{1E2F9}')
    || ('\U{1E4F0}' <= c <= '\U{1E4F9}') || ('\U{1E950}' <= c <= '\U{1E959}')
    || ('\U{1FBF0}' <= c <= '\U{1FBF9}')
  }

  /** `[1-9]` then `[0-2]` style month digits: the month part of the pattern is written with ASCII classes. */
  predicate IsMonth(a: char, b: char)
  {
    (a == '0' && '1' <= b <= '9') || (a == '1' && '0' <= b <= '2')
  }

  /** `\d{4}-(0[1-9]|1[0-2])` against exactly these seven characters, with ASCII digits only (the frontend's pattern). */
  predicate IsYearMonth(s: string)
  {
    && |s| == 7
    && IsDigit(s[0]) && IsDigit(s[1]) && IsDigit(s[2]) && IsDigit(s[3])
    && s[4] == '-' && IsMonth(s[5], s[6])
  }

  /** The same pattern as Python reads it: `\d` accepts any Unicode decimal digit. */
  predicate IsPyYearMonth(s: string)
  {
    && |s| == 7
    && IsDecimal(s[0]) && IsDecimal(s[1]) && IsDecimal(s[2]) && IsDecimal(s[3])
    && s[4] == '-' && IsMonth(s[5], s[6])
  }

  /**
   * The Python pattern stated by value: four decimal digits of any script, a
   * dash, and two ASCII digits naming a month from 1 to 12. With ASCII year
   * digits it is exactly the frontend's pattern.
   */
  lemma YearMonthMeaning(s: string)
    ensures IsPyYearMonth(s) <==>
      && |s| == 7
      && IsDecimal(s[0]) && IsDecimal(s[1]) && IsDecimal(s[2]) && IsDecimal(s[3])
      && s[4] == '-' && IsDigit(s[5]) && IsDigit(s[6])
      && 1 <= 10 * DigitValue(s[5]) + DigitValue(s[6]) <= 12
    ensures IsYearMonth(s) <==> IsPyYearMonth(s) && IsDigit(s[0]) && IsDigit(s[1]) && IsDigit(s[2]) && IsDigit(s[3])
  {
  }

  /**
   * `re.match(r'^\d{4}-(0[1-9]|1[0-2])$', v)`: `re.match` anchors at the
   * start, and `$` matches at the end of the string or just before a final
   * newline.
   */
  predicate MatchesYearMonth(v: string)
  {
    |v| >= 7 && IsPyYearMonth(v[..7]) && (|v| == 7 || (|v| == 8 && v[7] == '\n'))
  }

  /** A value handed to a `BeforeValidator`: a string, or anything else (named by its type). */
  datatype PyValue = PyStr(text: string) | PyOther(typeName: string)

  /** `_validate_year_month`: the input string itself, or the error message Pydantic reports. */
  function ValidateYearMonth(v: PyValue): (r: Result<string, string>)
    ensures v.PyOther? ==> r == Err("YearMonth must be a string")
    ensures r.Ok? ==> v.PyStr? && r.value == v.text
    ensures v.PyStr? ==> (r.Ok? <==> MatchesYearMonth(v.text))
    ensures v.PyStr? && r.Err? ==> r.error == "Invalid format. Expected YYYY-MM"
  {
    match v
    case PyOther(_) => Err("YearMonth must be a string")
    case PyStr(s) => if MatchesYearMonth(s) then Ok(s) else Err("Invalid format. Expected YYYY-MM")
  }

  /** What is accepted: a well-formed year-month, optionally followed by one newline that is kept in the value. */
  lemma AcceptedYearMonths(s: string)
    ensures ValidateYearMonth(PyStr(s)).Ok? <==> IsPyYearMonth(s) || (|s| == 8 && IsPyYearMonth(s[..7]) && s[7] == '\n')
  {
    if |s| == 7 {
      assert s[..7] == s;
    }
  }

  lemma YearMonthExamples()
    ensures ValidateYearMonth(PyStr("2025-12")) == Ok("2025-12")
    ensures ValidateYearMonth(PyStr("2025-12\n")) == Ok("2025-12\n")
    ensures ValidateYearMonth(PyStr("\U{FF12}\U{FF10}\U{FF12}\U{FF15}-12")) == Ok("\U{FF12}\U{FF10}\U{FF12}\U{FF15}-12")
    ensures ValidateYearMonth(PyStr("2025-00")).Err?
    ensures ValidateYearMonth(PyStr("2025-13")).Err?
    ensures ValidateYearMonth(PyStr("2025-1")).Err?
    ensures ValidateYearMonth(PyStr("2025-\U{FF11}\U{FF12}")).Err?
  {
    assert "2025-12\n"[..7] == "2025-12";
    assert "\U{FF12}\U{FF10}\U{FF12}\U{FF15}-12"[..7] == "\U{FF12}\U{FF10}\U{FF12}\U{FF15}-12";
    assert "2025-00"[..7] == "2025-00";
    assert "2025-13"[..7] == "2025-13";
    assert "2025-\U{FF11}\U{FF12}"[..7] == "2025-\U{FF11}\U{FF12}";
  }

  // ---------------------------------------------------------------- ISODatetime

  /**
   * A `datetime`: its wall-clock reading in seconds and, when it is aware,
   * its offset from UTC in seconds.
   */
  datatype DateTime = DateTime(wall: int, offset: Option<int>)

  /** The instant an aware datetime denotes. */
  function Instant(d: DateTime): int
    requires d.offset.Some?
  {
    d.wall - d.offset.value
  }

  datatype DateInput = TextInput(text: string) | DateTimeInput(value: DateTime) | OtherInput(typeName: string)

  /**
   * `_force_utc`. `fromIsoFormat` is `datetime.fromisoformat` (`None` where
   * it raises); the messages carry the offending value, which is elided here.
   */
  function ForceUtc(v: DateInput, fromIsoFormat: string -> Option<DateTime>): (r: Result<DateTime, string>)
    ensures v.OtherInput? ==> r.Err?
    ensures v.TextInput? ==> (r.Err? <==> fromIsoFormat(v.text).None?)
    ensures r.Ok? ==> r.value.offset == Some(0)
  {
    var parsed :=
      match v
      case TextInput(s) =>
        (match fromIsoFormat(s)
         case Some(d) => Ok(d)
         case None => Err("Invalid ISO format datetime string"))
      case DateTimeInput(d) => Ok(d)
      case OtherInput(_) => Err("Expected datetime or ISO string");
    if parsed.Err? then Err(parsed.error)
    else
      var d := parsed.value;
      var aware := if d.offset.None? then d.(offset := Some(0)) else d;
      Ok(DateTime(Instant(aware), Some(0)))
  }

  /**
   * A naive datetime is taken to be UTC already: its clock reading is kept,
   * not shifted. An aware one is converted: the instant is kept.
   */
  lemma ForceUtcMeaning(d: DateTime, fromIsoFormat: string -> Option<DateTime>)
    ensures d.offset.None? ==> ForceUtc(DateTimeInput(d), fromIsoFormat) == Ok(DateTime(d.wall, Some(0)))
    ensures d.offset.Some? ==> ForceUtc(DateTimeInput(d), fromIsoFormat).Ok?
    ensures d.offset.Some? ==> Instant(ForceUtc(DateTimeInput(d), fromIsoFormat).value) == Instant(d)
  {
  }

  /** Validating an already validated value changes nothing. */
  lemma ForceUtcIdempotent(v: DateInput, fromIsoFormat: string -> Option<DateTime>)
    requires ForceUtc(v, fromIsoFormat).Ok?
    ensures ForceUtc(DateTimeInput(ForceUtc(v, fromIsoFormat).value), fromIsoFormat) == ForceUtc(v, fromIsoFormat)
  {
  }

  /** `str.replace(pattern, replacement)`: every occurrence, left to right, without overlaps. */
  function ReplaceAll(s: string, pattern: string, replacement: string): (r: string)
    requires pattern != []
    decreases |s|
  {
    if |s| < |pattern| then s
    else if s[..|pattern|] == pattern then replacement + ReplaceAll(s[|pattern|..], pattern, replacement)
    else [s[0]] + ReplaceAll(s[1..], pattern, replacement)
  }

  /** `_serialize_zulu`, given the text `isoformat()` produces. */
  function SerializeZulu(isoText: string): string
  {
    ReplaceAll(isoText, "+00:00", "Z")
  }

  /**
   * `isoformat()` of a UTC datetime is its date and time followed by
   * `+00:00`; that suffix becomes `Z` and nothing before it changes.
   */
  lemma {:induction false} ZuluSuffix(body: string)
    requires forall i :: 0 <= i < |body| ==> body[i] != '+'
    ensures SerializeZulu(body + "+00:00") == body + "Z"
  {
    if body == [] {
      assert body + "+00:00" == "+00:00";
    } else {
      var s := body + "+00:00";
      assert s[0] == body[0] != '+';
      assert s[..6] != "+00:00";
      assert s[1..] == body[1..] + "+00:00";
      ZuluSuffix(body[1..]);
    }
  }
}
