/**
 * `datetime.strptime(s, "%Y-%m-%d")` followed by `.date()`. The format
 * compiles to the regular expression
 *   (\d\d\d\d) - (1[0-2]|0[1-9]|[1-9]) - (3[01]|[12]\d|0[1-9]|[1-9]| [1-9])
 * matched at the start of `s`; the first alternative that matches wins, any
 * characters left over are an error, and the fields must then form a date
 * `datetime.date` accepts.
 */
module Strptime {
  import opened Wrappers
  import opened Digits
  import opened Calendar

  /** Why strptime raises ValueError. */
  datatype DateError =
    | NoMatch          // the text does not match the format
    | UnconvertedData  // the format matched a proper prefix only
    | YearOutOfRange   // year 0000
    | DayOutOfRange    // e.g. 02-29 of a common year, 04-31

  /** Length of the `%m` field starting at index 5, with the '-' after it, or 0 when none matches. */
  function MonthFieldLength(s: string): (n: nat)
    ensures n <= 2
    ensures n > 0 ==> |s| > 6 + n - 1 && s[5 + n] == '-'
  {
    if |s| >= 8 && s[5] == '1' && '0' <= s[6] <= '2' && s[7] == '-' then 2
    else if |s| >= 8 && s[5] == '0' && '1' <= s[6] <= '9' && s[7] == '-' then 2
    else if |s| >= 7 && '1' <= s[5] <= '9' && s[6] == '-' then 1
    else 0
  }

  /** Length of the `%d` field starting at index `p` (first matching alternative), or 0. */
  function DayFieldLength(s: string, p: nat): (n: nat)
    requires p <= |s|
    ensures n <= 2 && p + n <= |s|
  {
    if p + 2 <= |s| && s[p] == '3' && '0' <= s[p + 1] <= '1' then 2
    else if p + 2 <= |s| && '1' <= s[p] <= '2' && IsDigit(s[p + 1]) then 2
    else if p + 2 <= |s| && s[p] == '0' && '1' <= s[p + 1] <= '9' then 2
    else if p + 1 <= |s| && '1' <= s[p] <= '9' then 1
    else if p + 2 <= |s| && s[p] == ' ' && '1' <= s[p + 1] <= '9' then 2
    else 0
  }

  /** The value of a one- or two-digit field; a leading space counts as nothing, as in `int(" 5")`. */
  function FieldValue(s: string, p: nat, n: nat): (v: nat)
    requires 1 <= n <= 2 && p + n <= |s|
    requires n == 1 ==> IsDigit(s[p])
    requires n == 2 ==> (IsDigit(s[p]) || s[p] == ' ') && IsDigit(s[p + 1])
    ensures v < 100
  {
    if n == 1 then DigitValue(s[p])
    else if s[p] == ' ' then DigitValue(s[p + 1])
    else 10 * DigitValue(s[p]) + DigitValue(s[p + 1])
  }

  /** `datetime.strptime(s, "%Y-%m-%d").date()`. */
  function ParseDate(s: string): (r: Result<Date, DateError>)
    ensures r.Success? ==> ValidDate(r.value)
    ensures r.Success? ==> 8 <= |s| <= 10
  {
    if !(|s| >= 5 && AllDigits(s[..4]) && s[4] == '-') then
      Failure(NoMatch)
    else
      var ml := MonthFieldLength(s);
      if ml == 0 then
        Failure(NoMatch)
      else
        var p := 6 + ml;
        var dl := DayFieldLength(s, p);
        if dl == 0 then
          Failure(NoMatch)
        else if p + dl < |s| then
          Failure(UnconvertedData)
        else
          assert IsDigit(s[..4][0]) && IsDigit(s[..4][1]) && IsDigit(s[..4][2]) && IsDigit(s[..4][3]);
          var year := 1000 * DigitValue(s[0]) + 100 * DigitValue(s[1]) + 10 * DigitValue(s[2]) + DigitValue(s[3]);
          var month := FieldValue(s, 5, ml);
          var day := FieldValue(s, p, dl);
          if year < MinYear then
            Failure(YearOutOfRange)
          else if day > DaysInMonth(year, month) then
            Failure(DayOutOfRange)
          else
            Success(Date(year, month, day))
  }

  function TwoDigits(n: nat): (s: string)
    requires n < 100
    ensures |s| == 2 && AllDigits(s)
  {
    [DigitChar(n / 10), DigitChar(n % 10)]
  }

  /** Zero-padded YYYY-MM-DD text of any field values below 10000, 100 and 100. */
  function FormatFields(y: nat, m: nat, d: nat): (s: string)
    requires y < 10000 && m < 100 && d < 100
    ensures |s| == 10 && s[4] == '-' && s[7] == '-'
  {
    TwoDigits(y / 100) + TwoDigits(y % 100) + "-" + TwoDigits(m) + "-" + TwoDigits(d)
  }

  /** `date.isoformat()`. */
  function FormatDate(d: Date): (s: string)
    requires ValidDate(d)
    ensures |s| == 10
  {
    FormatFields(d.year, d.month, d.day)
  }

  /**
   * How strptime treats every zero-padded YYYY-MM-DD text: month 00 or 13-99
   * does not match, day 00 does not match, day 32-99 leaves a digit over,
   * year 0000 is out of range and a day past the month's end is rejected.
   */
  lemma ParseFormatFields(y: nat, m: nat, d: nat)
    requires y < 10000 && m < 100 && d < 100
    ensures ParseDate(FormatFields(y, m, d)) ==
      if !(1 <= m <= 12) || d == 0 then Failure(NoMatch)
      else if d > 31 then Failure(UnconvertedData)
      else if y < MinYear then Failure(YearOutOfRange)
      else if d > DaysInMonth(y, m) then Failure(DayOutOfRange)
      else Success(Date(y, m, d))
  {
    var s := FormatFields(y, m, d);
    assert s[..4] == TwoDigits(y / 100) + TwoDigits(y % 100);
    assert 1000 * DigitValue(s[0]) + 100 * DigitValue(s[1]) + 10 * DigitValue(s[2]) + DigitValue(s[3]) == y;
    if 1 <= m <= 12 {
      assert MonthFieldLength(s) == 2;
      assert FieldValue(s, 5, 2) == m;
      if 1 <= d <= 31 {
        assert DayFieldLength(s, 8) == 2;
        assert FieldValue(s, 8, 2) == d;
      } else if d > 31 {
        assert DayFieldLength(s, 8) == 1;
      }
    } else {
      assert MonthFieldLength(s) == 0;
    }
  }

  /** Every valid date survives formatting and parsing back. */
  lemma ParseFormatDate(d: Date)
    requires ValidDate(d)
    ensures ParseDate(FormatDate(d)) == Success(d)
  {
    ParseFormatFields(d.year, d.month, d.day);
  }

  /** Leap days: 2024 and 2000 have a 29 February. */
  lemma LeapDaysAccepted()
    ensures ParseDate("2024-02-29") == Success(Date(2024, 2, 29))
    ensures ParseDate("2000-02-29") == Success(Date(2000, 2, 29))
  {
    assert FormatFields(2024, 2, 29) == "2024-02-29";
    ParseFormatFields(2024, 2, 29);
    assert FormatFields(2000, 2, 29) == "2000-02-29";
    ParseFormatFields(2000, 2, 29);
  }

  /** 2023 and 1900 are common years: no 29 February. */
  lemma CommonYearLeapDayRejected()
    ensures ParseDate("2023-02-29") == Failure(DayOutOfRange)
    ensures ParseDate("1900-02-29") == Failure(DayOutOfRange)
  {
    assert FormatFields(2023, 2, 29) == "2023-02-29";
    ParseFormatFields(2023, 2, 29);
    assert FormatFields(1900, 2, 29) == "1900-02-29";
    ParseFormatFields(1900, 2, 29);
  }

  /** Day 31 of a 30-day month, month 13 and year 0000 are rejected. */
  lemma InvalidFieldExamples()
    ensures ParseDate("2024-04-31") == Failure(DayOutOfRange)
    ensures ParseDate("2024-13-01") == Failure(NoMatch)
    ensures ParseDate("0000-01-01") == Failure(YearOutOfRange)
    ensures ParseDate("2024-11-32") == Failure(UnconvertedData)
  {
    ParseFormatFields(2024, 4, 31);
    assert FormatFields(2024, 4, 31) == "2024-04-31";
    ParseFormatFields(2024, 13, 1);
    assert FormatFields(2024, 13, 1) == "2024-13-01";
    ParseFormatFields(0, 1, 1);
    assert FormatFields(0, 1, 1) == "0000-01-01";
    ParseFormatFields(2024, 11, 32);
    assert FormatFields(2024, 11, 32) == "2024-11-32";
  }

  /** Forms looser than YYYY-MM-DD that strptime still accepts, and ones it does not. */
  lemma LooseFormExamples()
    ensures ParseDate("2024-1-5") == Success(Date(2024, 1, 5))
    ensures ParseDate("2024-11- 5") == Success(Date(2024, 11, 5))
    ensures ParseDate("2024-11-01x") == Failure(UnconvertedData)
    ensures ParseDate("24-11-01") == Failure(NoMatch)
    ensures ParseDate("") == Failure(NoMatch)
  {
    assert "2024-1-5"[..4] == "2024";
    assert "2024-11- 5"[..4] == "2024";
    assert "2024-11-01x"[..4] == "2024";
    assert !IsDigit("24-11-01"[..4][2]);
  }
}
