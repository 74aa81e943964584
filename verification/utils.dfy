/** The reusable validators `parse_month` and `validate_date_range`. */
module Utils {
  import opened Wrappers
  import opened Digits
  import opened PyInt
  import opened Calendar
  import opened Strptime

  /** The ValueError raised inside `parse_month`'s try block. */
  datatype MonthProblem =
    | NotAnInteger   // raised by int()
    | OutOfRange     // "Month must be between 1 and 12."

  /** The one message every `parse_month` failure carries after the re-raise. */
  const InvalidMonthFormat := "Invalid month format."

  /** The try block of `parse_month`: int(), then the inclusive 1..12 check. */
  function ParseMonthBody(s: string): Result<int, MonthProblem> {
    match ParseInt(s)
    case None => Failure(NotAnInteger)
    case Some(m) => if 1 <= m <= 12 then Success(m) else Failure(OutOfRange)
  }

  /** `parse_month(s)`: the month `s` denotes, or ValueError("Invalid month format."). */
  function ParseMonth(s: string): (r: Result<int, string>)
    ensures r.Success? <==> ParseInt(s).Some? && 1 <= ParseInt(s).value <= 12
    ensures r.Success? ==> r.value == ParseInt(s).value
    ensures r.Failure? ==> r.error == InvalidMonthFormat
  {
    match ParseMonthBody(s)
    case Success(m) => Success(m)
    case Failure(_) => Failure(InvalidMonthFormat)
  }

  /** On the decimal rendering of any integer, parse_month accepts exactly 1..12. */
  lemma {:induction false} ParseMonthOfShow(n: int)
    ensures ParseMonth(ShowInt(n)) == if 1 <= n <= 12 then Success(n) else Failure(InvalidMonthFormat)
  {
    var s := ShowInt(n);
    ParseShowInt(n);
    MonthTextIsShort(n);
    if |Magnitude(n)| <= MaxStrDigits {
      ParseMonthOfInt(s, n);
    } else {
      ParseMonthOfNone(s);
    }
  }

  lemma ParseMonthOfInt(s: string, v: int)
    requires ParseInt(s) == Some(v)
    ensures ParseMonth(s) == if 1 <= v <= 12 then Success(v) else Failure(InvalidMonthFormat)
  {
  }

  lemma ParseMonthOfNone(s: string)
    requires ParseInt(s) == None
    ensures ParseMonth(s) == Failure(InvalidMonthFormat)
  {
  }

  /** A month is written with at most two digits, far within the digit limit. */
  lemma MonthTextIsShort(n: int)
    ensures 1 <= n <= 12 ==> |Magnitude(n)| <= 2
  {
    if 10 <= n <= 12 {
      assert Magnitude(n) == ShowNat(n / 10) + [DigitChar(n % 10)];
    }
  }

  /** Both bounds are inclusive: 1 and 12 are months. */
  lemma MonthBoundsAccepted()
    ensures ParseMonth("1") == Success(1)
    ensures ParseMonth("12") == Success(12)
  {
    assert ShowInt(1) == "1";
    ParseMonthOfShow(1);
    assert ShowInt(12) == ShowNat(1) + [DigitChar(2)] == "12";
    ParseMonthOfShow(12);
  }

  /** The neighbours of the bounds, 0 and 13, are not. */
  lemma MonthNeighboursRejected()
    ensures ParseMonth("0") == Failure(InvalidMonthFormat)
    ensures ParseMonth("13") == Failure(InvalidMonthFormat)
  {
    assert ShowInt(0) == "0";
    ParseMonthOfShow(0);
    ThirteenRejected();
  }

  lemma ThirteenRejected()
    ensures ParseMonth("13") == Failure(InvalidMonthFormat)
  {
    assert ShowInt(13) == ShowNat(1) + [DigitChar(3)] == "13";
    ParseMonthOfShow(13);
  }

  /** Surrounding whitespace is ignored, as int() ignores it. */
  lemma {:induction false} ParseMonthIgnoresSpace(pre: string, s: string, post: string)
    requires AllSpace(pre) && AllSpace(post)
    ensures ParseMonth(pre + s + post) == ParseMonth(s)
  {
    ParseIntIgnoresSpace(pre, s, post);
  }

  /** Tab and newline around a month are skipped. */
  lemma TabAndNewlineSkipped()
    ensures ParseMonth("\t5\n") == Success(5)
  {
    assert "\t5\n" == "\t" + "5" + "\n";
    ParseMonthIgnoresSpace("\t", "5", "\n");
    assert ShowInt(5) == "5";
    ParseMonthOfShow(5);
  }

  /** The file separator \x1c is not whitespace to `int()`, so "\x1c5" is no month. */
  lemma SeparatorIsNotSpace()
    ensures ParseMonth([28 as char] + "5") == Failure(InvalidMonthFormat)
  {
    var t := [28 as char] + "5";
    assert !IsSpace(t[0]) && !IsSpace(t[1]);
    StripUnchanged(t);
    assert !WellGrouped(t);
  }

  /** `n` zeros. */
  function Zeros(n: nat): (z: string)
    ensures |z| == n && AllDigits(z) && Value(z) == 0
  {
    if n == 0 then [] else
      var z := Zeros(n - 1) + "0";
      assert z[..|z| - 1] == Zeros(n - 1);
      z
  }

  /** Zero padding counts toward the digit limit: 4300 digits are a month... */
  lemma ZeroPaddingWithinDigitLimit()
    ensures ParseMonth(Zeros(MaxStrDigits - 1) + "5") == Success(5)
  {
    var within := Zeros(MaxStrDigits - 1) + "5";
    assert within[..|within| - 1] == Zeros(MaxStrDigits - 1);
    assert AllDigits(within) && Value(within) == 5;
    ParseMonthOfInt(within, 5);
  }

  /** ...and 4301 are not. */
  lemma ZeroPaddingBeyondDigitLimit()
    ensures ParseMonth(Zeros(MaxStrDigits) + "5") == Failure(InvalidMonthFormat)
  {
    var beyond := Zeros(MaxStrDigits) + "5";
    assert AllDigits(beyond) && |beyond| > MaxStrDigits;
    ParseMonthOfNone(beyond);
  }

  /** What went wrong in `validate_date_range` before the re-raise. */
  datatype RangeProblem =
    | BadDate(reason: DateError)
    | StartAfterEnd

  const InvalidDatePrefix := "Invalid date format: "
  const StartAfterEndText := "Start date cannot be later than end date."

  /** The text of the inner ValueError; for strptime's own errors a summary of CPython's wording. */
  function Detail(p: RangeProblem): string {
    match p
    case StartAfterEnd => StartAfterEndText
    case BadDate(NoMatch) => "time data does not match format '%Y-%m-%d'"
    case BadDate(UnconvertedData) => "unconverted data remains"
    case BadDate(YearOutOfRange) => "year 0 is out of range"
    case BadDate(DayOutOfRange) => "day is out of range for month"
  }

  /** The try block of `validate_date_range`: parse start, parse end, compare. */
  function DateRangeBody(start: string, end: string): Outcome<RangeProblem> {
    match ParseDate(start)
    case Failure(e) => Fail(BadDate(e))
    case Success(s) =>
      match ParseDate(end)
      case Failure(e) => Fail(BadDate(e))
      case Success(t) => if !DateLe(s, t) then Fail(StartAfterEnd) else Pass
  }

  /** `validate_date_range(start, end)`: None, or the re-raised ValueError's message. */
  function ValidateDateRange(start: string, end: string): (r: Outcome<string>)
    ensures r.Pass? <==>
      && ParseDate(start).Success?
      && ParseDate(end).Success?
      && DateLe(ParseDate(start).value, ParseDate(end).value)
    ensures r.Fail? ==> InvalidDatePrefix <= r.error
    ensures r.Fail? && ParseDate(start).Success? && ParseDate(end).Success? ==>
      r.error == InvalidDatePrefix + StartAfterEndText
    ensures r.Fail? && ParseDate(start).Failure? ==>
      r.error == InvalidDatePrefix + Detail(BadDate(ParseDate(start).error))
  {
    match DateRangeBody(start, end)
    case Pass => Pass
    case Fail(p) => Fail(InvalidDatePrefix + Detail(p))
  }

  /** A one-day range is valid: the comparison is strict. */
  lemma EqualDatesAccepted(s: string)
    requires ParseDate(s).Success?
    ensures ValidateDateRange(s, s) == Pass
  {
  }

  /** On formatted dates the validator accepts exactly the chronologically ordered pairs. */
  lemma {:induction false} ValidateFormattedRange(a: Date, b: Date)
    requires ValidDate(a) && ValidDate(b)
    ensures ValidateDateRange(FormatDate(a), FormatDate(b)).Pass? <==> Ordinal(a) <= Ordinal(b)
    ensures Ordinal(a) > Ordinal(b) ==>
      ValidateDateRange(FormatDate(a), FormatDate(b)) == Fail(InvalidDatePrefix + StartAfterEndText)
  {
    ParseFormatDate(a);
    ParseFormatDate(b);
    DateLeIsChronological(a, b);
  }

  /** A calendar-invalid day is reported through the same prefix. */
  lemma InvalidDayRejected()
    ensures ValidateDateRange("2023-02-29", "2023-03-01") ==
      Fail(InvalidDatePrefix + "day is out of range for month")
  {
    CommonYearLeapDayRejected();
  }
}
