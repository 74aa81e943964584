# Expense manager: validators and view semantics

This project models the core of a small REST service for personal expenses.
The service creates, lists, retrieves and deletes expense records. It also
answers two queries: the expenses of one user within a date range, and one
user's spend per category in a given month.

The model covers two parts of the code:

- The two reusable validators in `expenses/utils.py`:
  - `parse_month` is built on Python's `int()`.
  - `validate_date_range` is built on `datetime.strptime(s, "%Y-%m-%d")`.
- The `get`/`post`/`delete` methods of the four views in `expenses/views.py`.
  Each is a pure function of an in-memory store.
  - The store (`Expenses.Store`) holds a sequence of `Expense` rows and the
    next value of the primary-key sequence.
  - Each view returns a `Views.Response`, which pairs the HTTP status with
    the payload. The views that write also return the new store.

Modules, leaves first:

| module | file | models |
|---|---|---|
| `Wrappers` | wrappers.dfy | `Option`, `Result`, `Outcome`: Python's return-or-raise |
| `Digits` | digits.dfy | ASCII digits, the value of a digit string, decimal rendering |
| `PyInt` | pyint.dfy | `int(s)` in base 10: whitespace, sign, digits with `_` separators |
| `Calendar` | calendar.dfy | `datetime.date`: leap years, month lengths, MINYEAR..MAXYEAR, field order, `toordinal()` |
| `Strptime` | strptime.dfy | `strptime(s, "%Y-%m-%d").date()`: how CPython's regular expression matches, the leftover-text check, calendar validity |
| `Utils` | utils.dfy | `parse_month`, `validate_date_range` and their re-raised messages |
| `Seqs` | seqs.dfy | an order-preserving `Filter`, the model of a queryset `filter(...)` |
| `Expenses` | expenses.dfy | `Expense`, the create payload `Candidate`, the store and its invariant, the serializer's field errors |
| `Summary` | summary.dfy | `values('category').annotate(total=Sum('amount'))` as a group-by-sum |
| `Views` | views.dfy | list, create, retrieve, delete, date range, category summary |
| `Scenarios` | scenarios.dfy | the three-expense fixture of the view tests, and what each view answers on it |

Conventions:

- Amounts are integer cents.
- Dates are `Calendar.Date(year, month, day)` values. They are ordered by
  comparing the fields lexicographically, which is how Python compares
  `datetime` values. `Calendar.DateLeIsChronological` proves that this
  order is the order of `toordinal()`.
- Query results are compared as multisets, because the database promises no
  order.
- `date__range=[a, b]` is the inclusive test `a <= date <= b`.
- `date__month=m` compares only the month field of the date, in any year.

Three behaviours of the code are easy to misread:

- The summary view never calls `parse_month`. It applies `int()` to an
  argument the URL converter has already made a non-negative integer. It then
  rejects months outside 1..12 with its own message, "Month must be between 1
  and 12.". `Views.SummaryMonthCheckMatchesParseMonth` proves that both checks
  accept the same months.
- The detail views do not answer 404 for an absent key. `get_object_or_404`
  raises `Http404`, which is an ordinary exception. It is raised inside the
  method that `log_request_and_exception` wraps, and that wrapper turns every
  exception into a 500. `Views.RetrieveAsWritten` and `Views.DeleteAsWritten`
  model this behaviour. `Views.Retrieve` and `Views.Delete` model the intended
  404. The cross-operation lemmas use the intended views, except
  `Views.RetrieveAfterDeleteAsWritten`, which states the 500 the code gives.
  See "## Findings".
- `validate_date_range` keeps the inner error's text. It re-raises that text
  behind the prefix "Invalid date format: ". `parse_month` does not keep it:
  it replaces every failure with the one message "Invalid month format.".

## Model

| member | source | states |
|---|---|---|
| `Utils.ParseMonth` | expense_manager/expenses/utils.py:14-22 | succeeds exactly when `int(s)` yields n with 1 <= n <= 12, returning n; every failure, including the inner range error, carries the single message "Invalid month format." |
| `Utils.ParseMonthOfShow` | expense_manager/expenses/utils.py:14-18 | on the decimal text of any integer n, parse_month returns n when 1 <= n <= 12 and fails with "Invalid month format." otherwise |
| `Utils.MonthBoundsAccepted` | expense_manager/expenses/utils.py:17-18 | the bounds are inclusive: "1" and "12" are accepted |
| `Utils.MonthNeighboursRejected` | expense_manager/expenses/utils.py:17-22 | "0" and "13" are rejected with the fixed message |
| `Utils.ParseMonthIgnoresSpace` | expense_manager/expenses/utils.py:16 | space, tab, newline, vertical tab, form feed and carriage return around the text do not change the outcome, as with `int()` |
| `Utils.TabAndNewlineSkipped` | expense_manager/expenses/utils.py:16-18 | "\t5\n" is month 5 |
| `Utils.ZeroPaddingWithinDigitLimit` | expense_manager/expenses/utils.py:16-18 | "5" padded with zeros to 4300 digits is month 5 |
| `Utils.ZeroPaddingBeyondDigitLimit` | expense_manager/expenses/utils.py:16-22 | "5" padded with zeros to 4301 digits is rejected with "Invalid month format.": leading zeros count toward the limit |
| `Utils.SeparatorIsNotSpace` | expense_manager/expenses/utils.py:16-22 | "\x1c5" is rejected with "Invalid month format.", because `int()` does not skip the separator \x1c |
| `PyInt.ParseInt` | expense_manager/expenses/utils.py:16 | `int()` on plain decimal text gives its value when the text has at most 4300 digits and raises beyond that; on empty or blank text it raises; its partners are `PyInt.ParseShowInt` and `PyInt.ParseIntIgnoresSpace` |
| `PyInt.ParseShowInt` | expense_manager/expenses/utils.py:16 | `int(str(n)) == n` for every integer n of at most 4300 digits; `int()` raises on the text of a longer one |
| `PyInt.ParseIntIgnoresSpace` | expense_manager/expenses/utils.py:16 | `int()` ignores leading and trailing ASCII whitespace (space and \t \n \v \f \r) |
| `Utils.ValidateDateRange` | expense_manager/expenses/utils.py:4-11 | returns without error exactly when both strings parse as calendar dates and start <= end; every failure's message begins "Invalid date format: "; with both dates parsed the message is "Invalid date format: Start date cannot be later than end date."; a bad start reports the start's own parse error |
| `Utils.EqualDatesAccepted` | expense_manager/expenses/utils.py:8 | a range whose start equals its end is accepted, because the comparison is strict |
| `Utils.ValidateFormattedRange` | expense_manager/expenses/utils.py:6-9 | on formatted valid dates the validator accepts exactly when the start's ordinal is at most the end's, and rejects the inverted pair with the start-after-end message |
| `Utils.InvalidDayRejected` | expense_manager/expenses/utils.py:6-11 | 2023-02-29 fails parsing, and the failure surfaces behind the "Invalid date format: " prefix |
| `Strptime.ParseDate` | expense_manager/expenses/utils.py:6-7 | a parsed date is always a valid calendar date with year 1..9999; the accepted text is 8 to 10 characters long |
| `Strptime.ParseFormatFields` | expense_manager/expenses/utils.py:6-7 | for every zero-padded YYYY-MM-DD text: month 00 or 13-99 and day 00 do not match, day 32-99 leaves data unconverted, year 0000 is out of range, a day past the month's length is rejected, and anything else parses to exactly those fields |
| `Strptime.ParseFormatDate` | expense_manager/expenses/utils.py:6 | every valid date survives `isoformat` followed by parsing |
| `Strptime.LeapDaysAccepted` | expense_manager/expenses/utils.py:6-7 | 29 February parses in the leap years 2024 and 2000 |
| `Strptime.CommonYearLeapDayRejected` | expense_manager/expenses/utils.py:6-7 | 29 February is rejected in 2023 and in 1900, a century that is not a leap year |
| `Strptime.InvalidFieldExamples` | expense_manager/expenses/utils.py:6-7 | day 31 of April, month 13, year 0000 and day 32 are rejected |
| `Strptime.LooseFormExamples` | expense_manager/expenses/views.py:60-61 | single-digit and space-padded fields are accepted; trailing text, a two-digit year and the empty string are not |
| `Calendar.DateLeIsChronological` | expense_manager/expenses/utils.py:8 | comparing (year, month, day) lexicographically is comparing the dates' ordinals |
| `Calendar.DateLeTotalOrder` | expense_manager/expenses/views.py:65 | the date order is reflexive, antisymmetric, transitive and total |
| `Seqs.Filter` | expense_manager/expenses/views.py:65 | the selection holds each element meeting the condition exactly as often as the input does, and no other element |
| `Views.ListAll` | expense_manager/expenses/views.py:16-19 | answers 200 with every stored expense: same multiset of records, so the length equals the store size |
| `Views.ListCountsWrites` | expense_manager/expenses/views.py:16-19 | after a successful create the list is one longer; after a successful delete it is one shorter |
| `Expenses.FieldErrors` | expense_manager/expenses/views.py:23-24 | a non-positive amount, an unknown user or an invalid date each produce an error on that field; no errors means all three rules hold |
| `Expenses.NewRecord` | expense_manager/expenses/views.py:25 | in a well-formed store, the key of the saved row is held by no stored record |
| `Expenses.InsertKeepsWellformed` | expense_manager/expenses/views.py:25 | appending a valid candidate under the next key keeps keys unique and below the sequence, amounts positive and dates valid |
| `Views.Create` | expense_manager/expenses/views.py:22-27 | 201 exactly when the payload has no field errors; invalid payload: 400 with the field errors and the store unchanged; amount <= 0 always gives 400 naming `amount`; success: 201 with the saved record, store grown by exactly that record, whose key no stored record has |
| `Views.RetrieveAfterCreate` | expense_manager/expenses/views.py:22-26 | a created record is retrieved under its new key |
| `Views.WithId` | expense_manager/expenses/views.py:36 | selects exactly the rows with the key; in a well-formed store there is at most one |
| `Views.UniqueIdsAtMostOne` | expense_manager/expenses/views.py:36 | with unique keys at most one row has a given key |
| `Views.GetObject` | expense_manager/expenses/views.py:36 | raises Http404 exactly when no record has the key; otherwise returns the one stored record with that key; a well-formed store never raises MultipleObjectsReturned |
| `Views.Retrieve` | expense_manager/expenses/views.py:35-38 | intended view: 404 exactly when no record has the key; 200 returns a stored record with that key; a well-formed store never gives 500 |
| `Views.RetrieveAsWritten` | expense_manager/expenses/views.py:34-38 | as written: an absent key gives 500, because the wrapper catches the Http404; in a well-formed store 500 happens exactly for absent keys; a 200 is the intended answer |
| `Views.Delete` | expense_manager/expenses/views.py:41-44 | intended view: 404 exactly when the key is absent, with the store unchanged; 204 removes one copy of the one record with that key, keeps every other record and the key sequence, and keeps the store well formed |
| `Views.DeleteAsWritten` | expense_manager/expenses/views.py:40-44 | as written: an absent key gives 500 with the store unchanged; a 204 is the intended answer with the intended store |
| `Views.AbsentKeyAnswers500` | expense_manager/expenses/logging.py:21-24 | on the empty table, get and delete of any key answer 500 as written and 404 as intended, and neither writes |
| `Views.PresentKeyViewsAgree` | expense_manager/expenses/views.py:35-44 | for a key present in a well-formed store, the as-written and intended detail views answer alike |
| `Views.RemoveOne` | expense_manager/expenses/views.py:42-43 | removing the only record with the key takes one copy of it out of the multiset and leaves every record with another key |
| `Views.FilterKeepsWellformed` | expense_manager/expenses/views.py:43 | removing rows from a well-formed store leaves it well formed |
| `Views.RetrieveAfterDelete` | expense_manager/expenses/views.py:41-44 | once a record is deleted, the intended detail view answers 404 for its key |
| `Views.RetrieveAfterDeleteAsWritten` | expense_manager/expenses/views.py:35-44 | once a record is deleted, the detail view as written answers 500 "Internal Server Error" for its key, because the wrapper catches the Http404 |
| `Views.DateRange` | expense_manager/expenses/views.py:52-67 | 400 "Both start and end dates are required." when either parameter is missing or empty; 400 "Invalid date format. Use YYYY-MM-DD." when either fails to parse; when both parse, 200 with, as a multiset, exactly the user's records dated from start to end inclusive |
| `Views.DateRangeRejectsWithoutStore` | expense_manager/expenses/views.py:53-63 | the rejections are 400 and do not depend on the store |
| `Views.InvertedRangeAnswersEmpty` | expense_manager/expenses/views.py:59-67 | with start after end, the view answers 200 with an empty list instead of an error |
| `Views.InvertedRangeExample` | expense_manager/expenses/views.py:59-67 | start=2024-11-11, end=2024-11-01 gives 200 with no records on any store |
| `Views.DateRangeChecked` | expense_manager/expenses/views.py:59-65 | corrected view: 200 exactly when both parameters are given and the validator accepts them, then the same answer as the as-written view; otherwise 400 with the validator's message |
| `Views.CheckedRejectsInverted` | expense_manager/expenses/utils.py:8-11 | the corrected view rejects an inverted range with "Invalid date format: Start date cannot be later than end date." |
| `Views.CategorySummary` | expense_manager/expenses/views.py:75-88 | 400 exactly for a month outside 1..12; 404 exactly when no record of the user falls in that month of any year; otherwise 200 with the group-by-category sums of those records |
| `Views.SummaryMonthCheckMatchesParseMonth` | expense_manager/expenses/views.py:77-79 | the view's own month check rejects exactly the months parse_month rejects |
| `Views.SummaryConservesAmounts` | expense_manager/expenses/views.py:83-88 | the summary's totals add up to the sum of the amounts of the matching records |
| `Summary.Categories` | expense_manager/expenses/views.py:87 | lists each category present in the records exactly once |
| `Summary.GroupByCategory` | expense_manager/expenses/views.py:87 | one entry per distinct category of the records, no category twice and none missing, each total the sum of that category's amounts |
| `Summary.TotalsAddUp` | expense_manager/expenses/views.py:87 | the totals of the group-by add up to the sum of all amounts grouped |
| `Scenarios.FixtureWellformed` | expense_manager/expenses/tests/test_views.py:9-34 | the three-expense fixture is a well-formed store |
| `Scenarios.ListScenario` | expense_manager/expenses/tests/test_views.py:50-54 | listing the fixture gives 200 and three records |
| `Scenarios.RangeScenario` | expense_manager/expenses/tests/test_views.py:68-72 | 2024-11-01..2024-11-11 returns all three records, both bounds included |
| `Scenarios.SummaryScenario` | expense_manager/expenses/tests/test_views.py:74-79 | November's summary has Food 15.50 and Travel 30.00 |
| `Scenarios.DeleteScenario` | expense_manager/expenses/tests/test_views.py:62-66 | deleting the first record gives 204 as written, and no row with its key remains; with the intended detail view the key then answers 404 |
| `Scenarios.CreateScenarios` | expense_manager/expenses/tests/test_views.py:36-92 | amount 50.00 gives 201; amount -100.00 gives 400 naming `amount` and leaves the store unchanged |
| `Scenarios.SummaryIgnoresYear` | expense_manager/expenses/views.py:83 | November 2023 and November 2024 are summed together |

## Findings

| source | as written | input that shows it | evidently intended | confidence | as-written member | corrected member |
|---|---|---|---|---|---|---|
| expense_manager/expenses/views.py:36 | `get_object_or_404` raises Http404 inside the wrapped method; the wrapper's `except Exception` (logging.py:21-24) turns it into 500 "Internal Server Error" | GET /expenses/1/ on an empty table | 404, as the framework answers an Http404 that reaches it | high; not executed | `Views.AbsentKeyAnswers500` | `Views.Retrieve` |
| expense_manager/expenses/views.py:42 | the same catch turns the Http404 of a delete on an absent key into 500 | DELETE /expenses/1/ on an empty table | 404, with nothing deleted | high; not executed | `Views.AbsentKeyAnswers500` | `Views.Delete` |
| expense_manager/expenses/views.py:59-67 | the view parses `start` and `end` but never compares them; the validator that does (utils.py:8) is not called | start=2024-11-11, end=2024-11-01 | 400 with "Invalid date format: Start date cannot be later than end date." | medium (the author may have wanted the loose behaviour); not executed | `Views.InvertedRangeExample` | `Views.DateRangeChecked` |

## Left out

- Logging (expense_manager/expenses/logging.py): the log lines and the wall-clock timing are not modelled. The wrapper's one effect on answers is that any exception becomes a 500 with "Internal Server Error" (`Views.LogAndCatch`). Only the detail views can raise in the model, so only they are passed through it. The list, create, date-range and summary views return without raising, and for them the wrapper changes nothing.
- Django's own 500 page for an exception that reaches the framework is modelled as the bare payload `ServerFault`. In the model this happens only when a key is duplicated, which a well-formed store rules out.
- Routing (expense_manager/expenses/urls.py): only one fact is used. The `<int:...>` converters deliver non-negative integers, so `pk`, `user_id` and `month` are `nat`. That makes the non-integer branch of the summary view (views.py:80-81) unreachable, so it is not modelled.
- Serializer and model internals, which are not part of this model:
  - the "50.00" two-decimal rendering of amounts;
  - the text of the field error messages (field names only);
  - the text form of the create payload's date.
  The rules the serializer evidently applies are modelled: amount > 0, the user exists, and the date is a calendar date. Every other rule comes in as the `otherErrors` parameter of `Views.Create`.
- Users are managed outside the service. They come in as the `users` parameter of `Views.Create`.
- Database internals: results are compared as multisets, and the order of summary rows is not modelled. Id generation is modelled as a sequence that never reuses a value, not as any particular allocator. Transactions and concurrent requests are not modelled.
- `PyInt.ParseInt`: Python's `int()` also accepts non-ASCII decimal digits and non-ASCII whitespace; only the ASCII subset is modelled.
- `PyInt.ParseInt`: the digit limit is fixed at its default of 4300. Changing it through `sys.set_int_max_str_digits` or `PYTHONINTMAXSTRDIGITS` is not modelled, and neither are Python versions before 3.11, which had no limit.
- `PyInt.ShowInt`: `str(n)` raises ValueError for an integer of more than 4300 digits, but `ShowInt` renders it. `ParseShowInt` therefore says that such a text makes `int()` raise, where Python would already have raised in `str()`.
- `Strptime.ParseDate`: CPython's `\d` also matches non-ASCII decimal digits; only ASCII digits are modelled.
- `Utils.Detail`: the inner text of strptime's own errors (no match, unconverted data, year or day out of range) is a summary of CPython's wording. It omits the quoted input that CPython includes. The prefix and the start-after-end text are exact.
- Repeated query parameters (Django's `QueryDict.get` takes the last value) are not modelled; each parameter is one optional string.
