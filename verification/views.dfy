/**
 * The four API views as pure functions of the store: each returns the HTTP
 * status with its payload, and the two that write also return the new store.
 */
module Views {
  import opened Wrappers
  import opened Seqs
  import opened Calendar
  import opened Strptime
  import opened PyInt
  import opened Utils
  import opened Expenses
  import opened Summary

  /** The payloads the views send. */
  datatype Body =
    | Records(items: seq<Expense>)           // a serialized list of expenses
    | Record(item: Expense)                  // one serialized expense
    | Invalid(fields: set<string>)           // serializer.errors: the offending field names
    | Error(error: string)                   // {"error": ...}
    | Message(message: string)               // {"message": ...}
    | NotFound                               // the framework's answer to Http404
    | ServerFault                            // Django's own page for an unhandled exception
    | Totals(totals: seq<CategoryTotal>)     // the category summary
    | NoContent

  datatype Response = Response(status: nat, body: Body)

  const RequiredDatesText := "Both start and end dates are required."
  const DateFormatText := "Invalid date format. Use YYYY-MM-DD."
  const MonthRangeText := "Month must be between 1 and 12."
  const NoExpensesText := "No expenses found for the specified month."
  /** The body the request wrapper sends for any exception escaping a view. */
  const ServerErrorText := "Internal Server Error"

  /** GET /expenses/: every stored expense. */
  function ListAll(st: Store): (r: Response)
    ensures r.status == 200 && r.body.Records?
    ensures |r.body.items| == |st.rows|
    ensures multiset(r.body.items) == multiset(st.rows)
  {
    Response(200, Records(st.rows))
  }

  /** POST /expenses/: 201 with the saved record, or 400 with the field errors and no write. */
  function Create(st: Store, c: Candidate, users: set<UserId>, otherErrors: set<string>): (r: (Response, Store))
    ensures var errs := FieldErrors(c, users, otherErrors);
      errs != {} ==> r.0 == Response(400, Invalid(errs)) && r.1 == st
    ensures r.0.status == 201 <==> FieldErrors(c, users, otherErrors) == {}
    ensures c.amount <= 0 ==> r.0.status == 400 && r.0.body.Invalid? && "amount" in r.0.body.fields
    ensures r.0.status == 201 ==>
      && r.0.body.Record?
      && r.1.rows == st.rows + [r.0.body.item]
      && r.0.body.item.amount == c.amount && r.0.body.item.date == c.date
      && r.0.body.item.user == c.user && r.0.body.item.category == c.category
      && r.0.body.item.title == c.title
    ensures r.0.status == 201 || r.0.status == 400
    ensures Wellformed(st) ==> Wellformed(r.1)
    ensures Wellformed(st) && r.0.status == 201 ==>
      forall e :: e in st.rows ==> e.id != r.0.body.item.id
  {
    var errs := FieldErrors(c, users, otherErrors);
    if errs != {} then
      (Response(400, Invalid(errs)), st)
    else
      var e := NewRecord(st, c);
      InsertKeepsWellformed(st, c);
      (Response(201, Record(e)), Store(st.rows + [e], st.nextId + 1))
  }

  /** The rows whose primary key is `pk`. */
  function WithId(st: Store, pk: ExpenseId): (rs: seq<Expense>)
    ensures forall e :: e in rs <==> e in st.rows && e.id == pk
    ensures Wellformed(st) ==> |rs| <= 1
  {
    UniqueIdsAtMostOne(st.rows, pk);
    Filter(st.rows, (e: Expense) => e.id == pk)
  }

  lemma {:induction false} UniqueIdsAtMostOne(rows: seq<Expense>, pk: ExpenseId)
    ensures UniqueIds(rows) ==> |Filter(rows, (e: Expense) => e.id == pk)| <= 1
  {
    if |rows| > 0 && UniqueIds(rows) {
      assert UniqueIds(rows[1..]);
      UniqueIdsAtMostOne(rows[1..], pk);
      if rows[0].id == pk {
        assert forall e :: e in rows[1..] ==> e.id != pk;
        FilterNone(rows[1..], (e: Expense) => e.id == pk);
      }
    }
  }

  /** The exceptions a view method can raise. */
  datatype Raised =
    | Http404                  // get_object_or_404 found no row
    | MultipleObjectsReturned  // get_object_or_404 found several rows

  /**
   * The request wrapper every view method is decorated with: a raised
   * exception of any class, Http404 included, becomes a 500.
   */
  function LogAndCatch(r: Result<Response, Raised>): Response {
    match r
    case Success(resp) => resp
    case Failure(_) => Response(500, Error(ServerErrorText))
  }

  /**
   * How the framework answers an exception that reaches it: Http404 becomes
   * a 404, anything else Django's own 500 page.
   */
  function FrameworkHandles(r: Result<Response, Raised>): Response {
    match r
    case Success(resp) => resp
    case Failure(Http404) => Response(404, NotFound)
    case Failure(MultipleObjectsReturned) => Response(500, ServerFault)
  }

  /** `get_object_or_404(Expense, pk=pk)`. */
  function GetObject(st: Store, pk: ExpenseId): (r: Result<Expense, Raised>)
    ensures r == Failure(Http404) <==> forall e :: e in st.rows ==> e.id != pk
    ensures r.Success? ==> r.value in st.rows && r.value.id == pk && WithId(st, pk) == [r.value]
    ensures Wellformed(st) ==> r != Failure(MultipleObjectsReturned)
  {
    var rs := WithId(st, pk);
    if |rs| == 0 then
      Failure(Http404)
    else if |rs| == 1 then
      assert rs[0] in rs;
      Success(rs[0])
    else
      assert rs[0] in rs;
      Failure(MultipleObjectsReturned)
  }

  /** The body of `ExpenseDetailView.get`: the record, or what get_object_or_404 raised. */
  function RetrieveBody(st: Store, pk: ExpenseId): Result<Response, Raised> {
    match GetObject(st, pk)
    case Success(e) => Success(Response(200, Record(e)))
    case Failure(x) => Failure(x)
  }

  /** GET /expenses/{pk}/ as intended: 200 with the record, or 404 when the key is absent. */
  function Retrieve(st: Store, pk: ExpenseId): (r: Response)
    ensures r.status == 404 <==> forall e :: e in st.rows ==> e.id != pk
    ensures r.status == 200 ==> r.body.Record? && r.body.item in st.rows && r.body.item.id == pk
    ensures Wellformed(st) ==> r.status != 500
    ensures r.status in {200, 404, 500}
  {
    FrameworkHandles(RetrieveBody(st, pk))
  }

  /** GET /expenses/{pk}/ as written: the wrapper turns the Http404 of an absent key into a 500. */
  function RetrieveAsWritten(st: Store, pk: ExpenseId): (r: Response)
    ensures (forall e :: e in st.rows ==> e.id != pk) ==> r == Response(500, Error(ServerErrorText))
    ensures Wellformed(st) ==> (r.status == 500 <==> forall e :: e in st.rows ==> e.id != pk)
    ensures r.status == 200 ==> r == Retrieve(st, pk)
    ensures r.status in {200, 500}
  {
    LogAndCatch(RetrieveBody(st, pk))
  }

  /** The body of `ExpenseDetailView.delete`; nothing is written when get_object_or_404 raises. */
  function DeleteBody(st: Store, pk: ExpenseId): (r: (Result<Response, Raised>, Store))
    ensures r.0.Failure? ==> r.1 == st
  {
    match GetObject(st, pk)
    case Success(target) => (Success(Response(204, NoContent)), Store(RemoveOne(st, pk, target), st.nextId))
    case Failure(x) => (Failure(x), st)
  }

  /** DELETE /expenses/{pk}/ as intended: 204 after removing exactly the record with key `pk`, else 404. */
  function Delete(st: Store, pk: ExpenseId): (r: (Response, Store))
    ensures r.0.status != 204 ==> r.1 == st
    ensures r.0.status == 404 <==> forall e :: e in st.rows ==> e.id != pk
    ensures Wellformed(st) ==> r.0.status != 500
    ensures r.0.status in {204, 404, 500}
    ensures r.0.status == 204 ==>
      && r.0.body == NoContent
      && r.1.nextId == st.nextId
      && (exists target :: target in st.rows && target.id == pk
            && multiset(r.1.rows) + multiset{target} == multiset(st.rows))
      && (forall e :: e in r.1.rows ==> e.id != pk)
      && (forall e: Expense :: e.id != pk ==> (e in r.1.rows <==> e in st.rows))
    ensures Wellformed(st) ==> Wellformed(r.1)
  {
    var (outcome, st') := DeleteBody(st, pk);
    (FrameworkHandles(outcome), st')
  }

  /** DELETE /expenses/{pk}/ as written: an absent key is a 500, with the store unchanged. */
  function DeleteAsWritten(st: Store, pk: ExpenseId): (r: (Response, Store))
    ensures (forall e :: e in st.rows ==> e.id != pk) ==> r == (Response(500, Error(ServerErrorText)), st)
    ensures r.0.status == 204 ==> r == Delete(st, pk)
    ensures r.0.status in {204, 500}
  {
    var (outcome, st') := DeleteBody(st, pk);
    (LogAndCatch(outcome), st')
  }

  /** On the empty table both detail views answer 500 for any key, where 404 is meant. */
  lemma AbsentKeyAnswers500(pk: ExpenseId)
    ensures RetrieveAsWritten(Store([], 1), pk) == Response(500, Error(ServerErrorText))
    ensures Retrieve(Store([], 1), pk) == Response(404, NotFound)
    ensures DeleteAsWritten(Store([], 1), pk) == (Response(500, Error(ServerErrorText)), Store([], 1))
    ensures Delete(Store([], 1), pk) == (Response(404, NotFound), Store([], 1))
  {
  }

  /** For a key that is present in a well-formed store the as-written and intended views agree. */
  lemma PresentKeyViewsAgree(st: Store, pk: ExpenseId)
    requires Wellformed(st)
    requires exists e :: e in st.rows && e.id == pk
    ensures RetrieveAsWritten(st, pk) == Retrieve(st, pk)
    ensures DeleteAsWritten(st, pk) == Delete(st, pk)
  {
  }

  /** The rows left once the only record with key `pk`, `target`, is removed. */
  function RemoveOne(st: Store, pk: ExpenseId, target: Expense): (rest: seq<Expense>)
    requires WithId(st, pk) == [target]
    ensures target in st.rows && target.id == pk
    ensures multiset(rest) + multiset{target} == multiset(st.rows)
    ensures forall e :: e in rest ==> e.id != pk
    ensures forall e: Expense :: e.id != pk ==> (e in rest <==> e in st.rows)
    ensures Wellformed(st) ==> Wellformed(Store(rest, st.nextId))
  {
    var rs := WithId(st, pk);
    var rest := Filter(st.rows, (e: Expense) => e.id != pk);
    assert target in rs;
    assert forall x :: (multiset(rest) + multiset{target})[x] == multiset(st.rows)[x] by {
      forall x
        ensures (multiset(rest) + multiset{target})[x] == multiset(st.rows)[x]
      {
        assert multiset(rs)[x] == if x.id == pk then multiset(st.rows)[x] else 0;
      }
    }
    FilterKeepsWellformed(st, (e: Expense) => e.id != pk);
    rest
  }

  /** Removing rows keeps the store well formed. */
  lemma {:induction false} FilterKeepsWellformed(st: Store, p: Expense -> bool)
    ensures Wellformed(st) ==> Wellformed(Store(Filter(st.rows, p), st.nextId))
    decreases |st.rows|
  {
    if |st.rows| > 0 && Wellformed(st) {
      var tail := Store(st.rows[1..], st.nextId);
      FilterKeepsWellformed(tail, p);
      assert UniqueIds(tail.rows);
      var rest := Filter(tail.rows, p);
      assert forall e :: e in rest ==> e.id != st.rows[0].id by {
        forall e | e in rest
          ensures e.id != st.rows[0].id
        {
          var k :| 0 <= k < |tail.rows| && tail.rows[k] == e;
          assert st.rows[k + 1] == e;
        }
      }
      if p(st.rows[0]) {
        ConsUnique(st.rows[0], rest);
      }
    }
  }

  /** A present parameter that Python does not read as false. */
  predicate Given(p: Option<string>) {
    p.Some? && |p.value| > 0
  }

  /** The records of `user` dated from `start` to `end`, both ends included (`date__range`). */
  function InRange(rows: seq<Expense>, user: UserId, start: Date, end: Date): seq<Expense> {
    Filter(rows, (e: Expense) => e.user == user && DateLe(start, e.date) && DateLe(e.date, end))
  }

  /** GET /expenses/date-range/{user}/?start=&end=, as written: the order of the bounds is not checked. */
  function DateRange(st: Store, user: UserId, start: Option<string>, end: Option<string>): (r: Response)
    ensures !Given(start) || !Given(end) ==> r == Response(400, Error(RequiredDatesText))
    ensures Given(start) && Given(end) && (ParseDate(start.value).Failure? || ParseDate(end.value).Failure?) ==>
      r == Response(400, Error(DateFormatText))
    ensures r.status == 200 || r.status == 400
    ensures Given(start) && Given(end) && ParseDate(start.value).Success? && ParseDate(end.value).Success? ==>
      r.status == 200
    ensures r.status == 200 ==>
      && Given(start) && Given(end)
      && ParseDate(start.value).Success? && ParseDate(end.value).Success?
      && r.body.Records?
      && forall e :: multiset(r.body.items)[e] ==
           if e.user == user && DateLe(ParseDate(start.value).value, e.date)
                             && DateLe(e.date, ParseDate(end.value).value)
           then multiset(st.rows)[e] else 0
  {
    if !Given(start) || !Given(end) then
      Response(400, Error(RequiredDatesText))
    else
      match (ParseDate(start.value), ParseDate(end.value))
      case (Success(s), Success(t)) => Response(200, Records(InRange(st.rows, user, s, t)))
      case _ => Response(400, Error(DateFormatText))
  }

  /** The rejections of the date-range view do not depend on the store. */
  lemma DateRangeRejectsWithoutStore(st1: Store, st2: Store, user: UserId, start: Option<string>, end: Option<string>)
    requires !Given(start) || !Given(end) || ParseDate(start.value).Failure? || ParseDate(end.value).Failure?
    ensures DateRange(st1, user, start, end) == DateRange(st2, user, start, end)
    ensures DateRange(st1, user, start, end).status == 400
  {
  }

  /** With start after end no date lies between them: 200 with an empty list, not an error. */
  lemma {:induction false} InvertedRangeAnswersEmpty(st: Store, user: UserId, start: string, end: string)
    requires ParseDate(start).Success? && ParseDate(end).Success?
    requires !DateLe(ParseDate(start).value, ParseDate(end).value)
    ensures DateRange(st, user, Some(start), Some(end)) == Response(200, Records([]))
  {
    var s, t := ParseDate(start).value, ParseDate(end).value;
    assert |start| > 0 && |end| > 0;
    forall e | e in st.rows
      ensures !(e.user == user && DateLe(s, e.date) && DateLe(e.date, t))
    {
      DateLeTotalOrder(s, e.date, t);
    }
    FilterNone(st.rows, (e: Expense) => e.user == user && DateLe(s, e.date) && DateLe(e.date, t));
  }

  /** The inverted range 2024-11-11 .. 2024-11-01 is answered with 200 and no records. */
  lemma InvertedRangeExample(st: Store, user: UserId)
    ensures DateRange(st, user, Some("2024-11-11"), Some("2024-11-01")) == Response(200, Records([]))
  {
    ParseFormatFields(2024, 11, 11);
    assert FormatFields(2024, 11, 11) == "2024-11-11";
    ParseFormatFields(2024, 11, 1);
    assert FormatFields(2024, 11, 1) == "2024-11-01";
    InvertedRangeAnswersEmpty(st, user, "2024-11-11", "2024-11-01");
  }

  /**
   * The date-range view with `validate_date_range` wired in: an inverted range
   * is a 400 carrying the validator's message.
   */
  function DateRangeChecked(st: Store, user: UserId, start: Option<string>, end: Option<string>): (r: Response)
    ensures r.status == 200 <==>
      && Given(start) && Given(end)
      && ValidateDateRange(start.value, end.value).Pass?
    ensures r.status == 200 ==> r == DateRange(st, user, start, end)
    ensures Given(start) && Given(end) && ValidateDateRange(start.value, end.value).Fail? ==>
      r == Response(400, Error(ValidateDateRange(start.value, end.value).error))
    ensures !Given(start) || !Given(end) ==> r == Response(400, Error(RequiredDatesText))
  {
    if !Given(start) || !Given(end) then
      Response(400, Error(RequiredDatesText))
    else
      match ValidateDateRange(start.value, end.value)
      case Fail(msg) => Response(400, Error(msg))
      case Pass => DateRange(st, user, start, end)
  }

  /** The corrected view rejects exactly the inverted ranges the as-written view answers with 200. */
  lemma CheckedRejectsInverted(st: Store, user: UserId, start: string, end: string)
    requires ParseDate(start).Success? && ParseDate(end).Success?
    requires !DateLe(ParseDate(start).value, ParseDate(end).value)
    ensures DateRangeChecked(st, user, Some(start), Some(end)) ==
      Response(400, Error(InvalidDatePrefix + StartAfterEndText))
  {
  }

  /** The records of `user` dated in month `month` of any year (`date__month`). */
  function InMonth(rows: seq<Expense>, user: UserId, month: nat): seq<Expense> {
    Filter(rows, (e: Expense) => e.user == user && e.date.month == month)
  }

  /** GET /expenses/summary/{user}/{month}/: per-category totals of the user's records in that month. */
  function CategorySummary(st: Store, user: UserId, month: nat): (r: Response)
    ensures r.status == 400 <==> !(1 <= month <= 12)
    ensures r.status == 400 ==> r.body == Error(MonthRangeText)
    ensures r.status == 404 <==>
      1 <= month <= 12 && forall e :: e in st.rows ==> !(e.user == user && e.date.month == month)
    ensures r.status == 404 ==> r.body == Message(NoExpensesText)
    ensures r.status in {200, 400, 404}
    ensures r.status == 200 ==> r.body == Totals(GroupByCategory(InMonth(st.rows, user, month)))
  {
    if month < 1 || month > 12 then
      Response(400, Error(MonthRangeText))
    else
      var matches := InMonth(st.rows, user, month);
      if |matches| == 0 then
        Response(404, Message(NoExpensesText))
      else
        assert matches[0] in matches;
        Response(200, Totals(GroupByCategory(matches)))
  }

  /** A summary's totals add up to the sum of the amounts it summarises. */
  lemma {:induction false} SummaryConservesAmounts(st: Store, user: UserId, month: nat)
    requires CategorySummary(st, user, month).status == 200
    ensures SumTotals(CategorySummary(st, user, month).body.totals) == Total(InMonth(st.rows, user, month))
  {
    TotalsAddUp(InMonth(st.rows, user, month));
  }

  /** The summary view's month check and `parse_month` accept the same months. */
  lemma {:induction false} SummaryMonthCheckMatchesParseMonth(st: Store, user: UserId, month: nat)
    ensures CategorySummary(st, user, month).status == 400 <==> ParseMonth(ShowInt(month)).Failure?
  {
    ParseMonthOfShow(month);
  }

  /** Once a record is deleted its key is not found again. */
  lemma {:induction false} RetrieveAfterDelete(st: Store, pk: ExpenseId)
    requires Wellformed(st)
    requires Delete(st, pk).0.status == 204
    ensures Retrieve(Delete(st, pk).1, pk).status == 404
  {
  }

  /** As written, the deleted key then answers 500: the wrapper catches the Http404. */
  lemma {:induction false} RetrieveAfterDeleteAsWritten(st: Store, pk: ExpenseId)
    requires Wellformed(st)
    requires Delete(st, pk).0.status == 204
    ensures RetrieveAsWritten(Delete(st, pk).1, pk) == Response(500, Error(ServerErrorText))
  {
  }

  /** A created record can be retrieved under the key it was given. */
  lemma {:induction false} RetrieveAfterCreate(st: Store, c: Candidate, users: set<UserId>, otherErrors: set<string>)
    requires Wellformed(st)
    requires Create(st, c, users, otherErrors).0.status == 201
    ensures var (resp, st') := Create(st, c, users, otherErrors);
      Retrieve(st', resp.body.item.id) == Response(200, Record(resp.body.item))
  {
    var (resp, st') := Create(st, c, users, otherErrors);
    var e := resp.body.item;
    var rs := WithId(st', e.id);
    assert e in rs;
    assert |rs| == 1;
    assert rs[0] in rs;
  }

  /** Creating then listing shows one more record; deleting then listing shows one fewer. */
  lemma {:induction false} ListCountsWrites(st: Store, c: Candidate, users: set<UserId>, otherErrors: set<string>, pk: ExpenseId)
    ensures Create(st, c, users, otherErrors).0.status == 201 ==>
      |ListAll(Create(st, c, users, otherErrors).1).body.items| == |st.rows| + 1
    ensures Delete(st, pk).0.status == 204 ==>
      |ListAll(Delete(st, pk).1).body.items| + 1 == |st.rows|
  {
    if Delete(st, pk).0.status == 204 {
      var rest := Delete(st, pk).1.rows;
      var target :| target in st.rows && multiset(rest) + multiset{target} == multiset(st.rows);
      assert |multiset(rest) + multiset{target}| == |multiset(st.rows)|;
    }
  }
}
