/** The expense table: records, the candidate payload of a create, and the store invariant. */
module Expenses {
  import opened Calendar

  type UserId = nat
  type ExpenseId = nat

  /** One row of the expense table; `amount` is in cents. */
  datatype Expense = Expense(
    id: ExpenseId,
    user: UserId,
    title: string,
    amount: int,
    date: Date,
    category: string)

  /** The fields a create request supplies; the id is assigned by the store. */
  datatype Candidate = Candidate(
    user: UserId,
    title: string,
    amount: int,
    date: Date,
    category: string)

  /** The table's rows and the next value of its primary-key sequence, which never goes back. */
  datatype Store = Store(rows: seq<Expense>, nextId: ExpenseId)

  predicate UniqueIds(rows: seq<Expense>) {
    forall i, j :: 0 <= i < j < |rows| ==> rows[i].id != rows[j].id
  }

  /** Primary keys are unique and below the sequence; every row obeys the create rules. */
  predicate Wellformed(st: Store) {
    && UniqueIds(st.rows)
    && (forall e :: e in st.rows ==> e.id < st.nextId)
    && (forall e :: e in st.rows ==> e.amount > 0 && ValidDate(e.date))
  }

  /**
   * The field errors the serializer reports for a candidate: a non-positive
   * amount, a user that does not exist and a date that is not a calendar date,
   * together with `otherErrors`, the fields failing rules this model does not describe.
   */
  function FieldErrors(c: Candidate, users: set<UserId>, otherErrors: set<string>): (errs: set<string>)
    ensures "amount" in errs <== c.amount <= 0
    ensures "user" in errs <== c.user !in users
    ensures "date" in errs <== !ValidDate(c.date)
    ensures errs == {} ==> c.amount > 0 && c.user in users && ValidDate(c.date)
  {
    otherErrors
      + (if c.amount <= 0 then {"amount"} else {})
      + (if c.user !in users then {"user"} else {})
      + (if !ValidDate(c.date) then {"date"} else {})
  }

  /** The row `serializer.save()` writes: the candidate's fields under the next id. */
  function NewRecord(st: Store, c: Candidate): (e: Expense)
    ensures Wellformed(st) ==> forall x :: x in st.rows ==> x.id != e.id
  {
    Expense(st.nextId, c.user, c.title, c.amount, c.date, c.category)
  }

  /** A record whose key no other record has can be put in front. */
  lemma ConsUnique(x: Expense, rest: seq<Expense>)
    requires UniqueIds(rest)
    requires forall e :: e in rest ==> e.id != x.id
    ensures UniqueIds([x] + rest)
  {
    var rows := [x] + rest;
    forall i, j | 0 <= i < j < |rows|
      ensures rows[i].id != rows[j].id
    {
      assert rows[j] == rest[j - 1];
      if i > 0 {
        assert rows[i] == rest[i - 1];
      }
    }
  }

  /** Appending a record under the next id keeps the store well formed. */
  lemma InsertKeepsWellformed(st: Store, c: Candidate)
    requires c.amount > 0 && ValidDate(c.date)
    ensures Wellformed(st) ==> Wellformed(Store(st.rows + [NewRecord(st, c)], st.nextId + 1))
  {
  }
}
