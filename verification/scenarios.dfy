/** The fixture of the view tests — three expenses of one user in November 2024 — and what the views answer on it. */
module Scenarios {
  import opened Wrappers
  import opened Seqs
  import opened Calendar
  import opened Strptime
  import opened Expenses
  import opened Summary
  import opened Views

  const Owner: UserId := 1

  const Lunch := Expense(1, Owner, "Lunch", 1550, Date(2024, 11, 10), "Food")
  const Taxi := Expense(2, Owner, "Taxi", 3000, Date(2024, 11, 11), "Travel")
  const Electricity := Expense(3, Owner, "Electricity Bill", 7550, Date(2024, 11, 1), "Utilities")

  const Fixture := Store([Lunch, Taxi, Electricity], 4)

  lemma FixtureWellformed()
    ensures Wellformed(Fixture)
  {
  }

  /** Listing returns the three records. */
  lemma ListScenario()
    ensures ListAll(Fixture).status == 200 && |ListAll(Fixture).body.items| == 3
  {
  }

  /** 2024-11-01 .. 2024-11-11 holds all three records, both bounds included. */
  lemma RangeScenario()
    ensures DateRange(Fixture, Owner, Some("2024-11-01"), Some("2024-11-11")) == Response(200, Records(Fixture.rows))
  {
    ParseNovemberBounds();
    FilterAll(Fixture.rows, (e: Expense) => e.user == Owner && DateLe(Date(2024, 11, 1), e.date) && DateLe(e.date, Date(2024, 11, 11)));
  }

  lemma ParseNovemberBounds()
    ensures ParseDate("2024-11-01") == Success(Date(2024, 11, 1))
    ensures ParseDate("2024-11-11") == Success(Date(2024, 11, 11))
  {
    assert FormatFields(2024, 11, 1) == "2024-11-01";
    ParseFormatFields(2024, 11, 1);
    assert FormatFields(2024, 11, 11) == "2024-11-11";
    ParseFormatFields(2024, 11, 11);
  }

  /** November's summary has a Food total of 15.50 and a Travel total of 30.00. */
  lemma SummaryScenario()
    ensures CategorySummary(Fixture, Owner, 11).status == 200
    ensures CategoryTotal("Food", 1550) in CategorySummary(Fixture, Owner, 11).body.totals
    ensures CategoryTotal("Travel", 3000) in CategorySummary(Fixture, Owner, 11).body.totals
  {
    NovemberIsEverything();
    var ts := GroupByCategory(Fixture.rows);
    FixtureCategories();
    FoodAndTravel();
    TotalCons(Lunch, []);
    TotalCons(Taxi, []);
    assert ts[0] == CategoryTotal("Food", 1550);
    assert ts[1] == CategoryTotal("Travel", 3000);
  }

  lemma NovemberIsEverything()
    ensures InMonth(Fixture.rows, Owner, 11) == Fixture.rows
  {
    FilterAll(Fixture.rows, (e: Expense) => e.user == Owner && e.date.month == 11);
  }

  lemma FixtureCategories()
    ensures Categories(Fixture.rows) == ["Food", "Travel", "Utilities"]
  {
    assert Fixture.rows == [Lunch] + ([Taxi] + ([Electricity] + []));
    CategoriesCons(Electricity, []);
    CategoriesCons(Taxi, [Electricity]);
    CategoriesCons(Lunch, [Taxi, Electricity]);
  }

  lemma FoodAndTravel()
    ensures OfCategory(Fixture.rows, "Food") == [Lunch]
    ensures OfCategory(Fixture.rows, "Travel") == [Taxi]
  {
    OnlyLunchIsFood();
    OnlyTaxiIsTravel();
  }

  lemma OnlyLunchIsFood()
    ensures OfCategory(Fixture.rows, "Food") == [Lunch]
  {
    var food := (e: Expense) => e.category == "Food";
    assert Fixture.rows == [Lunch] + [Taxi, Electricity];
    assert [Taxi, Electricity] == [Taxi] + [Electricity];
    FilterNone([Taxi, Electricity], food);
    FilterCons(Lunch, [Taxi, Electricity], food);
  }

  lemma OnlyTaxiIsTravel()
    ensures OfCategory(Fixture.rows, "Travel") == [Taxi]
  {
    var travel := (e: Expense) => e.category == "Travel";
    assert Fixture.rows == [Lunch] + [Taxi, Electricity];
    assert [Taxi, Electricity] == [Taxi] + [Electricity];
    FilterNone([Electricity], travel);
    FilterCons(Taxi, [Electricity], travel);
    FilterCons(Lunch, [Taxi, Electricity], travel);
  }

  /** Deleting the lunch answers 204, after which its key is not found. */
  lemma DeleteScenario()
    ensures DeleteAsWritten(Fixture, 1).0.status == 204
    ensures WithId(DeleteAsWritten(Fixture, 1).1, 1) == []
    ensures Retrieve(Delete(Fixture, 1).1, 1).status == 404
  {
    FixtureWellformed();
    assert Lunch in Fixture.rows;
    PresentKeyViewsAgree(Fixture, 1);
    RetrieveAfterDelete(Fixture, 1);
  }

  /** Creating with amount 50.00 answers 201; with -100.00 it answers 400 naming the amount. */
  lemma CreateScenarios()
    ensures Create(Fixture, Candidate(Owner, "Groceries", 5000, Date(2024, 11, 12), "Food"), {Owner}, {}).0.status == 201
    ensures var r := Create(Fixture, Candidate(Owner, "Invalid Expense", -10000, Date(2024, 11, 12), "Food"), {Owner}, {});
      r.0.status == 400 && "amount" in r.0.body.fields && r.1 == Fixture
  {
    assert FieldErrors(Candidate(Owner, "Groceries", 5000, Date(2024, 11, 12), "Food"), {Owner}, {}) == {};
  }

  /** The summary matches the month in any year: November 2023 and November 2024 are summed together. */
  lemma SummaryIgnoresYear()
    ensures var st := Store([Expense(1, Owner, "A", 100, Date(2023, 11, 5), "Food"),
                             Expense(2, Owner, "B", 200, Date(2024, 11, 5), "Food")], 3);
      CategorySummary(st, Owner, 11) == Response(200, Totals([CategoryTotal("Food", 300)]))
  {
    var a := Expense(1, Owner, "A", 100, Date(2023, 11, 5), "Food");
    var b := Expense(2, Owner, "B", 200, Date(2024, 11, 5), "Food");
    var rows := [a, b];
    assert rows[1..] == [b] && [b][1..] == [];
    FilterAll(rows, (e: Expense) => e.user == Owner && e.date.month == 11);
    assert InMonth(rows, Owner, 11) == rows;
    FilterAll(rows, (e: Expense) => e.category == "Food");
    assert rows == [a] + ([b] + []);
    CategoriesCons(b, []);
    CategoriesCons(a, [b]);
    assert Categories(rows) == ["Food"];
    assert OfCategory(rows, "Food") == rows;
    TotalCons(b, []);
    TotalCons(a, [b]);
    assert Total(rows) == 300;
  }
}
