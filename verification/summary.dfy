/** The group-by-category sum behind `values('category').annotate(total=Sum('amount'))`. */
module Summary {
  import opened Seqs
  import opened Expenses

  /** One row of the summary: a category and the sum of its amounts. */
  datatype CategoryTotal = CategoryTotal(category: string, total: int)

  /** Sum of the amounts of `rows`. */
  function Total(rows: seq<Expense>): int {
    if |rows| == 0 then 0 else rows[0].amount + Total(rows[1..])
  }

  /** The records of category `c`. */
  function OfCategory(rows: seq<Expense>, c: string): seq<Expense> {
    Filter(rows, (e: Expense) => e.category == c)
  }

  /** Sum of the amounts of the records of category `c`. */
  function AmountOf(rows: seq<Expense>, c: string): int {
    Total(OfCategory(rows, c))
  }

  ghost predicate HasCategory(rows: seq<Expense>, c: string) {
    exists e :: e in rows && e.category == c
  }

  predicate Distinct(cs: seq<string>) {
    forall i, j :: 0 <= i < j < |cs| ==> cs[i] != cs[j]
  }

  /** Each category of `rows` once (in no order the source promises). */
  function Categories(rows: seq<Expense>): (cs: seq<string>)
    ensures Distinct(cs)
    ensures forall c :: c in cs <==> HasCategory(rows, c)
  {
    if |rows| == 0 then
      []
    else
      var rest := Categories(rows[1..]);
      assert forall c :: HasCategory(rows, c) <==> rows[0].category == c || HasCategory(rows[1..], c) by {
        assert rows == [rows[0]] + rows[1..];
      }
      if rows[0].category in rest then rest else [rows[0].category] + rest
  }

  /** One step of `Categories`: the first record's category, then those of the rest. */
  lemma CategoriesCons(x: Expense, s: seq<Expense>)
    ensures Categories([x] + s) ==
      if x.category in Categories(s) then Categories(s) else [x.category] + Categories(s)
  {
    assert ([x] + s)[1..] == s;
  }

  lemma TotalCons(x: Expense, s: seq<Expense>)
    ensures Total([x] + s) == x.amount + Total(s)
  {
    assert ([x] + s)[1..] == s;
  }

  /** One total per category of `cs`. */
  function Group(rows: seq<Expense>, cs: seq<string>): (ts: seq<CategoryTotal>)
    ensures |ts| == |cs|
    ensures forall i :: 0 <= i < |ts| ==> ts[i] == CategoryTotal(cs[i], AmountOf(rows, cs[i]))
  {
    if |cs| == 0 then [] else [CategoryTotal(cs[0], AmountOf(rows, cs[0]))] + Group(rows, cs[1..])
  }

  /** The summary of `rows`: one entry per distinct category, each carrying that category's sum. */
  function GroupByCategory(rows: seq<Expense>): (ts: seq<CategoryTotal>)
    ensures forall i, j :: 0 <= i < j < |ts| ==> ts[i].category != ts[j].category
    ensures forall i :: 0 <= i < |ts| ==> HasCategory(rows, ts[i].category)
    ensures forall e :: e in rows ==> exists i :: 0 <= i < |ts| && ts[i].category == e.category
    ensures forall i :: 0 <= i < |ts| ==> ts[i].total == Total(OfCategory(rows, ts[i].category))
  {
    var cs := Categories(rows);
    var ts := Group(rows, cs);
    assert forall e :: e in rows ==> e.category in cs;
    ts
  }

  function SumTotals(ts: seq<CategoryTotal>): int {
    if |ts| == 0 then 0 else ts[0].total + SumTotals(ts[1..])
  }

  /** Dropping the first record takes its amount off exactly the one total of its category. */
  lemma {:induction false} GroupUncons(rows: seq<Expense>, cs: seq<string>)
    requires |rows| > 0 && Distinct(cs)
    ensures SumTotals(Group(rows, cs)) ==
      SumTotals(Group(rows[1..], cs)) + (if rows[0].category in cs then rows[0].amount else 0)
  {
    if |cs| > 0 {
      var c := cs[0];
      var r := rows[0];
      assert Distinct(cs[1..]);
      GroupUncons(rows, cs[1..]);
      if r.category == c {
        assert OfCategory(rows, c) == [r] + OfCategory(rows[1..], c);
        assert ([r] + OfCategory(rows[1..], c))[1..] == OfCategory(rows[1..], c);
        assert c !in cs[1..];
      } else {
        assert OfCategory(rows, c) == OfCategory(rows[1..], c);
      }
      assert r.category in cs <==> r.category == c || r.category in cs[1..];
    }
  }

  /** Totals over a distinct list covering every category add up to the sum of all amounts. */
  lemma {:induction false} GroupCovers(rows: seq<Expense>, cs: seq<string>)
    requires Distinct(cs)
    requires forall e :: e in rows ==> e.category in cs
    ensures SumTotals(Group(rows, cs)) == Total(rows)
  {
    if |rows| == 0 {
      GroupOfNothing(cs);
    } else {
      assert rows[0] in rows;
      GroupUncons(rows, cs);
      assert forall e :: e in rows[1..] ==> e in rows;
      GroupCovers(rows[1..], cs);
    }
  }

  lemma {:induction false} GroupOfNothing(cs: seq<string>)
    ensures SumTotals(Group([], cs)) == 0
  {
    if |cs| > 0 {
      GroupOfNothing(cs[1..]);
    }
  }

  /** Group-sum conservation: the summary's totals add up to the sum of all summarised amounts. */
  lemma {:induction false} TotalsAddUp(rows: seq<Expense>)
    ensures SumTotals(GroupByCategory(rows)) == Total(rows)
  {
    var cs := Categories(rows);
    assert forall e :: e in rows ==> e.category in cs;
    GroupCovers(rows, cs);
  }
}
