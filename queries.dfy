/**
 * The read-only views of the ledger: the filter menu with its date-descending
 * listing, the budget status line and the monthly summary.
 */
module Queries {
  import opened Wrappers
  import opened Dates
  import opened Text
  import opened Seqs
  import opened Records

  // ---------------------------------------------------------------------------
  // FilterExpenses

  /** The filter menu choice and the answer to its prompt(s); any other choice shows all expenses. */
  datatype FilterChoice =
    | ShowAll
    | ByCategory(category: Option<string>)
    | ByDateRange(start: Option<DateTime>, end: Option<DateTime>)
    | ByMinAmount(min: Option<Money>)
    | ByKeyword(keyword: Option<string>)

  /** The predicate each choice hands to `Where`; a failed parse leaves the default value (MinValue, 0). */
  function Matches(c: FilterChoice): Expense -> bool {
    match c
    case ShowAll => (e: Expense) => true
    case ByCategory(cat) => (e: Expense) => ToLower(e.category) == ToLower(cat.GetOr(""))
    case ByDateRange(start, end) =>
      (e: Expense) => AtOrBefore(start.GetOr(MinValue), e.date) && AtOrBefore(e.date, end.GetOr(MinValue))
    case ByMinAmount(min) => (e: Expense) => e.amount >= min.GetOr(0.0)
    case ByKeyword(keyword) => (e: Expense) => Contains(ToLower(e.description), ToLower(keyword.GetOr("")))
  }

  /** Most recent first. */
  ghost predicate SortedByDateDesc(s: seq<Expense>) {
    forall i, j :: 0 <= i < j < |s| ==> AtOrBefore(s[j].date, s[i].date)
  }

  /** Places `x` before the first element that is not later than it. */
  function InsertByDate(x: Expense, t: seq<Expense>): (r: seq<Expense>)
    ensures multiset(r) == multiset{x} + multiset(t)
  {
    if t == [] || AtOrBefore(t[0].date, x.date) then [x] + t
    else
      assert t == [t[0]] + t[1..];
      [t[0]] + InsertByDate(x, t[1..])
  }

  lemma {:induction false} InsertByDateSorted(x: Expense, t: seq<Expense>)
    requires SortedByDateDesc(t)
    ensures SortedByDateDesc(InsertByDate(x, t))
  {
    if t == [] || AtOrBefore(t[0].date, x.date) {
      forall i, j | 0 <= i < j < |[x] + t| ensures AtOrBefore(([x] + t)[j].date, ([x] + t)[i].date) {
        if i == 0 {
          AtOrBeforeIsTotalOrder(t[j - 1].date, t[0].date, x.date);
        }
      }
    } else {
      var rest := InsertByDate(x, t[1..]);
      assert SortedByDateDesc(t[1..]);
      InsertByDateSorted(x, t[1..]);
      forall y | y in rest ensures AtOrBefore(y.date, t[0].date) {
        assert y in multiset(rest);
        if y == x {
          AtOrBeforeIsTotalOrder(x.date, t[0].date, x.date);
        } else {
          assert y in t[1..];
        }
      }
      var r := [t[0]] + rest;
      forall i, j | 0 <= i < j < |r| ensures AtOrBefore(r[j].date, r[i].date) {
        if i == 0 {
          assert r[j] in rest;
        } else {
          assert r[i] == rest[i - 1] && r[j] == rest[j - 1];
        }
      }
    }
  }

  /** `OrderByDescending(e => e.Date)`: a stable sort, most recent first. */
  function SortByDateDesc(s: seq<Expense>): (r: seq<Expense>)
    ensures multiset(r) == multiset(s)
    ensures SortedByDateDesc(r)
  {
    if s == [] then []
    else
      assert s == [s[0]] + s[1..];
      InsertByDateSorted(s[0], SortByDateDesc(s[1..]));
      InsertByDate(s[0], SortByDateDesc(s[1..]))
  }

  function DateIs(d: DateTime): Expense -> bool {
    (e: Expense) => e.date == d
  }

  /** Inserting only moves `x` past strictly later expenses, so equal dates keep their order. */
  lemma {:induction false} InsertByDateStable(x: Expense, t: seq<Expense>, d: DateTime)
    ensures Where(InsertByDate(x, t), DateIs(d)) == Where([x] + t, DateIs(d))
  {
    if !(t == [] || AtOrBefore(t[0].date, x.date)) {
      InsertByDateStable(x, t[1..], d);
      assert ([x] + t)[1..] == t;
      assert ([x] + t[1..])[1..] == t[1..];
      assert t == [t[0]] + t[1..];
      assert ([t[0]] + InsertByDate(x, t[1..]))[1..] == InsertByDate(x, t[1..]);
    }
  }

  /** Expenses with the same date come out in their original order. */
  lemma {:induction false} SortByDateDescStable(s: seq<Expense>, d: DateTime)
    ensures Where(SortByDateDesc(s), DateIs(d)) == Where(s, DateIs(d))
  {
    if s != [] {
      SortByDateDescStable(s[1..], d);
      InsertByDateStable(s[0], SortByDateDesc(s[1..]), d);
      assert ([s[0]] + SortByDateDesc(s[1..]))[1..] == SortByDateDesc(s[1..]);
    }
  }

  /** FilterExpenses: the chosen `Where`, then the stable date-descending sort. */
  function FilterExpenses(s: seq<Expense>, c: FilterChoice): seq<Expense> {
    SortByDateDesc(Where(s, Matches(c)))
  }

  /**
   * The listing holds exactly the matching expenses, each as often as in the
   * ledger, most recent first, and expenses of equal date in ledger order.
   */
  lemma FilterExpensesSpec(s: seq<Expense>, c: FilterChoice)
    ensures var r := FilterExpenses(s, c);
      && SortedByDateDesc(r)
      && (forall x :: multiset(r)[x] == if Matches(c)(x) then multiset(s)[x] else 0)
      && (forall d :: Where(r, DateIs(d)) == Where(Where(s, Matches(c)), DateIs(d)))
  {
    forall x ensures multiset(FilterExpenses(s, c))[x] == if Matches(c)(x) then multiset(s)[x] else 0 {
      WhereCount(s, Matches(c), x);
    }
    forall d ensures Where(FilterExpenses(s, c), DateIs(d)) == Where(Where(s, Matches(c)), DateIs(d)) {
      SortByDateDescStable(Where(s, Matches(c)), d);
    }
  }

  lemma FilterMembership(s: seq<Expense>, c: FilterChoice, x: Expense)
    ensures x in FilterExpenses(s, c) <==> x in s && Matches(c)(x)
  {
    FilterExpensesSpec(s, c);
    assert x in FilterExpenses(s, c) <==> multiset(FilterExpenses(s, c))[x] > 0;
  }

  /** Category: case-insensitive equality; a null answer matches only an empty category. */
  lemma CategoryFilter(s: seq<Expense>, cat: Option<string>, x: Expense)
    ensures x in FilterExpenses(s, ByCategory(cat)) <==> x in s && ToLower(x.category) == ToLower(cat.GetOr(""))
  {
    FilterMembership(s, ByCategory(cat), x);
  }

  /** Date range: both bounds inclusive, on whole timestamps; an unparsed bound is `DateTime.MinValue`. */
  lemma DateRangeFilter(s: seq<Expense>, start: Option<DateTime>, end: Option<DateTime>, x: Expense)
    ensures x in FilterExpenses(s, ByDateRange(start, end)) <==>
      x in s && AtOrBefore(start.GetOr(MinValue), x.date) && AtOrBefore(x.date, end.GetOr(MinValue))
    ensures end.None? && IsValid(x.date) ==> (x in FilterExpenses(s, ByDateRange(start, end)) ==> x.date == MinValue)
  {
    FilterMembership(s, ByDateRange(start, end), x);
    AtOrBeforeIsTotalOrder(x.date, MinValue, x.date);
  }

  /** Minimum amount: `Amount >= min`, where an unparsed minimum is 0. */
  lemma MinAmountFilter(s: seq<Expense>, min: Option<Money>, x: Expense)
    ensures x in FilterExpenses(s, ByMinAmount(min)) <==> x in s && x.amount >= min.GetOr(0.0)
  {
    FilterMembership(s, ByMinAmount(min), x);
  }

  /** Keyword: case-insensitive substring of the description. */
  lemma KeywordFilter(s: seq<Expense>, keyword: Option<string>, x: Expense)
    ensures x in FilterExpenses(s, ByKeyword(keyword)) <==>
      x in s && Contains(ToLower(x.description), ToLower(keyword.GetOr("")))
  {
    FilterMembership(s, ByKeyword(keyword), x);
  }

  /** An empty or null keyword lists every expense, just as "Show All" does. */
  lemma EmptyKeywordListsAll(s: seq<Expense>, keyword: Option<string>)
    requires keyword.GetOr("") == ""
    ensures FilterExpenses(s, ByKeyword(keyword)) == FilterExpenses(s, ShowAll)
  {
    forall x | x in s ensures Matches(ByKeyword(keyword))(x) {
      ContainsEmpty(ToLower(x.description));
    }
    WhereAllOrNone(s, Matches(ByKeyword(keyword)));
    WhereAllOrNone(s, Matches(ShowAll));
  }

  /** The TOTAL line of DisplayResults: the sum of the listed amounts, i.e. of the matching expenses. */
  lemma FilterTotal(s: seq<Expense>, c: FilterChoice)
    ensures Sum(FilterExpenses(s, c)) == Sum(Where(s, Matches(c)))
  {
    SumOfPermutation(FilterExpenses(s, c), Where(s, Matches(c)));
  }

  /** With no negative amounts, the expenses above a non-negative minimum total at most the whole. */
  lemma {:induction false} MinAmountTotalBounded(s: seq<Expense>, min: Money)
    requires min >= 0.0
    requires forall e :: e in s ==> e.amount >= 0.0
    ensures Sum(Where(s, Matches(ByMinAmount(Some(min))))) <= Sum(s)
  {
    if s != [] {
      assert s[0] in s;
      MinAmountTotalBounded(s[1..], min);
    }
  }

  /** With a negative amount present, the filtered total can exceed the whole. */
  lemma MinAmountTotalCanExceed()
    ensures var s := [Expense(1, "", 10.0, "", MinValue), Expense(2, "", -5.0, "", MinValue)];
      Sum(Where(s, Matches(ByMinAmount(Some(0.0))))) > Sum(s)
  {
    var s := [Expense(1, "", 10.0, "", MinValue), Expense(2, "", -5.0, "", MinValue)];
    var p := Matches(ByMinAmount(Some(0.0)));
    assert s[1..] == [s[1]] && s[1..][1..] == [];
    assert Where(s[1..], p) == [];
    assert Where(s, p) == [s[0]];
    assert Sum([s[0]]) == 10.0;
    assert Sum(s[1..]) == -5.0;
  }

  // ---------------------------------------------------------------------------
  // DisplayBudgetStatus

  function InMonth(k: YearMonth): Expense -> bool {
    (e: Expense) => MonthOf(e.date) == k
  }

  /** The spending of the calendar month (year and month) that `today` falls in. */
  function CurrentMonthTotal(s: seq<Expense>, today: DateTime): Money {
    Sum(Where(s, InMonth(MonthOf(today))))
  }

  /** The colour of the "Spent" figure. */
  datatype Status = Green | Yellow | Red

  datatype BudgetLine = BudgetLine(budget: Money, spent: Money, percent: real, status: Status)

  /**
   * DisplayBudgetStatus: nothing unless a positive budget is set; otherwise
   * the month's spending, its percentage of the budget, and Red when over
   * budget, Yellow when above 80%, Green otherwise.
   */
  function BudgetStatus(d: UserData, today: DateTime): (r: Option<BudgetLine>)
    ensures r.None? <==> d.monthlyBudget <= 0.0
    ensures r.Some? ==>
      && r.value.budget == d.monthlyBudget
      && r.value.spent == CurrentMonthTotal(d.expenses, today)
      && r.value.percent * r.value.budget == 100.0 * r.value.spent
    ensures r.Some? ==>
      var b, spent := r.value.budget, r.value.spent;
      && (r.value.status == Red <==> spent > b)
      && (r.value.status == Yellow <==> spent <= b && 5.0 * spent > 4.0 * b)
      && (r.value.status == Green <==> 5.0 * spent <= 4.0 * b)
  {
    if d.monthlyBudget <= 0.0 then None
    else
      var spent := CurrentMonthTotal(d.expenses, today);
      var b := d.monthlyBudget;
      var percent := (spent / b) * 100.0;
      PercentAbove80(spent, b);
      var status := if spent > b then Red else if percent > 80.0 then Yellow else Green;
      Some(BudgetLine(b, spent, percent, status))
  }

  lemma PercentAbove80(spent: real, b: real)
    requires b > 0.0
    ensures (spent / b) * 100.0 * b == 100.0 * spent
    ensures (spent / b) * 100.0 > 80.0 <==> 5.0 * spent > 4.0 * b
  {
    var q := spent / b;
    assert q * b == spent;
    if q * 100.0 > 80.0 {
      assert q > 0.8;
      assert q * b > 0.8 * b;
    } else {
      assert q <= 0.8;
      assert q * b <= 0.8 * b;
    }
  }
}
