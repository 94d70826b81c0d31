/**
 * GenerateSummary: the expenses grouped by the (year, month) of their date,
 * latest month first, each group with its members in ledger order.
 */
module Summary {
  import opened Dates
  import opened Seqs
  import opened Records
  import opened Queries

  datatype MonthGroup = MonthGroup(key: YearMonth, expenses: seq<Expense>)

  function Keys(gs: seq<MonthGroup>): (ks: seq<YearMonth>)
    ensures |ks| == |gs|
    ensures forall i :: 0 <= i < |gs| ==> ks[i] == gs[i].key
  {
    if gs == [] then [] else [gs[0].key] + Keys(gs[1..])
  }

  /** Strictly later months first; in particular no month twice. */
  ghost predicate StrictlyDescending(ks: seq<YearMonth>) {
    forall i, j :: 0 <= i < j < |ks| ==> LaterMonth(ks[i], ks[j])
  }

  /** The members of the group keyed `k`, or none when there is no such group. */
  function Members(gs: seq<MonthGroup>, k: YearMonth): seq<Expense> {
    if gs == [] then []
    else if gs[0].key == k then gs[0].expenses
    else Members(gs[1..], k)
  }

  /** The figure printed for one group: `group.Sum(x => x.Amount)`. */
  function GroupTotal(g: MonthGroup): Money {
    Sum(g.expenses)
  }

  function SumOfGroupTotals(gs: seq<MonthGroup>): Money {
    if gs == [] then 0.0 else GroupTotal(gs[0]) + SumOfGroupTotals(gs[1..])
  }

  /** Files `e` under its month, opening a new group at the right place when the month is new. */
  function AddToGroups(gs: seq<MonthGroup>, e: Expense): (r: seq<MonthGroup>)
    requires StrictlyDescending(Keys(gs))
    ensures forall k :: k in Keys(r) <==> k in Keys(gs) || k == MonthOf(e.date)
    ensures StrictlyDescending(Keys(r))
  {
    var k := MonthOf(e.date);
    if gs == [] then
      [MonthGroup(k, [e])]
    else if gs[0].key == k then
      [MonthGroup(k, gs[0].expenses + [e])] + gs[1..]
    else if LaterMonth(k, gs[0].key) then
      [MonthGroup(k, [e])] + gs
    else
      TailDescending(gs);
      var rest := AddToGroups(gs[1..], e);
      LaterThanAll(gs, e, rest);
      [gs[0]] + rest
  }

  lemma {:induction false} TailDescending(gs: seq<MonthGroup>)
    requires gs != [] && StrictlyDescending(Keys(gs))
    ensures StrictlyDescending(Keys(gs[1..]))
    ensures forall k :: k in Keys(gs[1..]) ==> LaterMonth(gs[0].key, k)
  {
    assert forall j :: 0 <= j < |gs[1..]| ==> Keys(gs[1..])[j] == Keys(gs)[j + 1];
  }

  lemma LaterThanAll(gs: seq<MonthGroup>, e: Expense, rest: seq<MonthGroup>)
    requires gs != [] && StrictlyDescending(Keys(gs[1..]))
    requires forall k :: k in Keys(gs[1..]) ==> LaterMonth(gs[0].key, k)
    requires LaterMonth(gs[0].key, MonthOf(e.date))
    requires forall k :: k in Keys(rest) <==> k in Keys(gs[1..]) || k == MonthOf(e.date)
    requires StrictlyDescending(Keys(rest))
    ensures StrictlyDescending(Keys([gs[0]] + rest))
  {
    var ks := Keys([gs[0]] + rest);
    forall i, j | 0 <= i < j < |ks| ensures LaterMonth(ks[i], ks[j]) {
      assert ks[j] == Keys(rest)[j - 1];
      assert Keys(rest)[j - 1] in Keys(rest);
      if i > 0 {
        assert ks[i] == Keys(rest)[i - 1];
      }
    }
  }

  /** Filing `e` adds it at the end of its month's members and changes no other month. */
  lemma {:induction false} AddToGroupsMembers(gs: seq<MonthGroup>, e: Expense, k: YearMonth)
    requires StrictlyDescending(Keys(gs))
    ensures Members(AddToGroups(gs, e), k) == Members(gs, k) + (if k == MonthOf(e.date) then [e] else [])
  {
    var m := MonthOf(e.date);
    if gs == [] {
    } else if gs[0].key == m {
      TailDescending(gs);
      MembersAbsent(gs[1..], m);
    } else if LaterMonth(m, gs[0].key) {
      TailDescending(gs);
      MembersAbsent(gs, m);
    } else {
      TailDescending(gs);
      AddToGroupsMembers(gs[1..], e, k);
    }
  }

  /** Filing `e` raises the sum of the group totals by its amount. */
  lemma {:induction false} AddToGroupsTotal(gs: seq<MonthGroup>, e: Expense)
    requires StrictlyDescending(Keys(gs))
    ensures SumOfGroupTotals(AddToGroups(gs, e)) == SumOfGroupTotals(gs) + e.amount
  {
    var m := MonthOf(e.date);
    assert Sum([e]) == e.amount by {
      assert [e][1..] == [];
    }
    if gs == [] {
    } else if gs[0].key == m {
      SumAppend(gs[0].expenses, [e]);
    } else if LaterMonth(m, gs[0].key) {
      assert ([MonthGroup(m, [e])] + gs)[1..] == gs;
    } else {
      TailDescending(gs);
      AddToGroupsTotal(gs[1..], e);
      assert ([gs[0]] + AddToGroups(gs[1..], e))[1..] == AddToGroups(gs[1..], e);
    }
  }

  lemma {:induction false} AddToGroupsNonEmpty(gs: seq<MonthGroup>, e: Expense)
    requires StrictlyDescending(Keys(gs))
    requires forall i :: 0 <= i < |gs| ==> gs[i].expenses != []
    ensures forall i :: 0 <= i < |AddToGroups(gs, e)| ==> AddToGroups(gs, e)[i].expenses != []
  {
    if gs != [] && gs[0].key != MonthOf(e.date) && !LaterMonth(MonthOf(e.date), gs[0].key) {
      TailDescending(gs);
      AddToGroupsNonEmpty(gs[1..], e);
      var r := AddToGroups(gs, e);
      assert forall i :: 1 <= i < |r| ==> r[i] == AddToGroups(gs[1..], e)[i - 1];
    }
  }

  lemma {:induction false} MembersAbsent(gs: seq<MonthGroup>, k: YearMonth)
    requires k !in Keys(gs)
    ensures Members(gs, k) == []
  {
    if gs != [] {
      assert Keys(gs)[0] == gs[0].key;
      assert Keys(gs[1..]) == Keys(gs)[1..];
      MembersAbsent(gs[1..], k);
    }
  }

  /**
   * `GroupBy(e => (e.Date.Year, e.Date.Month))` ordered by year, then month,
   * both descending: the expenses are filed one at a time in ledger order.
   */
  function MonthlySummary(s: seq<Expense>): (r: seq<MonthGroup>)
    ensures StrictlyDescending(Keys(r))
    ensures forall k :: Members(r, k) == Where(s, InMonth(k))
    ensures forall i :: 0 <= i < |r| ==> r[i].expenses != []
    ensures SumOfGroupTotals(r) == Sum(s)
  {
    if s == [] then []
    else
      var init, last := s[..|s| - 1], s[|s| - 1];
      assert s == init + [last];
      var groups := MonthlySummary(init);
      MembersAfterFiling(init, last, groups);
      AddToGroupsTotal(groups, last);
      AddToGroupsNonEmpty(groups, last);
      SumAppend(init, [last]);
      assert Sum([last]) == last.amount by {
        assert [last][1..] == [];
      }
      AddToGroups(groups, last)
  }

  lemma MembersAfterFiling(init: seq<Expense>, last: Expense, groups: seq<MonthGroup>)
    requires StrictlyDescending(Keys(groups))
    requires forall k :: Members(groups, k) == Where(init, InMonth(k))
    ensures forall k :: Members(AddToGroups(groups, last), k) == Where(init + [last], InMonth(k))
  {
    forall k ensures Members(AddToGroups(groups, last), k) == Where(init + [last], InMonth(k)) {
      WhereAppend(init, [last], InMonth(k));
      AddToGroupsMembers(groups, last, k);
      assert [last][1..] == [];
    }
  }

  /** With distinct keys, a listed group's members are what `Members` finds under its key. */
  lemma {:induction false} MembersOfListedGroup(gs: seq<MonthGroup>, i: nat)
    requires StrictlyDescending(Keys(gs))
    requires i < |gs|
    ensures Members(gs, gs[i].key) == gs[i].expenses
  {
    if i > 0 {
      TailDescending(gs);
      assert gs[i].key == Keys(gs)[i];
      assert LaterMonth(Keys(gs)[0], Keys(gs)[i]);
      MembersOfListedGroup(gs[1..], i - 1);
    }
  }

  /**
   * Each printed line is one month that has expenses, its group holds exactly
   * that month's expenses in ledger order, and every month with an expense
   * gets a line.
   */
  lemma SummaryGroups(s: seq<Expense>)
    ensures var r := MonthlySummary(s);
      && (forall i :: 0 <= i < |r| ==> r[i].expenses == Where(s, InMonth(r[i].key)) && r[i].expenses != [])
      && (forall e :: e in s ==> MonthOf(e.date) in Keys(r))
  {
    var r := MonthlySummary(s);
    forall i | 0 <= i < |r| ensures r[i].expenses == Where(s, InMonth(r[i].key)) {
      MembersOfListedGroup(r, i);
    }
    forall e | e in s ensures MonthOf(e.date) in Keys(r) {
      var k := MonthOf(e.date);
      WhereCount(s, InMonth(k), e);
      assert e in Where(s, InMonth(k));
      if k !in Keys(r) {
        MembersAbsent(r, k);
      }
    }
  }

  /** The total shown in the budget line equals the summary figure for the current month (0 if absent). */
  lemma CurrentMonthMatchesSummary(s: seq<Expense>, today: DateTime)
    ensures var r := MonthlySummary(s);
      CurrentMonthTotal(s, today) == Sum(Members(r, MonthOf(today)))
  {
  }
}
