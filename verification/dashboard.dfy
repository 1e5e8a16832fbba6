/** The dashboard's figures: the total of all expenses, the sums for the
    current and the previous month (compared by month index only, ignoring
    the year), the month-over-month change, the active-group count and the
    budget bars. The current month is a parameter: it stands for
    `new Date().getMonth()`. */
module Dashboard {
  import opened Common
  import opened Types
  import opened Money
  import opened Budgets
  import ExpenseList

  /** The "Total Expenses" figure: the amounts summed over the whole list,
      which is also the twelve month sums added up. */
  function TotalExpenses(es: seq<Expense>): (r: int)
    ensures r == MonthsBelow(es, 12)
  {
    MonthsPartitionTotal(es);
    SumOf(es, Amount)
  }

  /** The expenses whose date falls in month index `m`, in their order. */
  function MonthExpenses(es: seq<Expense>, m: int): (r: seq<Expense>)
    ensures forall i :: 0 <= i < |r| ==> r[i].date.month == m
    ensures forall e :: multiset(r)[e] == (if e.date.month == m then multiset(es)[e] else 0)
  {
    if es == [] then []
    else
      assert es == [es[0]] + es[1..];
      (if es[0].date.month == m then [es[0]] else []) + MonthExpenses(es[1..], m)
  }

  /** The amount spent in month index `m` of any year, in one pass. */
  function MonthSum(es: seq<Expense>, m: int): int
  {
    if es == [] then 0
    else (if es[0].date.month == m then es[0].amount else 0) + MonthSum(es[1..], m)
  }

  /** The "This Month" figure: the amounts of the current month's expenses,
      filtered and then summed. */
  function ThisMonth(es: seq<Expense>, current: Month): (r: int)
    ensures r == SumOf(MonthExpenses(es, current), Amount)
  {
    MonthSumIsFilteredSum(es, current);
    MonthSum(es, current)
  }

  /** The previous month's figure: the month index one below the current
      one, with no wrap from January back to December. */
  function LastMonth(es: seq<Expense>, current: Month): (r: int)
    ensures r == SumOf(MonthExpenses(es, current - 1), Amount)
    ensures current == 0 ==> r == 0
  {
    MonthSumIsFilteredSum(es, current - 1);
    if current == 0 then MonthSumOutOfRange(es, -1); MonthSum(es, current - 1)
    else MonthSum(es, current - 1)
  }

  /** `monthlyChange`, in tenths of a percent: the change from last month to
      this month relative to last month, rounded to one decimal, and 0 when
      last month's sum is not positive. */
  function MonthlyChange(es: seq<Expense>, current: Month): (r: int)
    ensures LastMonth(es, current) <= 0 ==> r == 0
    ensures LastMonth(es, current) > 0 ==>
      var last := LastMonth(es, current);
      var diff := (ThisMonth(es, current) - last) * 1000;
      && -last <= 2 * (diff - r * last) <= last
      && (2 * (diff - r * last) == last ==> diff < 0)
      && (2 * (diff - r * last) == -last ==> diff > 0)
  {
    var last := LastMonth(es, current);
    if last > 0 then RoundDiv((ThisMonth(es, current) - last) * 1000, last) else 0
  }

  /** The "Total Expenses" card shows its change as bad news when the change
      figure is positive. */
  predicate TotalCardNegative(es: seq<Expense>, current: Month)
  {
    MonthlyChange(es, current) > 0
  }

  /** The "This Month" card shows its change as bad news when this month
      exceeds last month. */
  predicate ThisMonthCardNegative(es: seq<Expense>, current: Month)
  {
    ThisMonth(es, current) > LastMonth(es, current)
  }

  /** The "Active Groups" figure: the groups with at least one expense. */
  function ActiveGroups(gs: seq<Group>): (r: nat)
    ensures r <= |gs|
    ensures r == |gs| <==> forall i :: 0 <= i < |gs| ==> |gs[i].expenses| > 0
    ensures r == 0 <==> forall i :: 0 <= i < |gs| ==> gs[i].expenses == []
  {
    if gs == [] then 0
    else
      var rest := ActiveGroups(gs[1..]);
      assert forall i :: 1 <= i < |gs| ==> gs[i] == gs[1..][i - 1];
      (if |gs[0].expenses| > 0 then 1 else 0) + rest
  }

  /** The positions of the groups that have at least one expense. */
  function ActiveIndices(gs: seq<Group>): set<int>
  {
    set i | 0 <= i < |gs| && |gs[i].expenses| > 0
  }

  /** Appending a group adds one to the count when that group has an expense. */
  lemma {:induction false} ActiveGroupsSnoc(gs: seq<Group>, g: Group)
    ensures ActiveGroups(gs + [g]) == ActiveGroups(gs) + (if |g.expenses| > 0 then 1 else 0)
  {
    if gs == [] {
      assert [] + [g] == [g];
    } else {
      assert (gs + [g])[1..] == gs[1..] + [g];
      ActiveGroupsSnoc(gs[1..], g);
    }
  }

  /** The "Active Groups" figure is the number of positions holding a group
      with at least one expense. */
  lemma {:induction false} ActiveGroupsCount(gs: seq<Group>)
    ensures ActiveGroups(gs) == |ActiveIndices(gs)|
    decreases |gs|
  {
    if gs != [] {
      var init, g := gs[..|gs| - 1], gs[|gs| - 1];
      assert gs == init + [g];
      ActiveGroupsCount(init);
      ActiveGroupsSnoc(init, g);
      ActiveIndicesSnoc(init, g);
    }
  }

  lemma ActiveIndicesSnoc(gs: seq<Group>, g: Group)
    ensures |ActiveIndices(gs + [g])| == |ActiveIndices(gs)| + (if |g.expenses| > 0 then 1 else 0)
  {
    var n := |gs|;
    var a, b := ActiveIndices(gs), ActiveIndices(gs + [g]);
    var last: set<int> := if |g.expenses| > 0 then {n} else {};
    forall i ensures i in b <==> i in a + last {
      if 0 <= i < n {
        assert (gs + [g])[i] == gs[i];
      } else if i == n {
        assert (gs + [g])[i] == g;
      }
    }
    assert b == a + last;
    assert n !in a;
  }

  /** The widths of the budget-overview bars, one per budget in order. */
  function BudgetBars(bs: seq<Budget>): (ws: seq<Ratio>)
    ensures |ws| == |bs|
    ensures forall i :: 0 <= i < |bs| ==> ws[i] == Progress(bs[i])
    ensures forall i :: 0 <= i < |ws| && ws[i].Fin? ==> ws[i].r <= 100.0
  {
    seq(|bs|, i requires 0 <= i < |bs| => Progress(bs[i]))
  }

  // ----- Properties -----

  /** No expense has month index -1 or 12: sums for such months are 0. */
  lemma {:induction false} MonthSumOutOfRange(es: seq<Expense>, m: int)
    requires m < 0 || m >= 12
    ensures MonthSum(es, m) == 0
  {
    if es != [] {
      MonthSumOutOfRange(es[1..], m);
    }
  }

  /** In January the previous month's sum is 0, and so is the change figure:
      December of the year before is never consulted. */
  lemma JanuaryHasNoLastMonth(es: seq<Expense>)
    ensures LastMonth(es, 0) == 0
    ensures MonthlyChange(es, 0) == 0
  {
    MonthSumOutOfRange(es, -1);
  }

  /** The month sum is the sum over exactly the expenses of that month:
      filtering by month and then summing. */
  lemma {:induction false} MonthSumIsFilteredSum(es: seq<Expense>, m: int)
    ensures MonthSum(es, m) == SumOf(MonthExpenses(es, m), Amount)
  {
    if es != [] {
      MonthSumIsFilteredSum(es[1..], m);
      var head := if es[0].date.month == m then [es[0]] else [];
      SumOfAppend(head, MonthExpenses(es[1..], m), Amount);
    }
  }

  lemma MonthSumCons(e: Expense, es: seq<Expense>, m: int)
    ensures MonthSum([e] + es, m) == (if e.date.month == m then e.amount else 0) + MonthSum(es, m)
  {
    assert ([e] + es)[1..] == es;
  }

  /** The sum of the month sums for month indices below `k`. */
  function MonthsBelow(es: seq<Expense>, k: nat): int
  {
    if k == 0 then 0 else MonthsBelow(es, k - 1) + MonthSum(es, k - 1)
  }

  lemma {:induction false} MonthsBelowCons(e: Expense, es: seq<Expense>, k: nat)
    ensures MonthsBelow([e] + es, k) ==
      (if e.date.month < k then e.amount else 0) + MonthsBelow(es, k)
  {
    if k > 0 {
      var j: nat := k - 1;
      MonthsBelowCons(e, es, j);
      MonthSumCons(e, es, j);
      var a := if e.date.month < j then e.amount else 0;
      var b := if e.date.month == j then e.amount else 0;
      assert MonthsBelow([e] + es, j) == a + MonthsBelow(es, j);
      assert MonthSum([e] + es, j) == b + MonthSum(es, j);
      assert MonthsBelow([e] + es, k) == MonthsBelow([e] + es, j) + MonthSum([e] + es, j);
      assert MonthsBelow(es, k) == MonthsBelow(es, j) + MonthSum(es, j);
    }
  }

  lemma {:induction false} MonthsBelowEmpty(k: nat)
    ensures MonthsBelow([], k) == 0
  {
    if k > 0 {
      MonthsBelowEmpty(k - 1);
    }
  }

  /** The twelve month sums add up to the total: every expense belongs to
      exactly one month index. */
  lemma {:induction false} MonthsPartitionTotal(es: seq<Expense>)
    ensures MonthsBelow(es, 12) == SumOf(es, Amount)
  {
    if es == [] {
      MonthsBelowEmpty(12);
    } else {
      MonthsPartitionTotal(es[1..]);
      assert es == [es[0]] + es[1..];
      MonthsBelowCons(es[0], es[1..], 12);
    }
  }

  /** A positive change figure means this month exceeds last month; a
      negative one means it falls below; equal months give 0. */
  lemma ChangeSign(es: seq<Expense>, current: Month)
    ensures MonthlyChange(es, current) > 0 ==> ThisMonth(es, current) > LastMonth(es, current)
    ensures MonthlyChange(es, current) < 0 ==> ThisMonth(es, current) < LastMonth(es, current)
    ensures ThisMonth(es, current) == LastMonth(es, current) ==> MonthlyChange(es, current) == 0
  {
    var last := LastMonth(es, current);
    if last > 0 {
      RoundedChangeSign(ThisMonth(es, current) - last, last, MonthlyChange(es, current));
    }
  }

  /** A change rounded to within half a unit of `diff * 1000 / last` has the
      sign of `diff`, and is 0 when `diff` is. */
  lemma RoundedChangeSign(diff: int, last: int, r: int)
    requires last > 0 && -last <= 2 * (diff * 1000 - r * last) <= last
    ensures r > 0 ==> diff > 0
    ensures r < 0 ==> diff < 0
    ensures diff == 0 ==> r == 0
  {
    if r > 0 {
      MulAtLeast(r, last);
    } else if r < 0 {
      MulAtLeast(-r, last);
    }
  }

  /** When the "Total Expenses" card flags its change as bad news, so does
      the "This Month" card. */
  lemma TotalCardAgreesWithThisMonthCard(es: seq<Expense>, current: Month)
    ensures TotalCardNegative(es, current) ==> ThisMonthCardNegative(es, current)
  {
    ChangeSign(es, current);
  }

  /** The total does not depend on the order of the expenses: the expense
      page's full list, in any sort order, has the dashboard's total. */
  lemma TotalOfFullList(es: seq<Expense>, order: ExpenseList.SortBy)
    ensures TotalExpenses(ExpenseList.FilteredExpenses(es, "", ExpenseList.All, order)) == TotalExpenses(es)
  {
    ExpenseList.EmptySearchListsAll(es, order);
    SumOfPermutation(ExpenseList.FilteredExpenses(es, "", ExpenseList.All, order), es, Amount);
  }
}
