/**
 * The remaining report sections of `DataAnalyzer`: the spending trends, the top
 * expenses, the income/expense comparison and the spending patterns. Each is a column
 * expression of the frame, modelled as a function of the rows.
 */
module Spending {
  import opened Wrappers
  import opened Calendar
  import opened Aggregate
  import opened Analyzer

  // ---------------------------------------------------------------------------
  // Spending trends
  // ---------------------------------------------------------------------------

  /** `date.dt.date`. */
  function DayOf(x: Entry): (r: Date)
    ensures ValidMoment(x.when) ==> ValidDate(r) && Stamp(Midnight(r)) <= Stamp(x.when) < Stamp(Midnight(r)) + MicrosPerDay
  {
    x.when.date
  }

  /** `date.dt.isocalendar().week`; every row of a frame has a real date (see `Dated`). */
  function WeekOf(x: Entry): int
  {
    if 1 <= x.when.date.month <= 12 then IsoWeek(x.when.date) else 0
  }

  /** The index of the daily series: the dates with an expense, in order. */
  function DayKeys(xs: seq<Entry>): (r: seq<Date>)
    ensures r == [] <==> ExpenseRows(xs) == []
  {
    GroupKeys(ExpenseRows(xs), DayOf, DateLt)
  }

  /** The ISO week numbers with an expense, in increasing order. */
  function WeekKeys(xs: seq<Entry>): (r: seq<int>)
    ensures r == [] <==> ExpenseRows(xs) == []
  {
    GroupKeys(ExpenseRows(xs), WeekOf, IntLt)
  }

  /** What was spent on date `d`: `abs()` of the sum of that day's expense amounts. */
  function SpentOn(xs: seq<Entry>, d: Date): real
  {
    Sum(Select(ExpenseRows(xs), DayOf, d), Outflow)
  }

  /** `daily_spending`, one value per date of `DayKeys`. */
  function DailySpending(xs: seq<Entry>): (r: seq<real>)
    ensures |r| == |DayKeys(xs)|
    ensures forall i :: 0 <= i < |r| ==> r[i] == SpentOn(xs, DayKeys(xs)[i])
  {
    GroupTotals(ExpenseRows(xs), DayOf, DayKeys(xs), Outflow)
  }

  /** `weekly_spending`, one value per week of `WeekKeys`. */
  function WeeklySpending(xs: seq<Entry>): (r: seq<real>)
    ensures |r| == |WeekKeys(xs)|
  {
    GroupTotals(ExpenseRows(xs), WeekOf, WeekKeys(xs), Outflow)
  }

  /** `spending_trends`: the empty dict when there is no expense. */
  datatype Trends =
    | NoTrends
    | Trends(dailyAverage: real, highestDay: Date, highestAmount: real,
             lowestDay: Date, lowestAmount: real, weeklyAverage: real)

  /** `_analyze_spending_trends`. */
  function SpendingTrends(xs: seq<Entry>): (r: Trends)
    ensures r.NoTrends? <==> ExpenseRows(xs) == []
    ensures r.Trends? ==> r.highestDay in DayKeys(xs) && r.lowestDay in DayKeys(xs)
    ensures r.Trends? ==> r.highestAmount == SpentOn(xs, r.highestDay)
    ensures r.Trends? ==> r.lowestAmount == SpentOn(xs, r.lowestDay)
  {
    if ExpenseRows(xs) == [] then NoTrends
    else
      var days, daily, weekly := DayKeys(xs), DailySpending(xs), WeeklySpending(xs);
      var hi, lo := ArgMax(daily), ArgMin(daily);
      Trends(Mean(Total(daily), |daily|), days[hi], daily[hi], days[lo], daily[lo],
        Mean(Total(weekly), |weekly|))
  }

  /** Trends are empty exactly when no amount is negative. */
  lemma NoTrendsWithoutExpenses(xs: seq<Entry>)
    ensures SpendingTrends(xs).NoTrends? <==> forall k :: 0 <= k < |xs| ==> !IsExpense(xs[k])
  {
    WhereMembers(xs, IsExpense);
    if ExpenseRows(xs) != [] {
      assert ExpenseRows(xs)[0] in xs;
    }
  }

  /** The position of a date in the daily index. */
  lemma DayPosition(xs: seq<Entry>, d: Date) returns (i: nat)
    requires d in DayKeys(xs)
    ensures i < |DayKeys(xs)| && DayKeys(xs)[i] == d
  {
    i :| 0 <= i < |DayKeys(xs)| && DayKeys(xs)[i] == d;
  }

  /** The highest and lowest days bound what was spent on every date with an expense. */
  lemma TrendsExtremes(xs: seq<Entry>, d: Date)
    requires SpendingTrends(xs).Trends? && d in DayKeys(xs)
    ensures SpendingTrends(xs).lowestAmount <= SpentOn(xs, d) <= SpendingTrends(xs).highestAmount
  {
    var i := DayPosition(xs, d);
    assert DailySpending(xs)[i] == SpentOn(xs, d);
  }

  /**
   * `idxmax()` and `idxmin()` report the first date holding the extreme: every earlier
   * date spent strictly less than the highest and strictly more than the lowest.
   */
  lemma TrendsFirstExtremes(xs: seq<Entry>, d: Date)
    requires SpendingTrends(xs).Trends? && d in DayKeys(xs)
    ensures DateLt(d, SpendingTrends(xs).highestDay) ==> SpentOn(xs, d) < SpendingTrends(xs).highestAmount
    ensures DateLt(d, SpendingTrends(xs).lowestDay) ==> SpentOn(xs, d) > SpendingTrends(xs).lowestAmount
  {
    var t, days, daily := SpendingTrends(xs), DayKeys(xs), DailySpending(xs);
    var hi, lo := ArgMax(daily), ArgMin(daily);
    assert t.highestDay == days[hi] && t.highestAmount == daily[hi];
    assert t.lowestDay == days[lo] && t.lowestAmount == daily[lo];
    DateLtOrders();
    GroupKeysSorted(ExpenseRows(xs), DayOf, DateLt);
    var i := DayPosition(xs, d);
    assert daily[i] == SpentOn(xs, d);
    if DateLt(d, days[hi]) {
      SortedIndexOrder(days, DateLt, i, hi);
    }
    if DateLt(d, days[lo]) {
      SortedIndexOrder(days, DateLt, i, lo);
    }
  }

  /** Every date with an expense spent a positive amount. */
  lemma TrendsPositive(xs: seq<Entry>, d: Date)
    requires d in DayKeys(xs)
    ensures SpentOn(xs, d) > 0.0
  {
    var rows := ExpenseRows(xs);
    GroupKeysMembers(rows, DayOf, DateLt);
    var j :| 0 <= j < |rows| && DayOf(rows[j]) == d;
    GroupPositive(rows, DayOf, Outflow, j);
  }

  /** The daily average is the expense total spread over the dates with an expense. */
  lemma DailyMean(xs: seq<Entry>)
    requires ExpenseRows(xs) != []
    ensures SpendingTrends(xs).dailyAverage == Mean(TotalExpenses(xs), |DayKeys(xs)|)
  {
    DailyTotal(xs);
  }

  /** The weekly average is the expense total spread over the weeks with an expense. */
  lemma WeeklyMean(xs: seq<Entry>)
    requires ExpenseRows(xs) != []
    ensures SpendingTrends(xs).weeklyAverage == Mean(TotalExpenses(xs), |WeekKeys(xs)|)
  {
    WeeklyTotal(xs);
  }

  /** The daily totals add up to the expense total. */
  lemma DailyTotal(xs: seq<Entry>)
    ensures Total(DailySpending(xs)) == TotalExpenses(xs)
  {
    var rows := ExpenseRows(xs);
    GroupKeysMembers(rows, DayOf, DateLt);
    GroupTotalsSum(rows, DayOf, DayKeys(xs), Outflow);
    Partition(rows, DayOf, DayKeys(xs), Outflow);
  }

  /** The weekly totals add up to the expense total. */
  lemma WeeklyTotal(xs: seq<Entry>)
    ensures Total(WeeklySpending(xs)) == TotalExpenses(xs)
  {
    var rows := ExpenseRows(xs);
    GroupKeysMembers(rows, WeekOf, IntLt);
    GroupTotalsSum(rows, WeekOf, WeekKeys(xs), Outflow);
    Partition(rows, WeekOf, WeekKeys(xs), Outflow);
  }

  /** The daily average lies between the lowest and the highest day. */
  lemma TrendsAverageBetween(xs: seq<Entry>)
    requires SpendingTrends(xs).Trends?
    ensures SpendingTrends(xs).lowestAmount <= SpendingTrends(xs).dailyAverage <= SpendingTrends(xs).highestAmount
  {
    var t, daily := SpendingTrends(xs), DailySpending(xs);
    assert t.dailyAverage == Mean(Total(daily), |daily|);
    assert t.lowestAmount == daily[ArgMin(daily)] && t.highestAmount == daily[ArgMax(daily)];
    MeanBetween(t.dailyAverage, daily, t.lowestAmount, t.highestAmount);
  }

  /** The mean of a series lies between any bounds of its values. */
  lemma MeanBetween(average: real, s: seq<real>, lo: real, hi: real)
    requires s != [] && average == Mean(Total(s), |s|)
    requires forall k :: 0 <= k < |s| ==> lo <= s[k] <= hi
    ensures lo <= average <= hi
  {
    var n := |s| as real;
    TotalBounds(s, lo, hi);
    MeanScales(Total(s), |s|);
    assert n * (average - lo) >= 0.0;
    assert n * (hi - average) >= 0.0;
  }

  // ---------------------------------------------------------------------------
  // Top expenses
  // ---------------------------------------------------------------------------

  const TopLimit: nat := 10

  function AmountColumn(rows: seq<Entry>): (r: seq<real>)
    ensures |r| == |rows| && forall k :: 0 <= k < |rows| ==> r[k] == rows[k].amount
  {
    seq(|rows|, k requires 0 <= k < |rows| => rows[k].amount)
  }

  /** The positions among the expense rows that `nlargest(10, 'amount', keep='first')` picks. */
  function TopPicks(xs: seq<Entry>): (r: seq<nat>)
    ensures forall i :: 0 <= i < |r| ==> r[i] < |ExpenseRows(xs)|
  {
    var rows := ExpenseRows(xs);
    NLargestMembers(AmountColumn(rows), Positions(|rows|), TopLimit);
    NLargest(AmountColumn(rows), Positions(|rows|), TopLimit)
  }

  datatype TopExpense = TopExpense(when: Moment, description: string, amount: real, category: string)

  /** One entry of `top_expenses`: the row with its amount as an absolute value. */
  function Report(x: Entry): TopExpense
  {
    TopExpense(x.when, x.description, Abs(x.amount), x.category)
  }

  /** `_get_top_expenses`. */
  function TopExpenses(xs: seq<Entry>): (r: seq<TopExpense>)
    ensures |r| == |TopPicks(xs)|
    ensures forall i :: 0 <= i < |r| ==> r[i] == Report(ExpenseRows(xs)[TopPicks(xs)[i]])
  {
    var rows, picks := ExpenseRows(xs), TopPicks(xs);
    seq(|picks|, i requires 0 <= i < |picks| => Report(rows[picks[i]]))
  }

  /** At most ten entries: ten, or every expense when there are fewer. */
  lemma TopExpensesLength(xs: seq<Entry>)
    ensures |TopExpenses(xs)| == if |ExpenseRows(xs)| < TopLimit then |ExpenseRows(xs)| else TopLimit
  {
    var rows := ExpenseRows(xs);
    NLargestLength(AmountColumn(rows), Positions(|rows|), TopLimit);
  }

  /** Each entry is an expense row of the frame, reported with its amount's magnitude. */
  lemma TopExpensesAreExpenses(xs: seq<Entry>, i: nat)
    requires i < |TopExpenses(xs)|
    ensures var e := TopExpenses(xs)[i];
      e.amount > 0.0 && Entry(e.when, e.description, -e.amount, e.category) in xs
  {
    var rows := ExpenseRows(xs);
    WhereMembers(xs, IsExpense);
    assert rows[TopPicks(xs)[i]] in xs;
  }

  /**
   * Entries are ordered by signed amount, largest first, so their magnitudes increase;
   * equal amounts keep the order of the rows.
   */
  lemma TopExpensesOrder(xs: seq<Entry>, i: nat, j: nat)
    requires i < j < |TopExpenses(xs)|
    ensures TopExpenses(xs)[i].amount <= TopExpenses(xs)[j].amount
    ensures TopExpenses(xs)[i].amount == TopExpenses(xs)[j].amount ==> TopPicks(xs)[i] < TopPicks(xs)[j]
  {
    var rows := ExpenseRows(xs);
    NLargestRanked(AmountColumn(rows), Positions(|rows|), TopLimit);
    assert Before(AmountColumn(rows), TopPicks(xs)[i], TopPicks(xs)[j]);
  }

  /**
   * `nlargest` on negative amounts keeps the smallest outflows: every expense row left
   * out spent at least as much as any entry, and one that spent the same comes later.
   */
  lemma TopExpensesSmallest(xs: seq<Entry>, p: nat, i: nat)
    requires p < |ExpenseRows(xs)| && p !in TopPicks(xs) && i < |TopExpenses(xs)|
    ensures TopExpenses(xs)[i].amount <= Outflow(ExpenseRows(xs)[p])
    ensures TopExpenses(xs)[i].amount == Outflow(ExpenseRows(xs)[p]) ==> TopPicks(xs)[i] < p
  {
    var rows := ExpenseRows(xs);
    NLargestRest(AmountColumn(rows), Positions(|rows|), TopLimit);
    assert Positions(|rows|)[p] == p;
    assert Before(AmountColumn(rows), TopPicks(xs)[i], p);
  }

  // ---------------------------------------------------------------------------
  // Income versus expenses
  // ---------------------------------------------------------------------------

  datatype Balance = Balance(incomeCount: nat, expenseCount: nat,
    averageIncome: real, averageExpense: real, ratio: real)

  /** The signed sum of the expense amounts is minus the expense total, negative when any exists. */
  lemma ExpenseAmounts(xs: seq<Entry>)
    ensures Sum(ExpenseRows(xs), Amount) == -TotalExpenses(xs)
    ensures ExpenseRows(xs) != [] ==> TotalExpenses(xs) > 0.0
  {
    var rows := ExpenseRows(xs);
    SplitBySign(rows);
    SumWhere(rows, IsIncome, Inflow);
    SumNonZeroFree(rows);
    if rows != [] {
      SumPositive(rows, Outflow, 0);
    }
  }

  lemma {:induction false} SumNonZeroFree(rows: seq<Entry>)
    requires forall k :: 0 <= k < |rows| ==> IsExpense(rows[k])
    ensures Sum(rows, Inflow) == 0.0
    decreases |rows|
  {
    if rows != [] {
      SumNonZeroFree(rows[..|rows| - 1]);
    }
  }

  /** `_analyze_income_vs_expenses`. */
  function IncomeVsExpenses(xs: seq<Entry>): (r: Balance)
    ensures r.incomeCount == |IncomeRows(xs)| && r.expenseCount == |ExpenseRows(xs)|
  {
    var income, expenses := IncomeRows(xs), ExpenseRows(xs);
    ExpenseAmounts(xs);
    Balance(|income|, |expenses|,
      if income == [] then 0.0 else Mean(Sum(income, Amount), |income|),
      if expenses == [] then 0.0 else Abs(Mean(Sum(expenses, Amount), |expenses|)),
      if expenses == [] then 0.0 else Sum(income, Amount) / Abs(Sum(expenses, Amount)))
  }

  /**
   * The averages are the totals spread over the rows of their side, and the ratio is the
   * income total over the expense total; each is 0 when its side has no rows.
   */
  lemma BalanceMeans(xs: seq<Entry>)
    ensures IncomeVsExpenses(xs).averageIncome * (|IncomeRows(xs)| as real) == TotalIncome(xs)
    ensures IncomeVsExpenses(xs).averageExpense * (|ExpenseRows(xs)| as real) == TotalExpenses(xs)
    ensures IncomeRows(xs) == [] ==> IncomeVsExpenses(xs).averageIncome == 0.0
    ensures ExpenseRows(xs) == [] ==> IncomeVsExpenses(xs).averageExpense == 0.0 && IncomeVsExpenses(xs).ratio == 0.0
  {
    var n, m := |ExpenseRows(xs)|, |IncomeRows(xs)|;
    ExpenseAmounts(xs);
    if n > 0 {
      NegatedMean(TotalExpenses(xs), n);
      MeanScales(TotalExpenses(xs), n);
    }
    if m > 0 {
      MeanScales(TotalIncome(xs), m);
    }
  }

  /** With expenses, the ratio times the expense total is the income total. */
  lemma BalanceRatio(xs: seq<Entry>)
    requires ExpenseRows(xs) != []
    ensures IncomeVsExpenses(xs).ratio * TotalExpenses(xs) == TotalIncome(xs)
  {
    ExpenseAmounts(xs);
    var t := TotalExpenses(xs);
    assert Abs(-t) == t;
    assert TotalIncome(xs) / t * t == TotalIncome(xs);
  }

  lemma NegatedMean(t: real, n: nat)
    requires n > 0 && t > 0.0
    ensures Abs(Mean(-t, n)) == Mean(t, n)
  {
    assert Mean(-t, n) == -Mean(t, n);
    assert Mean(t, n) > 0.0;
  }

  // ---------------------------------------------------------------------------
  // Spending patterns
  // ---------------------------------------------------------------------------

  /** `date.dt.day_name()`. */
  function DayNameOf(x: Entry): string
  {
    if 1 <= x.when.date.month <= 12 then DayName(Weekday(x.when.date)) else ""
  }

  /** The index of `spending_by_day`: the day names with an expense, in string order. */
  function DayNameKeys(xs: seq<Entry>): (r: seq<string>)
    ensures Distinct(r)
  {
    GroupKeys(ExpenseRows(xs), DayNameOf, StrLt)
  }

  /** `spending_by_day.to_dict()`: what was spent on each day of the week. */
  function SpendingByDay(xs: seq<Entry>): (r: seq<(string, real)>)
    ensures |r| == |DayNameKeys(xs)|
    ensures forall i :: 0 <= i < |r| ==>
      r[i] == (DayNameKeys(xs)[i], Sum(Select(ExpenseRows(xs), DayNameOf, DayNameKeys(xs)[i]), Outflow))
  {
    var keys := DayNameKeys(xs);
    var totals := GroupTotals(ExpenseRows(xs), DayNameOf, keys, Outflow);
    seq(|keys|, i requires 0 <= i < |keys| => (keys[i], totals[i]))
  }

  /** `(df.date.max() - df.date.min()).days`, a whole number of days rounded down. */
  function SpanDays(xs: seq<Entry>): (r: int)
    requires xs != [] && Dated(xs)
    ensures r >= 0
  {
    var range := DateRange(xs);
    assert Stamp(range.0) <= Stamp(xs[0].when) <= Stamp(range.1);
    (Stamp(range.1) - Stamp(range.0)) / MicrosPerDay
  }

  datatype Patterns = Patterns(spendingByDay: seq<(string, real)>, averageDaily: Option<real>)

  /** `_analyze_spending_patterns`; `average_daily_spending` is absent for a span under one day. */
  function SpendingPatterns(xs: seq<Entry>): (r: Patterns)
    requires xs != [] && Dated(xs)
    ensures r.spendingByDay == SpendingByDay(xs)
    ensures r.averageDaily.Some? <==> SpanDays(xs) > 0
  {
    var span := SpanDays(xs);
    Patterns(SpendingByDay(xs),
      if span > 0 then Some(Mean(TotalExpenses(xs), span)) else None)
  }

  /** The average daily spending is present exactly when the dates are a whole day or more apart. */
  lemma SpanOfOneDay(xs: seq<Entry>)
    requires xs != [] && Dated(xs)
    ensures SpanDays(xs) > 0 <==> Stamp(DateRange(xs).1) - Stamp(DateRange(xs).0) >= MicrosPerDay
  {
  }

  /** The day-of-week totals partition the expense total. */
  lemma SpendingByDayTotal(xs: seq<Entry>)
    ensures Total(GroupTotals(ExpenseRows(xs), DayNameOf, DayNameKeys(xs), Outflow)) == TotalExpenses(xs)
  {
    var rows := ExpenseRows(xs);
    GroupKeysMembers(rows, DayNameOf, StrLt);
    GroupTotalsSum(rows, DayNameOf, DayNameKeys(xs), Outflow);
    Partition(rows, DayNameOf, DayNameKeys(xs), Outflow);
  }

  /** Every key of `spending_by_day` is the name of a day of the week. */
  lemma SpendingByDayNames(xs: seq<Entry>, i: nat)
    requires Dated(xs) && i < |DayNameKeys(xs)|
    ensures exists w :: 0 <= w < 7 && DayNameKeys(xs)[i] == DayName(w)
  {
    var rows := ExpenseRows(xs);
    WhereMembers(xs, IsExpense);
    var j := GroupKeyRow(rows, DayNameOf, StrLt, i);
    assert rows[j] in xs;
    var k :| 0 <= k < |xs| && xs[k] == rows[j];
    assert ValidMoment(xs[k].when);
    var w := Weekday(rows[j].when.date);
    assert DayNameKeys(xs)[i] == DayName(w);
  }
}
