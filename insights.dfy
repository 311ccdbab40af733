/**
 * `_generate_ai_insights` and its five detectors: spending anomalies, budget risks,
 * savings opportunities, spending habits and financial health. Each detector builds a
 * list of alerts; the list is a `seq<Insight>`, the detectors that loop are methods
 * proved equal to their specification functions, and the others are functions.
 * An alert keeps its type, severity, the category its title names, its `amount` and
 * the number its message reports; the fixed wording around them is not modelled.
 */
module Insights {
  import opened Wrappers
  import opened Calendar
  import opened Aggregate
  import opened Analyzer

  /** The `type` of an alert. */
  datatype Kind =
    | SpendingSpike | SpendingDecrease | CategoryDominance | BudgetRisk
    | SavingsOpportunity | SpendingPattern | FinancialHealth

  datatype Severity = High | Medium | Positive | Info

  /**
   * One alert: `subject` is the category its title names ("" when it names none),
   * `amount` its `amount` field and `figure` the number its message reports.
   */
  datatype Insight = Insight(kind: Kind, severity: Severity, subject: string, amount: real, figure: real)

  // ---------------------------------------------------------------------------
  // Months of the `by_month` dict
  // ---------------------------------------------------------------------------

  /** The order of the `YYYY-MM` keys: by year, then by month. */
  predicate MonthLt(a: MonthKey, b: MonthKey)
  {
    a.year < b.year || (a.year == b.year && a.month < b.month)
  }

  lemma MonthLtOrders()
    ensures StrictTotal(MonthLt)
  {
  }

  function MonthKeys(t: MonthTable): (r: seq<MonthKey>)
    ensures |r| == |t| && forall i :: 0 <= i < |t| ==> r[i] == t[i].0
  {
    seq(|t|, i requires 0 <= i < |t| => t[i].0)
  }

  /** `sorted(monthly_data.keys())`. */
  function SortedMonths(t: MonthTable): (r: seq<MonthKey>)
    ensures SortedBy(r, MonthLt)
    ensures forall m :: m in r <==> m in MonthKeys(t)
    ensures t != [] ==> r != []
  {
    MonthLtOrders();
    SortListSorted(MonthKeys(t), MonthLt);
    assert t != [] ==> MonthKeys(t)[0] in MonthKeys(t);
    SortList(MonthKeys(t), MonthLt)
  }

  /** `monthly_data[m]`: the value last stored under `m`. */
  function MonthFind(t: MonthTable, m: MonthKey): (r: Option<MonthStat>)
    ensures r.None? <==> m !in MonthKeys(t)
  {
    if t == [] then None
    else
      assert MonthKeys(t) == MonthKeys(t[..|t| - 1]) + [t[|t| - 1].0];
      if t[|t| - 1].0 == m then Some(t[|t| - 1].1)
      else MonthFind(t[..|t| - 1], m)
  }

  /** `abs(monthly_data[m]['total_expenses'])`; the months looked up are all keys. */
  function Spent(t: MonthTable, m: MonthKey): (r: real)
    ensures r >= 0.0
  {
    match MonthFind(t, m)
    case Some(s) => Abs(s.expenses)
    case None => 0.0
  }

  /** The sum of `Spent` over the months `ms`. */
  function SpentOver(t: MonthTable, ms: seq<MonthKey>): (r: real)
    ensures r >= 0.0
  {
    if ms == [] then 0.0 else SpentOver(t, ms[..|ms| - 1]) + Spent(t, ms[|ms| - 1])
  }

  /** The sum of `abs(total_expenses)` over all the values of the dict. */
  function SpentAll(t: MonthTable): (r: real)
    ensures r >= 0.0
  {
    if t == [] then 0.0 else SpentAll(t[..|t| - 1]) + Abs(t[|t| - 1].1.expenses)
  }

  /** `months[-3:-1] if len(months) >= 3 else months[:-1]`. */
  function PreviousMonths(months: seq<MonthKey>): (r: seq<MonthKey>)
    requires months != []
    ensures |r| == if |months| >= 3 then 2 else |months| - 1
    ensures r == months[|months| - 1 - |r|..|months| - 1]
  {
    if |months| >= 3 then months[|months| - 3..|months| - 1] else months[..|months| - 1]
  }

  /** Comparing a quotient by a positive divisor is comparing the dividend with the scaled bound. */
  lemma DivCompare(x: real, a: real, k: real)
    requires a > 0.0
    ensures x / a > k <==> x > k * a
    ensures x / a < k <==> x < k * a
  {
    var q := x / a;
    assert q * a == x;
    if q > k { assert (q - k) * a > 0.0; }
    if q < k { assert (k - q) * a > 0.0; }
    if x > k * a { assert (q - k) * a > 0.0; }
    if x < k * a { assert (k - q) * a > 0.0; }
  }

  // ---------------------------------------------------------------------------
  // 1. Spending anomalies
  // ---------------------------------------------------------------------------

  /** The alert on this month's spending `current` against the earlier months' mean `average`. */
  function ChangeAlert(current: real, average: real): (r: seq<Insight>)
    requires average > 0.0
    ensures |r| <= 1 && forall i :: 0 <= i < |r| ==> r[i].kind in {SpendingSpike, SpendingDecrease}
  {
    var change := (current - average) / average * 100.0;
    if change > 25.0 then
      [Insight(SpendingSpike, if change > 50.0 then High else Medium, "", current - average, change)]
    else if change < -25.0 then
      [Insight(SpendingDecrease, Positive, "", average - current, Abs(change))]
    else []
  }

  /**
   * The bands of the month-over-month comparison: a spike above 125% of the average
   * (high above 150%), a decrease below 75%, nothing in between; the amount is the
   * positive gap between the month and the average.
   */
  lemma ChangeBands(current: real, average: real)
    requires average > 0.0
    ensures ChangeAlert(current, average) == [] <==> 0.75 * average <= current <= 1.25 * average
    ensures (ChangeAlert(current, average) != [] && ChangeAlert(current, average)[0].kind == SpendingSpike)
      <==> current > 1.25 * average
    ensures (ChangeAlert(current, average) != [] && ChangeAlert(current, average)[0].severity == High)
      <==> current > 1.5 * average
    ensures (ChangeAlert(current, average) != [] && ChangeAlert(current, average)[0].kind == SpendingDecrease)
      <==> current < 0.75 * average
    ensures ChangeAlert(current, average) != [] ==>
      ChangeAlert(current, average)[0].amount == Abs(current - average) > 0.0
  {
    DivCompare(current - average, average, 0.25);
    DivCompare(current - average, average, 0.5);
    DivCompare(current - average, average, -0.25);
  }

  /** The month-over-month part of `_detect_spending_anomalies`. */
  function MonthlyChange(monthly: MonthTable): (r: seq<Insight>)
    ensures |r| <= 1 && forall i :: 0 <= i < |r| ==> r[i].kind in {SpendingSpike, SpendingDecrease}
  {
    if |monthly| < 2 then []
    else
      var months := SortedMonths(monthly);
      var previous := PreviousMonths(months);
      // Never empty for a table with distinct months, as `monthly` is in the source; the
      // type here does not carry that, so the case of one repeated month is closed off.
      if previous == [] then []
      else
        var average := Mean(SpentOver(monthly, previous), |previous|);
        if average > 0.0 then ChangeAlert(Spent(monthly, months[|months| - 1]), average) else []
  }

  /**
   * A month-over-month alert needs two months or more and a positive mean over the at
   * most two months just before the latest; it is then the alert of the latest month's
   * spending against that mean, as `ChangeBands` describes.
   */
  lemma MonthlyChangeWhen(monthly: MonthTable)
    ensures MonthlyChange(monthly) != [] ==> |monthly| >= 2
    ensures MonthlyChange(monthly) != [] ==>
      var months := SortedMonths(monthly);
      var previous := PreviousMonths(months);
      && 1 <= |previous| <= 2 && previous == months[|months| - 1 - |previous|..|months| - 1]
      && Mean(SpentOver(monthly, previous), |previous|) > 0.0
      && MonthlyChange(monthly) == ChangeAlert(Spent(monthly, months[|months| - 1]), Mean(SpentOver(monthly, previous), |previous|))
  {
    if MonthlyChange(monthly) != [] {
      assert |monthly| >= 2;
      var months := SortedMonths(monthly);
      var previous := PreviousMonths(months);
      assert previous != [];
      var average := Mean(SpentOver(monthly, previous), |previous|);
      assert average > 0.0;
      assert MonthlyChange(monthly) == ChangeAlert(Spent(monthly, months[|months| - 1]), average);
    }
  }

  /** The alert for one `by_category` entry. */
  function Dominant(e: (string, CategoryStat)): (r: seq<Insight>)
    ensures r != [] <==> e.1.percentage > 40.0
  {
    if e.1.percentage > 40.0 then [Insight(CategoryDominance, Medium, e.0, e.1.total, e.1.percentage)] else []
  }

  /** The alerts of the category loop over the entries `cats`, in order. */
  function Dominance(cats: Table): seq<Insight>
  {
    if cats == [] then [] else Dominance(cats[..|cats| - 1]) + Dominant(cats[|cats| - 1])
  }

  function Anomalies(monthly: MonthTable, categories: Table): seq<Insight>
  {
    MonthlyChange(monthly) + Dominance(categories)
  }

  /** The month-over-month comparison at the start of `_detect_spending_anomalies`. */
  method CompareMonths(monthly: MonthTable) returns (insights: seq<Insight>)
    ensures insights == MonthlyChange(monthly)
  {
    insights := [];
    if |monthly| >= 2 {
      var months := SortedMonths(monthly);
      var current := months[|months| - 1];
      var previous := if |months| >= 3 then months[|months| - 3..|months| - 1] else months[..|months| - 1];
      assert previous == PreviousMonths(months);
      if previous != [] {
        var currentSpending := Spent(monthly, current);
        var average := Mean(SpentOver(monthly, previous), |previous|);
        if average > 0.0 {
          insights := ChangeInsights(currentSpending, average);
        }
      }
    }
  }

  /** The percentage change against the average and its two alerts. */
  method ChangeInsights(currentSpending: real, average: real) returns (insights: seq<Insight>)
    requires average > 0.0
    ensures insights == ChangeAlert(currentSpending, average)
  {
    insights := [];
    var change := (currentSpending - average) / average * 100.0;
    if change > 25.0 {
      insights := insights + [Insight(SpendingSpike, if change > 50.0 then High else Medium, "",
        currentSpending - average, change)];
    } else if change < -25.0 {
      insights := insights + [Insight(SpendingDecrease, Positive, "", average - currentSpending, Abs(change))];
    }
  }

  /** `_detect_spending_anomalies`: the month comparison, then one pass over the categories. */
  method DetectSpendingAnomalies(monthly: MonthTable, categories: Table) returns (insights: seq<Insight>)
    ensures insights == Anomalies(monthly, categories)
  {
    var changes := CompareMonths(monthly);
    var dominant := FlagDominance(categories);
    insights := changes + dominant;
  }

  /** The pass over the categories in `_detect_spending_anomalies`. */
  method FlagDominance(categories: Table) returns (insights: seq<Insight>)
    ensures insights == Dominance(categories)
  {
    insights := [];
    for i := 0 to |categories|
      invariant insights == Dominance(categories[..i])
    {
      var (category, data) := categories[i];
      DominanceStep(categories, i);
      if data.percentage > 40.0 {
        insights := insights + [Insight(CategoryDominance, Medium, category, data.total, data.percentage)];
      }
    }
    assert categories[..|categories|] == categories;
  }

  lemma DominanceStep(cats: Table, i: nat)
    requires i < |cats|
    ensures Dominance(cats[..i + 1]) == Dominance(cats[..i]) + Dominant(cats[i])
  {
    assert cats[..i + 1][..i] == cats[..i];
  }

  /** Every dominance alert comes from an entry above 40%, and every such entry gives one. */
  lemma {:induction false} DominanceMembers(cats: Table)
    ensures forall a :: a in Dominance(cats) <==>
      exists k :: 0 <= k < |cats| && cats[k].1.percentage > 40.0 &&
        a == Insight(CategoryDominance, Medium, cats[k].0, cats[k].1.total, cats[k].1.percentage)
    decreases |cats|
  {
    if cats != [] {
      var init := cats[..|cats| - 1];
      DominanceMembers(init);
      assert forall k :: 0 <= k < |init| ==> init[k] == cats[k];
    }
  }

  /** Assigning to a dict whose keys are distinct keeps them distinct. */
  lemma {:induction false} StoreDistinct(d: Table, es: Table)
    requires Distinct(TableKeys(d))
    ensures Distinct(TableKeys(Store(d, es)))
    decreases |es|
  {
    if es != [] {
      StoreDistinct(d, es[..|es| - 1]);
      var t := Store(d, es[..|es| - 1]);
      var k := es[|es| - 1].0;
      if k !in TableKeys(t) {
        assert TableKeys(Put(t, k, es[|es| - 1].1)) == TableKeys(t) + [k];
      }
    }
  }

  /** In a dict with distinct keys, an entry is exactly what a lookup of its key returns. */
  lemma {:induction false} FindEntry(d: Table, k: string, v: CategoryStat)
    requires Distinct(TableKeys(d))
    ensures (exists i :: 0 <= i < |d| && d[i] == (k, v)) <==> Find(d, k) == Some(v)
    decreases |d|
  {
    if d != [] {
      var init := d[..|d| - 1];
      assert TableKeys(d) == TableKeys(init) + [d[|d| - 1].0];
      assert Distinct(TableKeys(init));
      FindEntry(init, k, v);
      if d[|d| - 1].0 == k {
        assert k !in TableKeys(init);
        forall i | 0 <= i < |init|
          ensures init[i].0 != k
        {
          assert TableKeys(init)[i] == init[i].0;
        }
      } else {
        forall i | 0 <= i < |init|
          ensures d[i] == init[i]
        {
        }
      }
    }
  }

  /** The dict's keys are distinct. */
  lemma ByCategoryDistinct(xs: seq<Entry>)
    ensures Distinct(TableKeys(ByCategory(xs)))
  {
    StoreKeys(ExpenseEntries(xs, ExpenseKeys(xs)));
    StoreDistinct(Store([], ExpenseEntries(xs, ExpenseKeys(xs))), IncomeEntries(xs, IncomeKeys(xs)));
  }

  /** Over a dict, a category is flagged exactly when the value stored for it is above 40%. */
  lemma DominanceByFind(cats: Table, c: string)
    requires Distinct(TableKeys(cats))
    ensures (exists a :: a in Dominance(cats) && a.subject == c) <==>
      Find(cats, c).Some? && Find(cats, c).value.percentage > 40.0
  {
    DominanceMembers(cats);
    if exists a :: a in Dominance(cats) && a.subject == c {
      var a :| a in Dominance(cats) && a.subject == c;
      var k :| 0 <= k < |cats| && cats[k].1.percentage > 40.0 &&
        a == Insight(CategoryDominance, Medium, cats[k].0, cats[k].1.total, cats[k].1.percentage);
      FindEntry(cats, c, cats[k].1);
    }
    if Find(cats, c).Some? && Find(cats, c).value.percentage > 40.0 {
      var v := Find(cats, c).value;
      FindEntry(cats, c, v);
      var k :| 0 <= k < |cats| && cats[k] == (c, v);
      assert Insight(CategoryDominance, Medium, c, v.total, v.percentage) in Dominance(cats);
    }
  }

  /**
   * A category is flagged as dominant exactly when it has expenses, no income, and more
   * than 40% of all spending.
   */
  lemma DominantCategory(xs: seq<Entry>, c: string)
    ensures (exists a :: a in Dominance(ByCategory(xs)) && a.subject == c) <==>
      c in ExpenseKeys(xs) && c !in IncomeKeys(xs) && ExpenseStat(xs, c).percentage > 40.0
  {
    ByCategoryDistinct(xs);
    DominanceByFind(ByCategory(xs), c);
    CategoryLookup(xs, c);
  }

  // ---------------------------------------------------------------------------
  // 2. Budget risks
  // ---------------------------------------------------------------------------

  /** `datetime.now().replace(day=1)`: the first of the month, at the same time of day. */
  function MonthStart(now: Moment): Moment
  {
    Moment(Date(now.date.year, now.date.month, 1), now.micros)
  }

  /** `df['date'] >= current_month` for a row. */
  predicate Since(x: Entry, start: Moment)
  {
    1 <= x.when.date.month <= 12 && 1 <= start.date.month <= 12 && Stamp(x.when) >= Stamp(start)
  }

  /** `(datetime.now() - current_month).days`: the whole days since the first of the month. */
  function DaysElapsed(now: Moment): int
    requires 1 <= now.date.month <= 12
  {
    (Stamp(now) - Stamp(MonthStart(now))) / MicrosPerDay
  }

  /** `df[df['date'] >= current_month]`. */
  function ThisMonth(xs: seq<Entry>, now: Moment): seq<Entry>
  {
    Where(xs, x => Since(x, MonthStart(now)))
  }

  /** `_predict_budget_risks`, with the clock reading `now` as a parameter. */
  function BudgetRisks(xs: seq<Entry>, monthly: MonthTable, now: Moment): (r: seq<Insight>)
    requires ValidMoment(now)
    ensures |r| <= 1 && forall i :: 0 <= i < |r| ==> r[i].kind == BudgetRisk
  {
    var start := MonthStart(now);
    var data := ThisMonth(xs, now);
    if |data| == 0 then []
    else
      var elapsed := DaysElapsed(now);
      var days := DaysInMonth(start.date.year, start.date.month);
      if !(elapsed > 0 && elapsed < days) then []
      else
        OverrunAlert(Projection(TotalExpenses(data), elapsed, days), monthly)
  }

  /** `(current_spending / days_elapsed) * days_in_month`. */
  function Projection(spent: real, elapsed: int, days: int): real
    requires elapsed > 0
  {
    spent / (elapsed as real) * (days as real)
  }

  /** The comparison of the month's projected spending with the mean over the months of the dict. */
  function OverrunAlert(projected: real, monthly: MonthTable): (r: seq<Insight>)
    ensures |r| <= 1 && forall i :: 0 <= i < |r| ==> r[i].kind == BudgetRisk
  {
    if |monthly| < 2 then []
    else
      var average := Mean(SpentAll(monthly), |monthly|);
      if projected > average * 1.2 then [Insight(BudgetRisk, High, "", projected - average, projected - average)]
      else []
  }

  /** An overrun is reported when the projection tops the monthly mean by more than 20%; its amount is the excess. */
  lemma OverrunWhen(projected: real, monthly: MonthTable)
    ensures OverrunAlert(projected, monthly) != [] <==>
      |monthly| >= 2 && projected > 1.2 * Mean(SpentAll(monthly), |monthly|)
    ensures OverrunAlert(projected, monthly) != [] ==>
      OverrunAlert(projected, monthly)[0].amount == projected - Mean(SpentAll(monthly), |monthly|)
        > 0.2 * Mean(SpentAll(monthly), |monthly|) >= 0.0
  {
  }

  /** The whole days since the first of the month are the day of the month less one. */
  lemma DaysElapsedIsDay(now: Moment)
    requires ValidMoment(now)
    ensures DaysElapsed(now) == now.date.day - 1
    ensures DaysElapsed(now) < DaysInMonth(now.date.year, now.date.month)
  {
    var d := now.date.day - 1;
    assert Stamp(now) - Stamp(MonthStart(now)) == d * MicrosPerDay;
  }

  /**
   * The projection is made only when some row is dated this month and today is not
   * the first: the month-to-date spending per whole day elapsed, times the length of
   * the month (whether it raises an alert is `OverrunWhen`).
   */
  lemma BudgetRiskWhen(xs: seq<Entry>, monthly: MonthTable, now: Moment)
    requires ValidMoment(now)
    ensures var data := ThisMonth(xs, now);
      var days := DaysInMonth(now.date.year, now.date.month);
      BudgetRisks(xs, monthly, now) ==
        if data != [] && now.date.day > 1
        then OverrunAlert(Projection(TotalExpenses(data), now.date.day - 1, days), monthly)
        else []
  {
    DaysElapsedIsDay(now);
  }

  /** No budget risk on the first day of a month. */
  lemma NoBudgetRiskOnFirstDay(xs: seq<Entry>, monthly: MonthTable, now: Moment)
    requires ValidMoment(now) && now.date.day == 1
    ensures BudgetRisks(xs, monthly, now) == []
  {
    DaysElapsedIsDay(now);
  }

  // ---------------------------------------------------------------------------
  // 3. Savings opportunities
  // ---------------------------------------------------------------------------

  /** `(df.amount < 0) & (df.amount > -20)`. */
  predicate SmallExpense(x: Entry) { x.amount < 0.0 && x.amount > -20.0 }

  function SmallRows(xs: seq<Entry>): (r: seq<Entry>)
    ensures forall k :: 0 <= k < |r| ==> SmallExpense(r[k])
  {
    Where(xs, SmallExpense)
  }

  /** The alert for the small purchases of category `c`. */
  function SavingsAlert(small: seq<Entry>, c: string): (r: seq<Insight>)
    ensures |r| <= 1
    ensures forall i :: 0 <= i < |r| ==> r[i].kind == SavingsOpportunity && r[i].subject == c
  {
    var rows := InCategory(small, c);
    var spent := Abs(Sum(rows, Amount));
    if |rows| >= 5 && spent >= 50.0 then [Insight(SavingsOpportunity, Medium, c, spent, |rows| as real)] else []
  }

  /** The alerts of the loop over the groups `keys`, in order. */
  function SavingsFor(small: seq<Entry>, keys: seq<string>): (r: seq<Insight>)
    ensures |r| <= |keys|
    ensures forall i :: 0 <= i < |r| ==> r[i].kind == SavingsOpportunity && r[i].subject in keys
  {
    if keys == [] then [] else SavingsFor(small, keys[..|keys| - 1]) + SavingsAlert(small, keys[|keys| - 1])
  }

  function Savings(xs: seq<Entry>): seq<Insight>
  {
    var small := SmallRows(xs);
    if |small| == 0 then [] else SavingsFor(small, GroupKeys(small, CategoryOf, StrLt))
  }

  /** `_identify_savings_opportunities`: one pass over the sorted groups of small expenses. */
  method IdentifySavingsOpportunities(xs: seq<Entry>) returns (insights: seq<Insight>)
    ensures insights == Savings(xs)
  {
    insights := [];
    var small := SmallRows(xs);
    if |small| > 0 {
      var keys := GroupKeys(small, CategoryOf, StrLt);
      for i := 0 to |keys|
        invariant insights == SavingsFor(small, keys[..i])
      {
        var rows := InCategory(small, keys[i]);
        var totalSpent := Abs(Sum(rows, Amount));
        SavingsForStep(small, keys, i);
        if |rows| >= 5 && totalSpent >= 50.0 {
          insights := insights + [Insight(SavingsOpportunity, Medium, keys[i], totalSpent, |rows| as real)];
        }
      }
      assert keys[..|keys|] == keys;
    }
  }

  lemma SavingsForStep(small: seq<Entry>, keys: seq<string>, i: nat)
    requires i < |keys|
    ensures SavingsFor(small, keys[..i + 1]) == SavingsFor(small, keys[..i]) + SavingsAlert(small, keys[i])
  {
    assert keys[..i + 1][..i] == keys[..i];
  }

  /** The spending of expense rows, as `abs` of their amounts' sum. */
  lemma {:induction false} AbsOfExpenses(rows: seq<Entry>)
    requires forall k :: 0 <= k < |rows| ==> IsExpense(rows[k])
    ensures Abs(Sum(rows, Amount)) == Sum(rows, Outflow)
    ensures Sum(rows, Amount) == -Sum(rows, Outflow)
    decreases |rows|
  {
    if rows != [] {
      AbsOfExpenses(rows[..|rows| - 1]);
      SumNonNegative(rows, Outflow);
    }
  }

  /** Rows each spending less than 20 spend less than 20 apiece in total. */
  lemma {:induction false} SmallSpendBound(rows: seq<Entry>)
    requires forall k :: 0 <= k < |rows| ==> SmallExpense(rows[k])
    ensures Sum(rows, Outflow) <= 20.0 * (|rows| as real)
    ensures rows != [] ==> Sum(rows, Outflow) < 20.0 * (|rows| as real)
    decreases |rows|
  {
    if rows != [] {
      SmallSpendBound(rows[..|rows| - 1]);
    }
  }

  /** The small rows of one category are small expenses of that category. */
  lemma SmallGroup(small: seq<Entry>, c: string)
    requires forall k :: 0 <= k < |small| ==> SmallExpense(small[k])
    ensures forall k :: 0 <= k < |InCategory(small, c)| ==> SmallExpense(InCategory(small, c)[k])
  {
    var rows := InCategory(small, c);
    SelectMembers(small, CategoryOf, c);
    forall k | 0 <= k < |rows|
      ensures SmallExpense(rows[k])
    {
      var j :| 0 <= j < |small| && small[j] == rows[k];
    }
  }

  /** Every alert of the loop is for one of `keys`, with at least five purchases whose total lies in [50, 20 × count). */
  lemma {:induction false} SavingsForAlerts(small: seq<Entry>, keys: seq<string>)
    requires forall k :: 0 <= k < |small| ==> SmallExpense(small[k])
    ensures forall a :: a in SavingsFor(small, keys) ==>
      && a.subject in keys && a.kind == SavingsOpportunity && a.severity == Medium
      && a.figure == |InCategory(small, a.subject)| as real >= 5.0
      && a.amount == Sum(InCategory(small, a.subject), Outflow)
      && 50.0 <= a.amount < 20.0 * a.figure
    decreases |keys|
  {
    if keys != [] {
      var init, c := keys[..|keys| - 1], keys[|keys| - 1];
      SavingsForAlerts(small, init);
      var rows := InCategory(small, c);
      SmallGroup(small, c);
      AbsOfExpenses(rows);
      SmallSpendBound(rows);
      assert forall a :: a in init ==> a in keys;
    }
  }

  /** Every key whose group has at least five purchases totalling at least 50 gets an alert. */
  lemma {:induction false} SavingsForComplete(small: seq<Entry>, keys: seq<string>, c: string)
    requires forall k :: 0 <= k < |small| ==> SmallExpense(small[k])
    requires c in keys && |InCategory(small, c)| >= 5 && Sum(InCategory(small, c), Outflow) >= 50.0
    ensures exists a :: a in SavingsFor(small, keys) && a.subject == c
    decreases |keys|
  {
    var init, last := keys[..|keys| - 1], keys[|keys| - 1];
    assert keys == init + [last];
    if c == last {
      SmallGroup(small, c);
      AbsOfExpenses(InCategory(small, c));
      var a := SavingsAlert(small, c)[0];
      assert a in SavingsFor(small, keys);
    } else {
      SavingsForComplete(small, init, c);
      var a :| a in SavingsFor(small, init) && a.subject == c;
      assert a in SavingsFor(small, keys);
    }
  }

  /**
   * A category gets a savings alert exactly when it has at least five expenses under
   * 20 that together spend at least 50; the alert's amount is that spending, below 20
   * per purchase, and its figure the number of purchases.
   */
  lemma SavingsWhen(xs: seq<Entry>, c: string)
    ensures (exists a :: a in Savings(xs) && a.subject == c) <==>
      |InCategory(SmallRows(xs), c)| >= 5 && Sum(InCategory(SmallRows(xs), c), Outflow) >= 50.0
    ensures forall a :: a in Savings(xs) ==>
      && a.kind == SavingsOpportunity && a.severity == Medium
      && a.figure == |InCategory(SmallRows(xs), a.subject)| as real >= 5.0
      && a.amount == Sum(InCategory(SmallRows(xs), a.subject), Outflow)
      && 50.0 <= a.amount < 20.0 * a.figure
  {
    var small := SmallRows(xs);
    if |small| > 0 {
      var keys := GroupKeys(small, CategoryOf, StrLt);
      SavingsForAlerts(small, keys);
      var rows := InCategory(small, c);
      if |rows| >= 5 && Sum(rows, Outflow) >= 50.0 {
        GroupKeysMembers(small, CategoryOf, StrLt);
        SelectMembers(small, CategoryOf, c);
        var j :| 0 <= j < |small| && small[j] == rows[0];
        assert CategoryOf(small[j]) == c;
        SavingsForComplete(small, keys, c);
      }
    }
  }

  // ---------------------------------------------------------------------------
  // 4. Spending habits
  // ---------------------------------------------------------------------------

  /** `df['date'].dt.weekday >= 5`, for a dated row. */
  predicate OnWeekend(x: Entry)
  {
    1 <= x.when.date.month <= 12 && Weekday(x.when.date) >= 5
  }

  predicate WeekendExpense(x: Entry) { IsExpense(x) && OnWeekend(x) }
  predicate WeekdayExpense(x: Entry) { IsExpense(x) && !OnWeekend(x) }

  /** `abs(weekend_spending)`: what the expenses on a Saturday or Sunday add up to. */
  function WeekendSpending(xs: seq<Entry>): (r: real)
    ensures r == Sum(Where(xs, WeekendExpense), Outflow)
  {
    AbsOfExpenses(Where(xs, WeekendExpense));
    Abs(Sum(Where(xs, WeekendExpense), Amount))
  }

  /** `abs(weekday_spending)`: what the expenses on Monday to Friday add up to. */
  function WeekdaySpending(xs: seq<Entry>): (r: real)
    ensures r == Sum(Where(xs, WeekdayExpense), Outflow)
  {
    AbsOfExpenses(Where(xs, WeekdayExpense));
    Abs(Sum(Where(xs, WeekdayExpense), Amount))
  }

  /** `_analyze_spending_habits`. */
  function Habits(xs: seq<Entry>): (r: seq<Insight>)
    ensures |r| <= 1 && forall i :: 0 <= i < |r| ==> r[i].kind == SpendingPattern
  {
    var weekend, weekday := WeekendSpending(xs), WeekdaySpending(xs);
    if weekend > 0.0 && weekday > 0.0 then
      var ratio := weekend / (weekend + weekday);
      if ratio > 0.4 then [Insight(SpendingPattern, Info, "", weekend, ratio * 100.0)] else []
    else []
  }

  /**
   * A weekend alert is raised exactly when both parts of the week have spending and
   * the weekend's is more than two thirds of the weekdays'; its amount is the weekend's.
   */
  lemma HabitsWhen(xs: seq<Entry>)
    ensures var weekend, weekday := WeekendSpending(xs), WeekdaySpending(xs);
      (Habits(xs) != [] <==> weekend > 0.0 && weekday > 0.0 && 3.0 * weekend > 2.0 * weekday)
      && (Habits(xs) != [] ==> Habits(xs)[0].amount == weekend && 40.0 < Habits(xs)[0].figure < 100.0)
  {
    var weekend, weekday := WeekendSpending(xs), WeekdaySpending(xs);
    if weekend > 0.0 && weekday > 0.0 {
      DivCompare(weekend, weekend + weekday, 0.4);
      DivCompare(weekend, weekend + weekday, 1.0);
    }
  }

  lemma {:induction false} WeekSplit(xs: seq<Entry>)
    ensures Sum(Where(xs, WeekendExpense), Outflow) + Sum(Where(xs, WeekdayExpense), Outflow) == Sum(xs, Outflow)
    decreases |xs|
  {
    if xs != [] {
      var init, x := xs[..|xs| - 1], xs[|xs| - 1];
      WeekSplit(init);
      if WeekendExpense(x) {
        SumAppend(Where(init, WeekendExpense), [x], Outflow);
      } else if WeekdayExpense(x) {
        SumAppend(Where(init, WeekdayExpense), [x], Outflow);
      }
    }
  }

  /** Weekend and weekday spending split the expense total of the summary. */
  lemma WeekPartsAddUp(xs: seq<Entry>)
    ensures WeekendSpending(xs) + WeekdaySpending(xs) == TotalExpenses(xs)
  {
    WeekSplit(xs);
    AbsOfExpenses(Where(xs, WeekendExpense));
    AbsOfExpenses(Where(xs, WeekdayExpense));
    SignTotals(xs);
  }

  // ---------------------------------------------------------------------------
  // 5. Financial health
  // ---------------------------------------------------------------------------

  /** `_assess_financial_health`, on the summary's totals. */
  function Health(s: Summary): (r: seq<Insight>)
    ensures |r| <= 1 && forall i :: 0 <= i < |r| ==> r[i].kind == FinancialHealth
  {
    var income, expenses := s.totalIncome, Abs(s.totalExpenses);
    if income > 0.0 then
      var rate := (income - expenses) / income;
      if rate < 0.0 then [Insight(FinancialHealth, High, "", expenses - income, expenses - income)]
      else if rate < 0.1 then [Insight(FinancialHealth, Medium, "", income * 0.2 - (income - expenses), rate * 100.0)]
      else if rate >= 0.2 then [Insight(FinancialHealth, Positive, "", income - expenses, rate * 100.0)]
      else []
    else []
  }

  /**
   * The savings-rate bands, as comparisons of expenses with income: high when they
   * exceed income, medium above 90% of it, positive at 80% or less, nothing between
   * 80% and 90% or without income; every alert's amount is positive.
   */
  lemma HealthBands(s: Summary)
    ensures var income, expenses := s.totalIncome, Abs(s.totalExpenses);
      && (Health(s) == [] <==> income <= 0.0 || 0.8 * income < expenses <= 0.9 * income)
      && (Health(s) != [] && Health(s)[0].severity == High <==> income > 0.0 && expenses > income)
      && (Health(s) != [] && Health(s)[0].severity == Medium <==> income > 0.0 && 0.9 * income < expenses <= income)
      && (Health(s) != [] && Health(s)[0].severity == Positive <==> income > 0.0 && expenses <= 0.8 * income)
      && (Health(s) != [] ==> Health(s)[0].amount > 0.0)
  {
    var income, expenses := s.totalIncome, Abs(s.totalExpenses);
    if income > 0.0 {
      DivCompare(income - expenses, income, 0.0);
      DivCompare(income - expenses, income, 0.1);
      DivCompare(income - expenses, income, 0.2);
    }
  }

  // ---------------------------------------------------------------------------
  // All insights
  // ---------------------------------------------------------------------------

  /** The five detectors' alerts, in the order they are appended. */
  function AllInsights(xs: seq<Entry>, summary: Summary, categories: Table, monthly: MonthTable, now: Moment): seq<Insight>
    requires ValidMoment(now)
  {
    Anomalies(monthly, categories) + BudgetRisks(xs, monthly, now) + Savings(xs) + Habits(xs) + Health(summary)
  }

  /** `_generate_ai_insights`: the detectors' lists, extended one after the other. */
  method GenerateInsights(xs: seq<Entry>, summary: Summary, categories: Table, monthly: MonthTable, now: Moment)
    returns (insights: seq<Insight>)
    requires ValidMoment(now)
    ensures insights == AllInsights(xs, summary, categories, monthly, now)
  {
    insights := [];
    var anomalies := DetectSpendingAnomalies(monthly, categories);
    insights := insights + anomalies;
    assert insights == anomalies;
    insights := insights + BudgetRisks(xs, monthly, now);
    var savings := IdentifySavingsOpportunities(xs);
    insights := insights + savings;
    insights := insights + Habits(xs);
    insights := insights + Health(summary);
  }

  /** The detector an alert type belongs to, numbered in the order the detectors run. */
  function Family(k: Kind): nat
  {
    match k
    case SpendingSpike => 1
    case SpendingDecrease => 1
    case CategoryDominance => 1
    case BudgetRisk => 2
    case SavingsOpportunity => 3
    case SpendingPattern => 4
    case FinancialHealth => 5
  }

  predicate FamilyOrdered(s: seq<Insight>)
  {
    forall i, j :: 0 <= i < j < |s| ==> Family(s[i].kind) <= Family(s[j].kind)
  }

  predicate AllOfFamily(s: seq<Insight>, n: nat)
  {
    forall i :: 0 <= i < |s| ==> Family(s[i].kind) == n
  }

  lemma {:induction false} DominanceFamily(cats: Table)
    ensures AllOfFamily(Dominance(cats), 1)
    decreases |cats|
  {
    if cats != [] {
      DominanceFamily(cats[..|cats| - 1]);
    }
  }

  lemma {:induction false} SavingsForFamily(small: seq<Entry>, keys: seq<string>)
    ensures AllOfFamily(SavingsFor(small, keys), 3)
    decreases |keys|
  {
    if keys != [] {
      SavingsForFamily(small, keys[..|keys| - 1]);
    }
  }

  lemma AnomaliesFamily(monthly: MonthTable, categories: Table)
    ensures AllOfFamily(Anomalies(monthly, categories), 1)
  {
    DominanceFamily(categories);
  }

  lemma BudgetFamily(xs: seq<Entry>, monthly: MonthTable, now: Moment)
    requires ValidMoment(now)
    ensures AllOfFamily(BudgetRisks(xs, monthly, now), 2)
  {
  }

  lemma HabitsFamily(xs: seq<Entry>)
    ensures AllOfFamily(Habits(xs), 4)
  {
  }

  lemma HealthFamily(s: Summary)
    ensures AllOfFamily(Health(s), 5)
  {
  }

  lemma SavingsFamily(xs: seq<Entry>)
    ensures AllOfFamily(Savings(xs), 3)
  {
    var small := SmallRows(xs);
    if |small| > 0 {
      SavingsForFamily(small, GroupKeys(small, CategoryOf, StrLt));
    }
  }

  /** Appending a detector's alerts after those of earlier detectors keeps the order. */
  lemma AppendFamily(s: seq<Insight>, t: seq<Insight>, n: nat)
    requires FamilyOrdered(s) && (forall i :: 0 <= i < |s| ==> Family(s[i].kind) <= n)
    requires AllOfFamily(t, n)
    ensures FamilyOrdered(s + t) && forall i :: 0 <= i < |s + t| ==> Family((s + t)[i].kind) <= n
  {
  }

  lemma FamiliesInOrder(a: seq<Insight>, b: seq<Insight>, c: seq<Insight>, d: seq<Insight>, e: seq<Insight>)
    requires AllOfFamily(a, 1) && AllOfFamily(b, 2) && AllOfFamily(c, 3) && AllOfFamily(d, 4) && AllOfFamily(e, 5)
    ensures FamilyOrdered(a + b + c + d + e)
  {
    AppendFamily(a, b, 2);
    AppendFamily(a + b, c, 3);
    AppendFamily(a + b + c, d, 4);
    AppendFamily(a + b + c + d, e, 5);
  }

  /** The alerts come grouped by detector, in the order the detectors run. */
  lemma InsightsInFamilyOrder(xs: seq<Entry>, summary: Summary, categories: Table, monthly: MonthTable, now: Moment)
    requires ValidMoment(now)
    ensures FamilyOrdered(AllInsights(xs, summary, categories, monthly, now))
  {
    AnomaliesFamily(monthly, categories);
    BudgetFamily(xs, monthly, now);
    SavingsFamily(xs);
    HabitsFamily(xs);
    HealthFamily(summary);
    FamiliesInOrder(Anomalies(monthly, categories), BudgetRisks(xs, monthly, now), Savings(xs), Habits(xs), Health(summary));
  }
}
