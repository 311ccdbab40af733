/**
 * `DataAnalyzer.analyze_transactions`: nothing for no transactions, otherwise the
 * report with its seven sections and the alerts derived from them. The frame's rows
 * are the transactions after `to_datetime` and `to_numeric`; the clock reading the
 * budget detector takes is the parameter `now`.
 */
module Analysis {
  import opened Wrappers
  import opened Calendar
  import opened Aggregate
  import opened Analyzer
  import opened Spending
  import opened Insights

  /** The dict `analyze_transactions` returns, one field per key. */
  datatype Report = Report(
    summary: Summary,
    byCategory: Table,
    byMonth: MonthTable,
    spendingTrends: Trends,
    topExpenses: seq<TopExpense>,
    incomeVsExpenses: Balance,
    spendingPatterns: Patterns,
    aiInsights: seq<Insight>)

  /** The report, `None` standing for the empty dict returned for no transactions. */
  function Analyze(xs: seq<Entry>, now: Moment): (r: Option<Report>)
    requires Dated(xs) && ValidMoment(now)
    ensures r.None? <==> xs == []
  {
    if xs == [] then None
    else
      var summary, categories, monthly := SummaryStats(xs), ByCategory(xs), ByMonth(xs);
      Some(Report(summary, categories, monthly, SpendingTrends(xs), TopExpenses(xs), IncomeVsExpenses(xs),
        SpendingPatterns(xs), AllInsights(xs, summary, categories, monthly, now)))
  }

  /** `analyze_transactions`: the sections are computed first and the insights read them. */
  method AnalyzeTransactions(xs: seq<Entry>, now: Moment) returns (r: Option<Report>)
    requires Dated(xs) && ValidMoment(now)
    ensures r == Analyze(xs, now)
  {
    if xs == [] {
      return None;
    }
    var summary := SummaryStats(xs);
    var categories := AnalyzeByCategory(xs);
    var monthly := AnalyzeByMonth(xs);
    var report := Report(summary, categories, monthly, SpendingTrends(xs), TopExpenses(xs), IncomeVsExpenses(xs),
      SpendingPatterns(xs), []);
    var insights := GenerateInsights(xs, report.summary, report.byCategory, report.byMonth, now);
    r := Some(report.(aiInsights := insights));
  }

  /**
   * The sections of one report agree: the months split the transactions and the
   * totals of the summary, the counts of the income/expense comparison do not exceed
   * the transactions, the top list holds at most ten entries, and the alerts come
   * grouped by detector in the order the detectors run.
   */
  lemma SectionsAgree(xs: seq<Entry>, now: Moment)
    requires Dated(xs) && ValidMoment(now) && xs != []
    ensures var a := Analyze(xs, now).value;
      && CountOf(a.byMonth) == a.summary.totalTransactions
      && ExpensesOf(a.byMonth) == a.summary.totalExpenses
      && IncomeOf(a.byMonth) == a.summary.totalIncome
      && a.incomeVsExpenses.incomeCount + a.incomeVsExpenses.expenseCount <= a.summary.totalTransactions
      && |a.topExpenses| <= TopLimit
      && FamilyOrdered(a.aiInsights)
  {
    MonthTotals(xs);
    TopExpensesLength(xs);
    SignCounts(xs);
    InsightsInFamilyOrder(xs, SummaryStats(xs), ByCategory(xs), ByMonth(xs), now);
  }

  /** No row is both income and expense. */
  lemma {:induction false} SignCounts(xs: seq<Entry>)
    ensures |IncomeRows(xs)| + |ExpenseRows(xs)| <= |xs|
    decreases |xs|
  {
    if xs != [] {
      SignCounts(xs[..|xs| - 1]);
    }
  }
}
