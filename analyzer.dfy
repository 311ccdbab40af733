/**
 * The report sections of `DataAnalyzer`, each a function of the frame: the summary,
 * the per-category and per-month tables, the spending trends, the top expenses, the
 * income/expense comparison and the spending patterns. The two sections the source
 * fills in loops are also written as methods proved equal to their functions.
 * Amounts are exact; the source's rounding to cents is not modelled.
 */
module Analyzer {
  import opened Wrappers
  import opened Calendar
  import opened Aggregate

  /** Every row's `date` is a real datetime (what `pd.to_datetime` produced). */
  predicate Dated(xs: seq<Entry>)
  {
    forall k :: 0 <= k < |xs| ==> ValidMoment(xs[k].when)
  }

  function ExpenseRows(xs: seq<Entry>): (r: seq<Entry>)
    ensures forall k :: 0 <= k < |r| ==> IsExpense(r[k])
  {
    Where(xs, IsExpense)
  }

  function IncomeRows(xs: seq<Entry>): (r: seq<Entry>)
    ensures forall k :: 0 <= k < |r| ==> IsIncome(r[k])
  {
    Where(xs, IsIncome)
  }

  /** `df[df.amount > 0].amount.sum()`. */
  function TotalIncome(xs: seq<Entry>): real
  {
    Sum(IncomeRows(xs), Amount)
  }

  /** `abs(df[df.amount < 0].amount.sum())`: the sum of the outflows. */
  function TotalExpenses(xs: seq<Entry>): real
  {
    Sum(ExpenseRows(xs), Outflow)
  }

  /** Filtering to one sign first does not change the inflow or outflow column sums. */
  lemma SignTotals(xs: seq<Entry>)
    ensures TotalIncome(xs) == Sum(xs, Inflow)
    ensures TotalExpenses(xs) == Sum(xs, Outflow)
  {
    SumWhere(xs, IsExpense, Outflow);
    SumWhere(xs, IsIncome, Inflow);
    AmountIsInflow(IncomeRows(xs));
  }

  lemma {:induction false} AmountIsInflow(xs: seq<Entry>)
    requires forall k :: 0 <= k < |xs| ==> IsIncome(xs[k])
    ensures Sum(xs, Amount) == Sum(xs, Inflow)
    decreases |xs|
  {
    if xs != [] {
      AmountIsInflow(xs[..|xs| - 1]);
    }
  }

  /**
   * Income and expenses split every amount: the expense total is not negative,
   * income less expenses is the sum of all amounts, and a zero amount is in neither.
   */
  lemma IncomeLessExpenses(xs: seq<Entry>)
    ensures TotalIncome(xs) >= 0.0 && TotalExpenses(xs) >= 0.0
    ensures TotalIncome(xs) - TotalExpenses(xs) == Sum(xs, Amount)
  {
    SignTotals(xs);
    SplitBySign(xs);
    SumNonNegative(xs, Inflow);
    SumNonNegative(xs, Outflow);
  }

  // ---------------------------------------------------------------------------
  // Summary
  // ---------------------------------------------------------------------------

  /** The dates as the microsecond stamps `min()` and `max()` compare. */
  function StampColumn(xs: seq<Entry>): (r: seq<real>)
    requires Dated(xs)
    ensures |r| == |xs| && forall k :: 0 <= k < |xs| ==> r[k] == Stamp(xs[k].when) as real
  {
    seq(|xs|, k requires 0 <= k < |xs| && Dated(xs) => Stamp(xs[k].when) as real)
  }

  datatype Summary = Summary(
    totalTransactions: nat, totalIncome: real, totalExpenses: real, netIncome: real,
    averageTransaction: real, start: Moment, end: Moment)

  /** The `min()` and `max()` of the date column. */
  function DateRange(xs: seq<Entry>): (r: (Moment, Moment))
    requires xs != [] && Dated(xs)
    ensures ValidMoment(r.0) && ValidMoment(r.1)
    ensures forall k :: 0 <= k < |xs| ==> Stamp(r.0) <= Stamp(xs[k].when) <= Stamp(r.1)
    ensures r.0 in Moments(xs) && r.1 in Moments(xs)
  {
    var stamps := StampColumn(xs);
    var i, j := ArgMin(stamps), ArgMax(stamps);
    assert Moments(xs)[i] == xs[i].when && Moments(xs)[j] == xs[j].when;
    (xs[i].when, xs[j].when)
  }

  /** `_get_summary_stats`, called only on a non-empty frame. */
  function SummaryStats(xs: seq<Entry>): (r: Summary)
    requires xs != [] && Dated(xs)
    ensures r.totalTransactions == |xs|
    ensures r.netIncome == r.totalIncome - r.totalExpenses
    ensures r.averageTransaction == Mean(r.netIncome, |xs|)
    ensures r.start == DateRange(xs).0 && r.end == DateRange(xs).1
  {
    var income, expenses := TotalIncome(xs), TotalExpenses(xs);
    var net := income - expenses;
    var range := DateRange(xs);
    Summary(|xs|, income, expenses, net, Mean(net, |xs|), range.0, range.1)
  }

  /** Both totals are non-negative and the net is the plain sum of the amounts. */
  lemma SummaryTotals(xs: seq<Entry>)
    requires xs != [] && Dated(xs)
    ensures SummaryStats(xs).totalIncome >= 0.0 && SummaryStats(xs).totalExpenses >= 0.0
    ensures SummaryStats(xs).netIncome == Sum(xs, Amount)
  {
    IncomeLessExpenses(xs);
  }

  function Moments(xs: seq<Entry>): (r: seq<Moment>)
    ensures |r| == |xs| && forall k :: 0 <= k < |xs| ==> r[k] == xs[k].when
  {
    seq(|xs|, k requires 0 <= k < |xs| => xs[k].when)
  }

  /** `mean()` of `n` values summing to `total`. */
  function Mean(total: real, n: nat): real
    requires n > 0
  {
    total / (n as real)
  }

  /** `n` values at the mean add up to the total. */
  lemma MeanScales(total: real, n: nat)
    requires n > 0
    ensures Mean(total, n) * (n as real) == total
  {
  }

  // ---------------------------------------------------------------------------
  // By category
  // ---------------------------------------------------------------------------

  datatype Flow = ExpenseFlow | IncomeFlow

  /**
   * One value of `categories`: `total` is `total_spent` for an expense category and
   * `total_earned` for an income one.
   */
  datatype CategoryStat = CategoryStat(flow: Flow, total: real, count: nat, average: real, percentage: real)

  /** A dict from category names, in insertion order. */
  type Table = seq<(string, CategoryStat)>

  function TableKeys(d: Table): (r: seq<string>)
    ensures |r| == |d| && forall i :: 0 <= i < |d| ==> r[i] == d[i].0
  {
    if d == [] then [] else TableKeys(d[..|d| - 1]) + [d[|d| - 1].0]
  }

  function Find(d: Table, k: string): (r: Option<CategoryStat>)
    ensures r.None? <==> k !in TableKeys(d)
  {
    if d == [] then None
    else if d[|d| - 1].0 == k then Some(d[|d| - 1].1)
    else Find(d[..|d| - 1], k)
  }

  /**
   * `d[k] = v`: a key already present keeps its position and takes the new value,
   * a new key goes at the end.
   */
  function Put(d: Table, k: string, v: CategoryStat): (r: Table)
    ensures Find(r, k) == Some(v)
    ensures forall j :: j != k ==> Find(r, j) == Find(d, j)
    ensures k in TableKeys(d) ==> TableKeys(r) == TableKeys(d)
    ensures k !in TableKeys(d) ==> TableKeys(r) == TableKeys(d) + [k]
  {
    if k !in TableKeys(d) then
      var r := d + [(k, v)];
      assert r[..|r| - 1] == d;
      r
    else if d[|d| - 1].0 == k then
      var r := d[..|d| - 1] + [(k, v)];
      assert r[..|r| - 1] == d[..|d| - 1];
      r
    else
      var r := Put(d[..|d| - 1], k, v) + [d[|d| - 1]];
      assert r[..|r| - 1] == Put(d[..|d| - 1], k, v);
      assert k in TableKeys(d[..|d| - 1]);
      r
  }

  function CategoryOf(x: Entry): string { x.category }

  /** The rows of one category among `rows`. */
  function InCategory(rows: seq<Entry>, c: string): seq<Entry>
  {
    Select(rows, CategoryOf, c)
  }

  /** The sorted categories of the expense rows. */
  function ExpenseKeys(xs: seq<Entry>): (r: seq<string>)
    ensures Distinct(r)
  {
    GroupKeys(ExpenseRows(xs), CategoryOf, StrLt)
  }

  lemma ExpenseKeysMembers(xs: seq<Entry>, c: string)
    ensures c in ExpenseKeys(xs) <==> exists k :: 0 <= k < |xs| && IsExpense(xs[k]) && xs[k].category == c
  {
    WhereMembers(xs, IsExpense);
    GroupKeysMembers(ExpenseRows(xs), CategoryOf, StrLt);
    if c in ExpenseKeys(xs) {
      var j :| 0 <= j < |ExpenseRows(xs)| && ExpenseRows(xs)[j].category == c;
      var k :| 0 <= k < |xs| && xs[k] == ExpenseRows(xs)[j];
    }
  }

  /** The sorted categories of the income rows. */
  function IncomeKeys(xs: seq<Entry>): (r: seq<string>)
    ensures Distinct(r)
  {
    GroupKeys(IncomeRows(xs), CategoryOf, StrLt)
  }

  lemma IncomeKeysMembers(xs: seq<Entry>, c: string)
    ensures c in IncomeKeys(xs) <==> exists k :: 0 <= k < |xs| && IsIncome(xs[k]) && xs[k].category == c
  {
    WhereMembers(xs, IsIncome);
    GroupKeysMembers(IncomeRows(xs), CategoryOf, StrLt);
    if c in IncomeKeys(xs) {
      var j :| 0 <= j < |IncomeRows(xs)| && IncomeRows(xs)[j].category == c;
      var k :| 0 <= k < |xs| && xs[k] == IncomeRows(xs)[j];
    }
  }

  /** `expense_by_category.sum()`: the sum of the per-category spending. */
  function CategorySpending(xs: seq<Entry>): real
  {
    GroupSums(ExpenseRows(xs), CategoryOf, ExpenseKeys(xs), Outflow)
  }

  /** The per-category spending adds up to the expense total of the summary. */
  lemma CategorySpendingIsTotal(xs: seq<Entry>)
    ensures CategorySpending(xs) == TotalExpenses(xs)
  {
    var rows := ExpenseRows(xs);
    GroupKeysMembers(rows, CategoryOf, StrLt);
    Partition(rows, CategoryOf, ExpenseKeys(xs), Outflow);
  }

  /** `percentage_of_total`: a share of `total` in percent, 0 when there is no total. */
  function Percent(part: real, total: real): real
  {
    if total > 0.0 then part / total * 100.0 else 0.0
  }

  lemma PercentAdd(a: real, b: real, total: real)
    requires total > 0.0
    ensures Percent(a, total) + Percent(b, total) == Percent(a + b, total)
  {
    assert a / total + b / total == (a + b) / total;
  }

  /** The per-category `mean()`, stored as 0 for a category with no rows. */
  function Average(total: real, count: nat): (a: real)
    ensures count > 0 ==> a * (count as real) == total
    ensures count == 0 ==> a == 0.0
  {
    if count > 0 then total / (count as real) else 0.0
  }

  /** The value `_analyze_by_category` stores for an expense category. */
  function ExpenseStat(xs: seq<Entry>, c: string): (r: CategoryStat)
    ensures r.flow == ExpenseFlow && r.average == Average(r.total, r.count)
  {
    var rows := InCategory(ExpenseRows(xs), c);
    var spent, count := Sum(rows, Outflow), |rows|;
    CategoryStat(ExpenseFlow, spent, count, Average(spent, count), Percent(spent, CategorySpending(xs)))
  }

  /** The value `_analyze_by_category` stores for an income category. */
  function IncomeStat(xs: seq<Entry>, c: string): (r: CategoryStat)
    ensures r.flow == IncomeFlow && r.percentage == 0.0 && r.average == Average(r.total, r.count)
  {
    var rows := InCategory(IncomeRows(xs), c);
    var earned, count := Sum(rows, Amount), |rows|;
    CategoryStat(IncomeFlow, earned, count, Average(earned, count), 0.0)
  }

  /** The expense loop's assignments for the categories `keys`, in order. */
  function ExpenseEntries(xs: seq<Entry>, keys: seq<string>): (r: Table)
    ensures TableKeys(r) == keys
  {
    if keys == [] then []
    else ExpenseEntries(xs, keys[..|keys| - 1]) + [(keys[|keys| - 1], ExpenseStat(xs, keys[|keys| - 1]))]
  }

  /** The income loop's assignments for the categories `keys`, in order. */
  function IncomeEntries(xs: seq<Entry>, keys: seq<string>): (r: Table)
    ensures TableKeys(r) == keys
  {
    if keys == [] then []
    else IncomeEntries(xs, keys[..|keys| - 1]) + [(keys[|keys| - 1], IncomeStat(xs, keys[|keys| - 1]))]
  }

  /** `d` after the assignments `es`, made one after the other. */
  function Store(d: Table, es: Table): Table
  {
    if es == [] then d else Put(Store(d, es[..|es| - 1]), es[|es| - 1].0, es[|es| - 1].1)
  }

  /** `_analyze_by_category`. */
  function ByCategory(xs: seq<Entry>): Table
  {
    Store(Store([], ExpenseEntries(xs, ExpenseKeys(xs))), IncomeEntries(xs, IncomeKeys(xs)))
  }

  /** Each assigned key holds its value. */
  lemma {:induction false} FindExpenseEntries(xs: seq<Entry>, keys: seq<string>, c: string)
    ensures Find(ExpenseEntries(xs, keys), c) == if c in keys then Some(ExpenseStat(xs, c)) else None
    decreases |keys|
  {
    if keys != [] {
      var init := keys[..|keys| - 1];
      assert keys == init + [keys[|keys| - 1]];
      FindExpenseEntries(xs, init, c);
      assert ExpenseEntries(xs, keys)[..|init|] == ExpenseEntries(xs, init);
    }
  }

  lemma {:induction false} FindIncomeEntries(xs: seq<Entry>, keys: seq<string>, c: string)
    ensures Find(IncomeEntries(xs, keys), c) == if c in keys then Some(IncomeStat(xs, c)) else None
    decreases |keys|
  {
    if keys != [] {
      var init := keys[..|keys| - 1];
      assert keys == init + [keys[|keys| - 1]];
      FindIncomeEntries(xs, init, c);
      assert IncomeEntries(xs, keys)[..|init|] == IncomeEntries(xs, init);
    }
  }

  /** After the assignments, a key holds its assigned value, or what it held before. */
  lemma {:induction false} FindStore(d: Table, es: Table, c: string)
    ensures Find(Store(d, es), c) == if c in TableKeys(es) then Find(es, c) else Find(d, c)
    decreases |es|
  {
    if es != [] {
      FindStore(d, es[..|es| - 1], c);
      assert TableKeys(es) == TableKeys(es[..|es| - 1]) + [es[|es| - 1].0];
    }
  }

  /** Assigning distinct new keys to an empty dict lists them in order. */
  lemma {:induction false} StoreKeys(es: Table)
    requires Distinct(TableKeys(es))
    ensures TableKeys(Store([], es)) == TableKeys(es)
    decreases |es|
  {
    if es != [] {
      var init := es[..|es| - 1];
      assert TableKeys(es) == TableKeys(init) + [es[|es| - 1].0];
      assert Distinct(TableKeys(init));
      StoreKeys(init);
    }
  }

  /** Assignments leave the positions of the keys already in the dict alone. */
  lemma {:induction false} StoreKeepsPositions(d: Table, es: Table)
    ensures |Store(d, es)| >= |d|
    ensures TableKeys(Store(d, es))[..|d|] == TableKeys(d)
    decreases |es|
  {
    if es != [] {
      StoreKeepsPositions(d, es[..|es| - 1]);
      var t := Store(d, es[..|es| - 1]);
      assert TableKeys(Put(t, es[|es| - 1].0, es[|es| - 1].1))[..|t|] == TableKeys(t);
    }
  }

  /**
   * What `categories[c]` holds: the income entry when `c` has a positive amount, else
   * the expense entry when it has a negative one, and nothing when it has neither.
   */
  lemma CategoryLookup(xs: seq<Entry>, c: string)
    ensures Find(ByCategory(xs), c) ==
      if c in IncomeKeys(xs) then Some(IncomeStat(xs, c))
      else if c in ExpenseKeys(xs) then Some(ExpenseStat(xs, c))
      else None
  {
    FindStore(Store([], ExpenseEntries(xs, ExpenseKeys(xs))), IncomeEntries(xs, IncomeKeys(xs)), c);
    FindStore([], ExpenseEntries(xs, ExpenseKeys(xs)), c);
    FindExpenseEntries(xs, ExpenseKeys(xs), c);
    FindIncomeEntries(xs, IncomeKeys(xs), c);
  }

  /**
   * A category with amounts of both signs ends up with only its income entry, at the
   * place its expense entry was stored; the expense categories come first, sorted.
   */
  lemma BothSignsKeepIncome(xs: seq<Entry>, c: string, i: nat, j: nat)
    requires i < |xs| && j < |xs| && xs[i].category == c == xs[j].category
    requires IsExpense(xs[i]) && IsIncome(xs[j])
    ensures Find(ByCategory(xs), c) == Some(IncomeStat(xs, c))
    ensures IncomeStat(xs, c).flow == IncomeFlow && IncomeStat(xs, c).percentage == 0.0
    ensures c in ExpenseKeys(xs)
    ensures |ExpenseKeys(xs)| <= |ByCategory(xs)|
    ensures TableKeys(ByCategory(xs))[..|ExpenseKeys(xs)|] == ExpenseKeys(xs)
  {
    IncomeKeysMembers(xs, c);
    ExpenseKeysMembers(xs, c);
    CategoryLookup(xs, c);
    StoreKeys(ExpenseEntries(xs, ExpenseKeys(xs)));
    StoreKeepsPositions(Store([], ExpenseEntries(xs, ExpenseKeys(xs))), IncomeEntries(xs, IncomeKeys(xs)));
  }

  /** Σ of the expense percentages over `keys`. */
  function PercentSum(xs: seq<Entry>, keys: seq<string>): real
  {
    if keys == [] then 0.0 else PercentSum(xs, keys[..|keys| - 1]) + ExpenseStat(xs, keys[|keys| - 1]).percentage
  }

  lemma {:induction false} PercentSumScaled(xs: seq<Entry>, keys: seq<string>)
    requires CategorySpending(xs) > 0.0
    ensures PercentSum(xs, keys) == Percent(GroupSums(ExpenseRows(xs), CategoryOf, keys, Outflow), CategorySpending(xs))
    decreases |keys|
  {
    var t := CategorySpending(xs);
    if keys == [] {
      assert Percent(0.0, t) == 0.0;
    } else {
      var init, c := keys[..|keys| - 1], keys[|keys| - 1];
      var before := GroupSums(ExpenseRows(xs), CategoryOf, init, Outflow);
      var spent := Sum(InCategory(ExpenseRows(xs), c), Outflow);
      assert GroupSums(ExpenseRows(xs), CategoryOf, keys, Outflow) == before + spent;
      assert ExpenseStat(xs, c).percentage == Percent(spent, t);
      PercentSumScaled(xs, init);
      PercentAdd(before, spent, t);
    }
  }

  /** With any expense at all, the expense categories' percentages add up to exactly 100. */
  lemma PercentagesSumTo100(xs: seq<Entry>, k: nat)
    requires k < |xs| && IsExpense(xs[k])
    ensures PercentSum(xs, ExpenseKeys(xs)) == 100.0
  {
    var rows := ExpenseRows(xs);
    WhereMembers(xs, IsExpense);
    assert xs[k] in rows;
    var j :| 0 <= j < |rows| && rows[j] == xs[k];
    SumPositive(rows, Outflow, j);
    CategorySpendingIsTotal(xs);
    PercentSumScaled(xs, ExpenseKeys(xs));
    PercentWhole(CategorySpending(xs));
  }

  lemma PercentWhole(t: real)
    requires t > 0.0
    ensures Percent(t, t) == 100.0
  {
  }

  /**
   * `_analyze_by_category`: the expense categories are stored in sorted order, then the
   * income categories, each a plain dict assignment.
   */
  method AnalyzeByCategory(xs: seq<Entry>) returns (categories: Table)
    ensures categories == ByCategory(xs)
  {
    var expenseKeys, incomeKeys := ExpenseKeys(xs), IncomeKeys(xs);
    categories := [];
    for i := 0 to |expenseKeys|
      invariant categories == Store([], ExpenseEntries(xs, expenseKeys[..i]))
    {
      var c := expenseKeys[i];
      StoreExpenseStep(xs, expenseKeys, i);
      categories := Put(categories, c, ExpenseStat(xs, c));
    }
    assert expenseKeys[..|expenseKeys|] == expenseKeys;
    ghost var afterExpenses := categories;
    for i := 0 to |incomeKeys|
      invariant categories == Store(afterExpenses, IncomeEntries(xs, incomeKeys[..i]))
    {
      var c := incomeKeys[i];
      StoreIncomeStep(xs, afterExpenses, incomeKeys, i);
      categories := Put(categories, c, IncomeStat(xs, c));
    }
    assert incomeKeys[..|incomeKeys|] == incomeKeys;
  }

  lemma StoreStep(d: Table, es: Table, e: (string, CategoryStat))
    ensures Store(d, es + [e]) == Put(Store(d, es), e.0, e.1)
  {
    assert (es + [e])[..|es|] == es;
  }

  lemma StoreExpenseStep(xs: seq<Entry>, keys: seq<string>, i: nat)
    requires i < |keys|
    ensures Store([], ExpenseEntries(xs, keys[..i + 1]))
      == Put(Store([], ExpenseEntries(xs, keys[..i])), keys[i], ExpenseStat(xs, keys[i]))
  {
    assert keys[..i + 1][..i] == keys[..i];
    StoreStep([], ExpenseEntries(xs, keys[..i]), (keys[i], ExpenseStat(xs, keys[i])));
  }

  lemma StoreIncomeStep(xs: seq<Entry>, d: Table, keys: seq<string>, i: nat)
    requires i < |keys|
    ensures Store(d, IncomeEntries(xs, keys[..i + 1]))
      == Put(Store(d, IncomeEntries(xs, keys[..i])), keys[i], IncomeStat(xs, keys[i]))
  {
    assert keys[..i + 1][..i] == keys[..i];
    StoreStep(d, IncomeEntries(xs, keys[..i]), (keys[i], IncomeStat(xs, keys[i])));
  }

  // ---------------------------------------------------------------------------
  // By month
  // ---------------------------------------------------------------------------

  /** A `Period('M')`: its `str` is `YYYY-MM`. */
  datatype MonthKey = MonthKey(year: int, month: int)

  function MonthOf(x: Entry): MonthKey { MonthKey(x.when.date.year, x.when.date.month) }

  datatype MonthStat = MonthStat(income: real, expenses: real, net: real, count: nat)

  type MonthTable = seq<(MonthKey, MonthStat)>

  /** The value stored for one month: the summary totals of that month's rows. */
  function MonthStatOf(xs: seq<Entry>, m: MonthKey): (r: MonthStat)
    ensures r.expenses >= 0.0 && r.income >= 0.0 && r.net == r.income - r.expenses
  {
    var rows := Select(xs, MonthOf, m);
    IncomeLessExpenses(rows);
    MonthStat(TotalIncome(rows), TotalExpenses(rows), TotalIncome(rows) - TotalExpenses(rows), |rows|)
  }

  /**
   * `df['month'].unique()`: every month of the rows once, each before the months whose
   * first row comes later.
   */
  function MonthOrder(xs: seq<Entry>): (r: seq<MonthKey>)
    ensures Distinct(r)
    ensures forall m :: m in r <==> exists k :: 0 <= k < |xs| && MonthOf(xs[k]) == m
    ensures forall i, j :: 0 <= i < j < |r| ==>
      FirstIndex(KeyColumn(xs, MonthOf), r[i]) < FirstIndex(KeyColumn(xs, MonthOf), r[j])
  {
    var col := KeyColumn(xs, MonthOf);
    assert forall m :: m in col <==> exists k :: 0 <= k < |xs| && MonthOf(xs[k]) == m by {
      forall m | m in col
        ensures exists k :: 0 <= k < |xs| && MonthOf(xs[k]) == m
      {
        var k :| 0 <= k < |col| && col[k] == m;
      }
    }
    Unique(col)
  }

  /** The dict after the loop has stored the months `keys`. */
  function MonthRows(xs: seq<Entry>, keys: seq<MonthKey>): (r: MonthTable)
    ensures |r| == |keys| && forall i :: 0 <= i < |r| ==> r[i] == (keys[i], MonthStatOf(xs, keys[i]))
  {
    if keys == [] then [] else MonthRows(xs, keys[..|keys| - 1]) + [(keys[|keys| - 1], MonthStatOf(xs, keys[|keys| - 1]))]
  }

  /** `_analyze_by_month`: one entry per month, in order of first appearance. */
  function ByMonth(xs: seq<Entry>): MonthTable
  {
    MonthRows(xs, MonthOrder(xs))
  }

  function CountOf(t: MonthTable): nat
  {
    if t == [] then 0 else CountOf(t[..|t| - 1]) + t[|t| - 1].1.count
  }

  function ExpensesOf(t: MonthTable): real
  {
    if t == [] then 0.0 else ExpensesOf(t[..|t| - 1]) + t[|t| - 1].1.expenses
  }

  function IncomeOf(t: MonthTable): real
  {
    if t == [] then 0.0 else IncomeOf(t[..|t| - 1]) + t[|t| - 1].1.income
  }

  lemma {:induction false} MonthRowsSums(xs: seq<Entry>, keys: seq<MonthKey>)
    ensures CountOf(MonthRows(xs, keys)) as real == GroupSums(xs, MonthOf, keys, One)
    ensures ExpensesOf(MonthRows(xs, keys)) == GroupSums(xs, MonthOf, keys, Outflow)
    ensures IncomeOf(MonthRows(xs, keys)) == GroupSums(xs, MonthOf, keys, Inflow)
    decreases |keys|
  {
    if keys != [] {
      var init, m := keys[..|keys| - 1], keys[|keys| - 1];
      MonthRowsSums(xs, init);
      var rows := Select(xs, MonthOf, m);
      SumOne(rows);
      SignTotals(rows);
      assert MonthRows(xs, keys)[..|keys| - 1] == MonthRows(xs, init);
    }
  }

  /**
   * The months partition the rows: their counts add up to the number of rows, and
   * their income and expense totals to the summary's.
   */
  lemma MonthTotals(xs: seq<Entry>)
    ensures CountOf(ByMonth(xs)) == |xs|
    ensures ExpensesOf(ByMonth(xs)) == TotalExpenses(xs)
    ensures IncomeOf(ByMonth(xs)) == TotalIncome(xs)
  {
    var keys := MonthOrder(xs);
    MonthRowsSums(xs, keys);
    Partition(xs, MonthOf, keys, One);
    Partition(xs, MonthOf, keys, Outflow);
    Partition(xs, MonthOf, keys, Inflow);
    SumOne(xs);
    SignTotals(xs);
  }

  /** `_analyze_by_month`, looping over the months in order of first appearance. */
  method AnalyzeByMonth(xs: seq<Entry>) returns (monthly: MonthTable)
    ensures monthly == ByMonth(xs)
  {
    var months := MonthOrder(xs);
    monthly := [];
    for i := 0 to |months|
      invariant monthly == MonthRows(xs, months[..i])
    {
      var month := months[i];
      var monthRows := Select(xs, MonthOf, month);
      var income, expenses := TotalIncome(monthRows), TotalExpenses(monthRows);
      var stat := MonthStat(income, expenses, income - expenses, |monthRows|);
      assert stat == MonthStatOf(xs, month);
      MonthRowsStep(xs, months, i, stat);
      monthly := monthly + [(month, stat)];
    }
    assert months[..|months|] == months;
  }

  /** One more month: its row of the table is the statistics of its rows. */
  lemma MonthRowsStep(xs: seq<Entry>, keys: seq<MonthKey>, i: nat, stat: MonthStat)
    requires i < |keys|
    requires stat == MonthStatOf(xs, keys[i])
    ensures MonthRows(xs, keys[..i + 1]) == MonthRows(xs, keys[..i]) + [(keys[i], stat)]
  {
    var prefix := keys[..i + 1];
    assert prefix[..i] == keys[..i] && prefix[i] == keys[i];
    assert MonthRows(xs, prefix) == MonthRows(xs, prefix[..i]) + [(prefix[i], MonthStatOf(xs, prefix[i]))];
  }
}
