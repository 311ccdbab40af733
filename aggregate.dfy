/**
 * The frame the analyzer works on and the pandas operations it applies to it:
 * boolean filters, column sums, `groupby` with its sorted keys and `unique` with its
 * order of first appearance. A weight `w` is the column being summed.
 */
module Aggregate {
  import opened Calendar

  /** One row of the analyzer's DataFrame after `to_datetime` and `to_numeric`. */
  datatype Entry = Entry(when: Moment, description: string, amount: real, category: string)

  predicate IsExpense(x: Entry) { x.amount < 0.0 }
  predicate IsIncome(x: Entry) { x.amount > 0.0 }

  /** What a row adds to `abs(df[df.amount < 0].amount.sum())`. */
  function Outflow(x: Entry): (r: real)
    ensures r >= 0.0 && (r > 0.0 <==> IsExpense(x))
  {
    if x.amount < 0.0 then -x.amount else 0.0
  }

  /** What a row adds to `df[df.amount > 0].amount.sum()`. */
  function Inflow(x: Entry): (r: real)
    ensures r >= 0.0 && (r > 0.0 <==> IsIncome(x))
  {
    if x.amount > 0.0 then x.amount else 0.0
  }

  function Amount(x: Entry): real { x.amount }

  function Abs(a: real): (r: real)
    ensures r >= 0.0 && (r == a || r == -a)
  {
    if a < 0.0 then -a else a
  }

  function One(x: Entry): real { 1.0 }

  /** `column.sum()`: the sum of nothing is 0. */
  function Sum(xs: seq<Entry>, w: Entry -> real): real
  {
    if xs == [] then 0.0 else Sum(xs[..|xs| - 1], w) + w(xs[|xs| - 1])
  }

  lemma {:induction false} SumAppend(xs: seq<Entry>, ys: seq<Entry>, w: Entry -> real)
    ensures Sum(xs + ys, w) == Sum(xs, w) + Sum(ys, w)
    decreases |ys|
  {
    if ys != [] {
      assert (xs + ys)[..|xs + ys| - 1] == xs + ys[..|ys| - 1];
      SumAppend(xs, ys[..|ys| - 1], w);
    } else {
      assert xs + ys == xs;
    }
  }

  /** A sum of weights that are never negative is not negative. */
  lemma {:induction false} SumNonNegative(xs: seq<Entry>, w: Entry -> real)
    requires forall k :: 0 <= k < |xs| ==> w(xs[k]) >= 0.0
    ensures Sum(xs, w) >= 0.0
    decreases |xs|
  {
    if xs != [] {
      SumNonNegative(xs[..|xs| - 1], w);
    }
  }

  /** A sum of non-negative weights is positive when one of them is. */
  lemma {:induction false} SumPositive(xs: seq<Entry>, w: Entry -> real, k: nat)
    requires forall j :: 0 <= j < |xs| ==> w(xs[j]) >= 0.0
    requires k < |xs| && w(xs[k]) > 0.0
    ensures Sum(xs, w) > 0.0
    decreases |xs|
  {
    SumNonNegative(xs[..|xs| - 1], w);
    if k < |xs| - 1 {
      SumPositive(xs[..|xs| - 1], w, k);
    }
  }

  /** Counting rows is summing a column of ones. */
  lemma {:induction false} SumOne(xs: seq<Entry>)
    ensures Sum(xs, One) == |xs| as real
    decreases |xs|
  {
    if xs != [] {
      SumOne(xs[..|xs| - 1]);
    }
  }

  /** Every row's amount is its inflow less its outflow; a zero amount is in neither. */
  lemma {:induction false} SplitBySign(xs: seq<Entry>)
    ensures Sum(xs, Amount) == Sum(xs, Inflow) - Sum(xs, Outflow)
    decreases |xs|
  {
    if xs != [] {
      SplitBySign(xs[..|xs| - 1]);
    }
  }

  /** `df[mask]`: the rows satisfying `p`, in order. */
  function Where(xs: seq<Entry>, p: Entry -> bool): (r: seq<Entry>)
    ensures |r| <= |xs|
    ensures forall k :: 0 <= k < |r| ==> p(r[k])
  {
    if xs == [] then []
    else if p(xs[|xs| - 1]) then Where(xs[..|xs| - 1], p) + [xs[|xs| - 1]]
    else Where(xs[..|xs| - 1], p)
  }

  /** The filtered rows are rows of the frame, and every row passing the filter is kept. */
  lemma {:induction false} WhereMembers(xs: seq<Entry>, p: Entry -> bool)
    ensures forall k :: 0 <= k < |Where(xs, p)| ==> Where(xs, p)[k] in xs
    ensures forall k :: 0 <= k < |xs| && p(xs[k]) ==> xs[k] in Where(xs, p)
    decreases |xs|
  {
    if xs != [] {
      WhereMembers(xs[..|xs| - 1], p);
      assert forall y :: y in xs[..|xs| - 1] ==> y in xs;
    }
  }

  lemma {:induction false} WhereAppend(xs: seq<Entry>, x: Entry, p: Entry -> bool)
    ensures Where(xs + [x], p) == Where(xs, p) + (if p(x) then [x] else [])
  {
    assert (xs + [x])[..|xs|] == xs;
  }

  /** `df[df.key == k]`. */
  function Select<K(==)>(xs: seq<Entry>, key: Entry -> K, k: K): (r: seq<Entry>)
    ensures |r| <= |xs|
    ensures forall j :: 0 <= j < |r| ==> key(r[j]) == k
  {
    Where(xs, x => key(x) == k)
  }

  /** The selected rows are rows of the frame. */
  lemma SelectMembers<K>(xs: seq<Entry>, key: Entry -> K, k: K)
    ensures forall j :: 0 <= j < |Select(xs, key, k)| ==> Select(xs, key, k)[j] in xs
  {
    WhereMembers(xs, x => key(x) == k);
  }

  lemma SelectAppend<K>(xs: seq<Entry>, x: Entry, key: Entry -> K, k: K)
    ensures Select(xs + [x], key, k) == Select(xs, key, k) + (if key(x) == k then [x] else [])
  {
    WhereAppend(xs, x, y => key(y) == k);
  }

  /** Filtering twice keeps the rows that pass both filters. */
  lemma {:induction false} WhereWhere(xs: seq<Entry>, p: Entry -> bool, q: Entry -> bool)
    ensures Where(Where(xs, p), q) == Where(xs, x => p(x) && q(x))
    decreases |xs|
  {
    if xs != [] {
      var init, x := xs[..|xs| - 1], xs[|xs| - 1];
      assert xs == init + [x];
      WhereWhere(init, p, q);
      WhereAppend(init, x, p);
      WhereAppend(Where(init, p), x, q);
      WhereAppend(init, x, y => p(y) && q(y));
      if p(x) {
        WhereAppend(Where(init, p), x, q);
      }
    }
  }

  /** Rows with zero weight leave a sum unchanged. */
  lemma {:induction false} SumWhere(xs: seq<Entry>, p: Entry -> bool, w: Entry -> real)
    requires forall k :: 0 <= k < |xs| && !p(xs[k]) ==> w(xs[k]) == 0.0
    ensures Sum(Where(xs, p), w) == Sum(xs, w)
    decreases |xs|
  {
    if xs != [] {
      var init, x := xs[..|xs| - 1], xs[|xs| - 1];
      SumWhere(init, p, w);
      WhereAppend(init, x, p);
      assert xs == init + [x];
      SumAppend(Where(init, p), [x], w);
    }
  }

  // ---------------------------------------------------------------------------
  // Grouping
  // ---------------------------------------------------------------------------

  predicate Distinct<K(==)>(s: seq<K>)
  {
    forall i, j :: 0 <= i < j < |s| ==> s[i] != s[j]
  }

  /** Σ over the groups `keys` of the sum of `w` within the group. */
  function GroupSums<K(==)>(xs: seq<Entry>, key: Entry -> K, keys: seq<K>, w: Entry -> real): real
  {
    if keys == [] then 0.0
    else GroupSums(xs, key, keys[..|keys| - 1], w) + Sum(Select(xs, key, keys[|keys| - 1]), w)
  }

  lemma {:induction false} GroupSumsStep<K>(xs: seq<Entry>, x: Entry, key: Entry -> K, keys: seq<K>, w: Entry -> real)
    requires Distinct(keys)
    ensures GroupSums(xs + [x], key, keys, w)
      == GroupSums(xs, key, keys, w) + (if key(x) in keys then w(x) else 0.0)
    decreases |keys|
  {
    if keys != [] {
      var init, last := keys[..|keys| - 1], keys[|keys| - 1];
      assert Distinct(init);
      GroupSumsStep(xs, x, key, init, w);
      SelectAppend(xs, x, key, last);
      SumAppend(Select(xs, key, last), [x], w);
      assert key(x) in keys <==> key(x) in init || key(x) == last by {
        assert keys == init + [last];
      }
      assert key(x) == last ==> key(x) !in init;
    }
  }

  lemma {:induction false} GroupSumsEmpty<K>(key: Entry -> K, keys: seq<K>, w: Entry -> real)
    ensures GroupSums([], key, keys, w) == 0.0
    decreases |keys|
  {
    if keys != [] {
      GroupSumsEmpty(key, keys[..|keys| - 1], w);
    }
  }

  /**
   * The groups partition the rows: when the keys are distinct and every row's key is
   * one of them, the group sums add up to the sum over all rows.
   */
  lemma {:induction false} Partition<K>(xs: seq<Entry>, key: Entry -> K, keys: seq<K>, w: Entry -> real)
    requires Distinct(keys)
    requires forall j :: 0 <= j < |xs| ==> key(xs[j]) in keys
    ensures GroupSums(xs, key, keys, w) == Sum(xs, w)
    decreases |xs|
  {
    if xs == [] {
      GroupSumsEmpty(key, keys, w);
    } else {
      var init, x := xs[..|xs| - 1], xs[|xs| - 1];
      assert xs == init + [x];
      Partition(init, key, keys, w);
      GroupSumsStep(init, x, key, keys, w);
    }
  }

  /** The keys of the rows, row by row. */
  function KeyColumn<K>(xs: seq<Entry>, key: Entry -> K): (r: seq<K>)
    ensures |r| == |xs| && forall j :: 0 <= j < |xs| ==> r[j] == key(xs[j])
  {
    seq(|xs|, j requires 0 <= j < |xs| => key(xs[j]))
  }

  /** The position where `y` first occurs in `s`; `|s|` when it does not occur. */
  function FirstIndex<K(==)>(s: seq<K>, y: K): (k: nat)
    ensures k <= |s| && (k < |s| <==> y in s)
    ensures k < |s| ==> s[k] == y
    ensures forall j :: 0 <= j < k ==> s[j] != y
  {
    if s == [] then 0 else if s[0] == y then 0 else 1 + FirstIndex(s[1..], y)
  }

  /** A value occurring in a prefix first occurs where it first occurs in the prefix. */
  lemma FirstIndexPrefix<K>(s: seq<K>, n: nat, y: K)
    requires n <= |s| && y in s[..n]
    ensures FirstIndex(s, y) == FirstIndex(s[..n], y) < n
  {
    var b := FirstIndex(s[..n], y);
    assert s[b] == y;
  }

  /** A value first occurring last first occurs at the last position. */
  lemma FirstIndexLast<K>(s: seq<K>)
    requires s != [] && s[|s| - 1] !in s[..|s| - 1]
    ensures FirstIndex(s, s[|s| - 1]) == |s| - 1
  {
  }

  /** `unique()`: each value once, in order of first appearance. */
  function Unique<K(==,!new)>(s: seq<K>): (r: seq<K>)
    ensures Distinct(r)
    ensures forall y :: y in r <==> y in s
    ensures forall i, j :: 0 <= i < j < |r| ==> FirstIndex(s, r[i]) < FirstIndex(s, r[j])
  {
    if s == [] then []
    else
      var init := Unique(s[..|s| - 1]);
      UniqueStep(s, init);
      if s[|s| - 1] in init then init else init + [s[|s| - 1]]
  }

  /** One more value at the end of `s` keeps what `Unique` promises of the prefix. */
  lemma UniqueStep<K>(s: seq<K>, init: seq<K>)
    requires s != []
    requires Distinct(init)
    requires forall y :: y in init <==> y in s[..|s| - 1]
    requires forall i, j :: 0 <= i < j < |init| ==> FirstIndex(s[..|s| - 1], init[i]) < FirstIndex(s[..|s| - 1], init[j])
    ensures var r := if s[|s| - 1] in init then init else init + [s[|s| - 1]];
      && Distinct(r)
      && (forall y :: y in r <==> y in s)
      && (forall i, j :: 0 <= i < j < |r| ==> FirstIndex(s, r[i]) < FirstIndex(s, r[j]))
  {
    var n := |s| - 1;
    assert s == s[..n] + [s[n]];
    assert forall y :: y in s <==> y in s[..n] || y == s[n];
    UniqueStepOrder(s, init);
  }

  lemma UniqueStepOrder<K>(s: seq<K>, init: seq<K>)
    requires s != []
    requires forall y :: y in init <==> y in s[..|s| - 1]
    requires forall i, j :: 0 <= i < j < |init| ==> FirstIndex(s[..|s| - 1], init[i]) < FirstIndex(s[..|s| - 1], init[j])
    ensures var r := if s[|s| - 1] in init then init else init + [s[|s| - 1]];
      forall i, j :: 0 <= i < j < |r| ==> FirstIndex(s, r[i]) < FirstIndex(s, r[j])
  {
    var n := |s| - 1;
    forall i | 0 <= i < |init|
      ensures FirstIndex(s, init[i]) == FirstIndex(s[..n], init[i]) < n
    {
      assert init[i] in init;
      FirstIndexPrefix(s, n, init[i]);
    }
    if s[n] !in init {
      FirstIndexLast(s);
      var r := init + [s[n]];
      assert forall k :: 0 <= k < |init| ==> r[k] == init[k];
    }
  }

  // ---------------------------------------------------------------------------
  // Sorted keys
  // ---------------------------------------------------------------------------

  /** `lt` is transitive, orders every pair of distinct values and no value before itself. */
  ghost predicate StrictTotal<K(!new)>(lt: (K, K) -> bool)
  {
    && (forall a :: !lt(a, a))
    && (forall a, b :: a != b ==> lt(a, b) || lt(b, a))
    && (forall a, b, c :: lt(a, b) && lt(b, c) ==> lt(a, c))
  }

  predicate SortedBy<K>(s: seq<K>, lt: (K, K) -> bool)
  {
    forall i, j :: 0 <= i < j < |s| ==> lt(s[i], s[j])
  }

  lemma SortedIsDistinct<K(!new)>(s: seq<K>, lt: (K, K) -> bool)
    requires StrictTotal(lt) && SortedBy(s, lt)
    ensures Distinct(s)
  {
    forall i, j | 0 <= i < j < |s|
      ensures s[i] != s[j]
    {
      assert lt(s[i], s[j]);
      assert !lt(s[i], s[i]);
    }
  }

  /** In a sorted list, a value that precedes another sits at an earlier position. */
  lemma SortedIndexOrder<K(!new)>(s: seq<K>, lt: (K, K) -> bool, i: nat, j: nat)
    requires StrictTotal(lt) && SortedBy(s, lt)
    requires i < |s| && j < |s| && lt(s[i], s[j])
    ensures i < j
  {
    if j < i {
      assert false;
    }
  }

  /** `x` placed before the first value of `s` that it precedes. */
  function Place<K(==,!new)>(s: seq<K>, x: K, lt: (K, K) -> bool): (r: seq<K>)
    ensures |r| == |s| + 1
    ensures forall y :: y in r <==> y in s || y == x
    ensures Distinct(s) && x !in s ==> Distinct(r)
  {
    if s == [] then [x]
    else if lt(x, s[0]) then [x] + s
    else
      var rest := Place(s[1..], x, lt);
      assert forall y :: y in s <==> y == s[0] || y in s[1..] by {
        assert s == [s[0]] + s[1..];
      }
      assert Distinct(s) ==> Distinct(s[1..]) && s[0] !in s[1..];
      [s[0]] + rest
  }

  /** Placing a new value into a sorted list keeps it sorted. */
  lemma {:induction false} PlaceSorted<K(!new)>(s: seq<K>, x: K, lt: (K, K) -> bool)
    requires StrictTotal(lt) && SortedBy(s, lt) && x !in s
    ensures SortedBy(Place(s, x, lt), lt)
    decreases |s|
  {
    if s != [] && !lt(x, s[0]) {
      assert lt(s[0], x);
      assert s == [s[0]] + s[1..];
      PlaceSorted(s[1..], x, lt);
      var rest := Place(s[1..], x, lt);
      forall j | 0 <= j < |rest|
        ensures lt(s[0], rest[j])
      {
        assert rest[j] in rest;
        if rest[j] != x {
          var k :| 0 <= k < |s[1..]| && s[1..][k] == rest[j];
          assert s[k + 1] == rest[j];
        }
      }
    }
  }

  /** `sorted(set(s))`: the distinct values of `s` (in increasing order, by `SortListSorted`). */
  function SortList<K(==,!new)>(s: seq<K>, lt: (K, K) -> bool): (r: seq<K>)
    ensures Distinct(r)
    ensures forall y :: y in r <==> y in s
    ensures Distinct(s) ==> |r| == |s|
  {
    if s == [] then []
    else
      var init, last := s[..|s| - 1], s[|s| - 1];
      assert forall y :: y in s <==> y in init || y == last by {
        assert s == init + [last];
      }
      assert Distinct(s) ==> Distinct(init) && last !in init;
      var sorted := SortList(init, lt);
      if last in sorted then sorted else Place(sorted, last, lt)
  }

  lemma {:induction false} SortListSorted<K(!new)>(s: seq<K>, lt: (K, K) -> bool)
    requires StrictTotal(lt)
    ensures SortedBy(SortList(s, lt), lt)
    decreases |s|
  {
    if s != [] {
      SortListSorted(s[..|s| - 1], lt);
      var sorted := SortList(s[..|s| - 1], lt);
      if s[|s| - 1] !in sorted {
        PlaceSorted(sorted, s[|s| - 1], lt);
      }
    }
  }

  /** The index of a `groupby(key)`: the keys that occur, each once (see `GroupKeysMembers`). */
  function GroupKeys<K(==,!new)>(xs: seq<Entry>, key: Entry -> K, lt: (K, K) -> bool): (r: seq<K>)
    ensures Distinct(r)
    ensures r == [] <==> xs == []
  {
    var col := KeyColumn(xs, key);
    assert xs != [] ==> col[0] in col;
    SortList(col, lt)
  }

  /** A value is in the `groupby` index exactly when some row has it as its key. */
  lemma GroupKeysMembers<K(!new)>(xs: seq<Entry>, key: Entry -> K, lt: (K, K) -> bool)
    ensures forall j :: 0 <= j < |xs| ==> key(xs[j]) in GroupKeys(xs, key, lt)
    ensures forall k :: k in GroupKeys(xs, key, lt) ==> exists j :: 0 <= j < |xs| && key(xs[j]) == k
  {
    var col := KeyColumn(xs, key);
    assert forall j :: 0 <= j < |xs| ==> key(xs[j]) == col[j];
  }

  /** A row holding the `i`-th key of the `groupby` index. */
  lemma GroupKeyRow<K(!new)>(xs: seq<Entry>, key: Entry -> K, lt: (K, K) -> bool, i: nat) returns (j: nat)
    requires i < |GroupKeys(xs, key, lt)|
    ensures j < |xs| && key(xs[j]) == GroupKeys(xs, key, lt)[i]
  {
    GroupKeysMembers(xs, key, lt);
    assert GroupKeys(xs, key, lt)[i] in GroupKeys(xs, key, lt);
    j :| 0 <= j < |xs| && key(xs[j]) == GroupKeys(xs, key, lt)[i];
  }

  /** The `groupby` index is in increasing order. */
  lemma GroupKeysSorted<K(!new)>(xs: seq<Entry>, key: Entry -> K, lt: (K, K) -> bool)
    requires StrictTotal(lt)
    ensures SortedBy(GroupKeys(xs, key, lt), lt)
  {
    SortListSorted(KeyColumn(xs, key), lt);
  }

  /** Python's `<` on strings: code point by code point, a proper prefix first. */
  predicate StrLt(a: string, b: string)
  {
    if a == [] then b != []
    else if b == [] then false
    else a[0] < b[0] || (a[0] == b[0] && StrLt(a[1..], b[1..]))
  }

  lemma {:induction false} StrLtIrreflexive(a: string)
    ensures !StrLt(a, a)
  {
    if a != [] {
      StrLtIrreflexive(a[1..]);
    }
  }

  lemma {:induction false} StrLtTotal(a: string, b: string)
    requires a != b
    ensures StrLt(a, b) || StrLt(b, a)
  {
    if a != [] && b != [] && a[0] == b[0] {
      assert a == [a[0]] + a[1..] && b == [b[0]] + b[1..];
      StrLtTotal(a[1..], b[1..]);
    }
  }

  lemma {:induction false} StrLtTransitive(a: string, b: string, c: string)
    requires StrLt(a, b) && StrLt(b, c)
    ensures StrLt(a, c)
  {
    if a != [] && b != [] && c != [] && a[0] == b[0] == c[0] {
      StrLtTransitive(a[1..], b[1..], c[1..]);
    }
  }

  lemma StrLtOrders()
    ensures StrictTotal(StrLt)
  {
    forall a
      ensures !StrLt(a, a)
    {
      StrLtIrreflexive(a);
    }
    forall a, b | a != b
      ensures StrLt(a, b) || StrLt(b, a)
    {
      StrLtTotal(a, b);
    }
    forall a, b, c | StrLt(a, b) && StrLt(b, c)
      ensures StrLt(a, c)
    {
      StrLtTransitive(a, b, c);
    }
  }

  predicate IntLt(a: int, b: int) { a < b }

  lemma IntLtOrders()
    ensures StrictTotal(IntLt)
  {
  }

  /** Chronological order of dates, which is the order of their fields. */
  predicate DateLt(a: Date, b: Date)
  {
    a.year < b.year || (a.year == b.year && (a.month < b.month || (a.month == b.month && a.day < b.day)))
  }

  lemma DateLtOrders()
    ensures StrictTotal(DateLt)
  {
  }

  /** `idxmin()`: the position of the first smallest value. */
  function ArgMin(s: seq<real>): (i: nat)
    requires s != []
    ensures i < |s|
    ensures forall k :: 0 <= k < |s| ==> s[i] <= s[k]
    ensures forall k :: 0 <= k < i ==> s[k] > s[i]
  {
    if |s| == 1 then 0
    else
      var j := ArgMin(s[..|s| - 1]);
      if s[|s| - 1] < s[j] then |s| - 1 else j
  }

  /** `idxmax()`: the position of the first largest value. */
  function ArgMax(s: seq<real>): (i: nat)
    requires s != []
    ensures i < |s|
    ensures forall k :: 0 <= k < |s| ==> s[k] <= s[i]
    ensures forall k :: 0 <= k < i ==> s[k] < s[i]
  {
    if |s| == 1 then 0
    else
      var j := ArgMax(s[..|s| - 1]);
      if s[|s| - 1] > s[j] then |s| - 1 else j
  }

  // ---------------------------------------------------------------------------
  // Series
  // ---------------------------------------------------------------------------

  /** `sum()` of a series. */
  function Total(s: seq<real>): real
  {
    if s == [] then 0.0 else Total(s[..|s| - 1]) + s[|s| - 1]
  }

  /** A series with every value in `[lo, hi]` sums to between `n * lo` and `n * hi`. */
  lemma {:induction false} TotalBounds(s: seq<real>, lo: real, hi: real)
    requires forall k :: 0 <= k < |s| ==> lo <= s[k] <= hi
    ensures (|s| as real) * lo <= Total(s) <= (|s| as real) * hi
    decreases |s|
  {
    if s != [] {
      TotalBounds(s[..|s| - 1], lo, hi);
    }
  }

  /** A group holding a row of positive weight has a positive sum, when no weight is negative. */
  lemma {:induction false} GroupPositive<K>(xs: seq<Entry>, key: Entry -> K, w: Entry -> real, j: nat)
    requires j < |xs|
    requires forall e :: w(e) >= 0.0
    requires w(xs[j]) > 0.0
    ensures Sum(Select(xs, key, key(xs[j])), w) > 0.0
    decreases |xs|
  {
    var init, x, k := xs[..|xs| - 1], xs[|xs| - 1], key(xs[j]);
    assert xs == init + [x];
    SelectAppend(init, x, key, k);
    var g := Select(init, key, k);
    SumAppend(g, if key(x) == k then [x] else [], w);
    if j == |xs| - 1 {
      SumNonNegative(g, w);
      assert Sum([x], w) == Sum([], w) + w(x);
    } else {
      GroupPositive(init, key, w, j);
      if key(x) == k {
        assert Sum([x], w) == Sum([], w) + w(x);
      }
    }
  }

  /** `groupby(key)[w].sum()` over the groups `keys`, one value per group. */
  function GroupTotals<K(==)>(xs: seq<Entry>, key: Entry -> K, keys: seq<K>, w: Entry -> real): (r: seq<real>)
    ensures |r| == |keys|
    ensures forall i :: 0 <= i < |keys| ==> r[i] == Sum(Select(xs, key, keys[i]), w)
  {
    if keys == [] then []
    else GroupTotals(xs, key, keys[..|keys| - 1], w) + [Sum(Select(xs, key, keys[|keys| - 1]), w)]
  }

  /** The series of group totals adds up to the sum over the groups. */
  lemma {:induction false} GroupTotalsSum<K>(xs: seq<Entry>, key: Entry -> K, keys: seq<K>, w: Entry -> real)
    ensures Total(GroupTotals(xs, key, keys, w)) == GroupSums(xs, key, keys, w)
    decreases |keys|
  {
    if keys != [] {
      var init := keys[..|keys| - 1];
      GroupTotalsSum(xs, key, init, w);
      var r := GroupTotals(xs, key, keys, w);
      assert r[..|r| - 1] == GroupTotals(xs, key, init, w);
    }
  }

  // ---------------------------------------------------------------------------
  // nlargest
  // ---------------------------------------------------------------------------

  /**
   * The order `nlargest(keep='first')` ranks rows in: a larger value first, and of two
   * equal values the earlier row first.
   */
  predicate Before(col: seq<real>, a: nat, b: nat)
  {
    ValueAt(col, a) > ValueAt(col, b) || (ValueAt(col, a) == ValueAt(col, b) && a < b)
  }

  function ValueAt(col: seq<real>, a: nat): real
  {
    if a < |col| then col[a] else 0.0
  }

  /** The position among `cand` that ranks first. */
  function Best(col: seq<real>, cand: seq<nat>): (r: nat)
    requires cand != []
    ensures r in cand
    ensures forall x :: x in cand && x != r ==> Before(col, r, x)
  {
    if |cand| == 1 then cand[0]
    else
      var b, c := Best(col, cand[..|cand| - 1]), cand[|cand| - 1];
      assert forall x :: x in cand <==> x in cand[..|cand| - 1] || x == c by {
        assert cand == cand[..|cand| - 1] + [c];
      }
      if Before(col, c, b) then c else b
  }

  /** `cand` without the position `p`. */
  function Remove(cand: seq<nat>, p: nat): (r: seq<nat>)
    ensures |r| <= |cand|
  {
    if cand == [] then []
    else if cand[0] == p then Remove(cand[1..], p)
    else [cand[0]] + Remove(cand[1..], p)
  }

  /** `nlargest(n, keep='first')` among the positions `cand`, as repeated selection of the best. */
  function NLargest(col: seq<real>, cand: seq<nat>, n: nat): (r: seq<nat>)
    decreases n
  {
    if n == 0 || cand == [] then []
    else
      var b := Best(col, cand);
      [b] + NLargest(col, Remove(cand, b), n - 1)
  }

  lemma {:induction false} RemoveMembers(cand: seq<nat>, p: nat)
    ensures forall k :: 0 <= k < |Remove(cand, p)| ==> Remove(cand, p)[k] in cand && Remove(cand, p)[k] != p
    decreases |cand|
  {
    if cand != [] {
      RemoveMembers(cand[1..], p);
    }
  }

  lemma {:induction false} RemoveKeeps(cand: seq<nat>, p: nat)
    ensures forall x :: x in cand && x != p ==> x in Remove(cand, p)
    decreases |cand|
  {
    if cand != [] {
      RemoveKeeps(cand[1..], p);
      assert forall x :: x in cand ==> x == cand[0] || x in cand[1..] by {
        assert cand == [cand[0]] + cand[1..];
      }
    }
  }

  lemma {:induction false} RemoveDistinct(cand: seq<nat>, p: nat)
    requires Distinct(cand)
    ensures Distinct(Remove(cand, p))
    decreases |cand|
  {
    if cand != [] {
      assert cand == [cand[0]] + cand[1..];
      RemoveDistinct(cand[1..], p);
      if cand[0] != p {
        RemoveMembers(cand[1..], p);
        var tail := Remove(cand[1..], p);
        assert forall j :: 0 <= j < |tail| ==> tail[j] != cand[0];
        assert Remove(cand, p) == [cand[0]] + tail;
      }
    }
  }

  lemma {:induction false} RemoveAbsentPosition(cand: seq<nat>, p: nat)
    requires p !in cand
    ensures Remove(cand, p) == cand
    decreases |cand|
  {
    if cand != [] {
      assert cand == [cand[0]] + cand[1..];
      RemoveAbsentPosition(cand[1..], p);
    }
  }

  lemma {:induction false} RemoveLength(cand: seq<nat>, p: nat)
    requires Distinct(cand) && p in cand
    ensures |Remove(cand, p)| == |cand| - 1
    decreases |cand|
  {
    assert cand == [cand[0]] + cand[1..];
    if cand[0] == p {
      RemoveAbsentPosition(cand[1..], p);
    } else {
      RemoveLength(cand[1..], p);
    }
  }

  lemma {:induction false} NLargestMembers(col: seq<real>, cand: seq<nat>, n: nat)
    ensures forall i :: 0 <= i < |NLargest(col, cand, n)| ==> NLargest(col, cand, n)[i] in cand
    decreases n
  {
    if n != 0 && cand != [] {
      var b := Best(col, cand);
      RemoveMembers(cand, b);
      NLargestMembers(col, Remove(cand, b), n - 1);
    }
  }

  /** Of any two positions of `r`, the earlier ranks first. */
  predicate Ranked(col: seq<real>, r: seq<nat>)
  {
    forall i, j :: 0 <= i < j < |r| ==> Before(col, r[i], r[j])
  }

  lemma RankedDistinct(col: seq<real>, r: seq<nat>)
    requires Ranked(col, r)
    ensures Distinct(r)
  {
  }

  /** `nlargest(n)` of distinct positions picks `min(n, |cand|)` of them. */
  lemma {:induction false} NLargestLength(col: seq<real>, cand: seq<nat>, n: nat)
    requires Distinct(cand)
    ensures |NLargest(col, cand, n)| == if n < |cand| then n else |cand|
    decreases n
  {
    if n != 0 && cand != [] {
      var b := Best(col, cand);
      RemoveDistinct(cand, b);
      RemoveLength(cand, b);
      NLargestLength(col, Remove(cand, b), n - 1);
      assert NLargest(col, cand, n) == [b] + NLargest(col, Remove(cand, b), n - 1);
    }
  }

  /** Of two picks of `nlargest`, the earlier ranks first (so each is picked once, by `RankedDistinct`). */
  lemma {:induction false} NLargestRanked(col: seq<real>, cand: seq<nat>, n: nat)
    ensures Ranked(col, NLargest(col, cand, n))
    decreases n
  {
    if n != 0 && cand != [] {
      var b := Best(col, cand);
      var rest := Remove(cand, b);
      NLargestRanked(col, rest, n - 1);
      FirstPick(col, cand, b, n - 1);
      RankedCons(col, b, NLargest(col, rest, n - 1));
    }
  }

  /** The first pick ranks before every later pick. */
  lemma FirstPick(col: seq<real>, cand: seq<nat>, b: nat, m: nat)
    requires cand != [] && b == Best(col, cand)
    ensures forall j :: 0 <= j < |NLargest(col, Remove(cand, b), m)| ==>
      Before(col, b, NLargest(col, Remove(cand, b), m)[j])
  {
    var rest := Remove(cand, b);
    RemoveMembers(cand, b);
    NLargestMembers(col, rest, m);
    var tail := NLargest(col, rest, m);
    forall j | 0 <= j < |tail|
      ensures Before(col, b, tail[j])
    {
      assert tail[j] in rest;
      var k :| 0 <= k < |rest| && rest[k] == tail[j];
      assert tail[j] in cand && tail[j] != b;
    }
  }

  lemma RankedCons(col: seq<real>, b: nat, tail: seq<nat>)
    requires Ranked(col, tail)
    requires forall j :: 0 <= j < |tail| ==> Before(col, b, tail[j])
    ensures Ranked(col, [b] + tail)
  {
    var r := [b] + tail;
    forall i, j | 0 <= i < j < |r|
      ensures Before(col, r[i], r[j])
    {
      assert r[j] == tail[j - 1];
      if i > 0 {
        assert r[i] == tail[i - 1];
      }
    }
  }

  /** Every position `nlargest` leaves out ranks after every position it picks. */
  lemma {:induction false} NLargestRest(col: seq<real>, cand: seq<nat>, n: nat)
    ensures forall p, i :: p in cand && p !in NLargest(col, cand, n) && 0 <= i < |NLargest(col, cand, n)| ==>
      Before(col, NLargest(col, cand, n)[i], p)
    decreases n
  {
    if n != 0 && cand != [] {
      var b := Best(col, cand);
      var rest := Remove(cand, b);
      RemoveKeeps(cand, b);
      NLargestRest(col, rest, n - 1);
      var tail := NLargest(col, rest, n - 1);
      var r := NLargest(col, cand, n);
      assert r == [b] + tail;
      forall p, i | p in cand && p !in r && 0 <= i < |r|
        ensures Before(col, r[i], p)
      {
        assert p != b && p in rest && p !in tail;
        if i > 0 {
          assert r[i] == tail[i - 1];
        }
      }
    }
  }

  /** The positions `0, 1, ..., n - 1`. */
  function Positions(n: nat): (r: seq<nat>)
    ensures |r| == n && forall k :: 0 <= k < n ==> r[k] == k
  {
    seq(n, k requires 0 <= k < n => k)
  }
}
