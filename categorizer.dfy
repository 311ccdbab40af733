/**
 * `TransactionCategorizer`: an ordered table from category names to literal lowercase
 * patterns. A Credit is matched against the Income patterns only; any other record takes
 * the first non-Income category, in table order, one of whose patterns occurs in its
 * lowercased description.
 */
module Categorizer {
  import opened Wrappers
  import opened Text
  import opened Records

  type Table = seq<(string, seq<string>)>

  /** `category_patterns`, in declaration order. */
  function Patterns(): Table
  {
    [
      ("Food & Dining", ["starbucks", "mcdonald", "subway", "tim hortons", "pizza",
                         "restaurant", "cafe", "coffee", "uber eats", "doordash",
                         "skip", "food", "dining", "takeout", "delivery"]),
      ("Groceries", ["grocery", "supermarket", "metro", "loblaws", "sobeys",
                     "walmart", "costco", "fresh", "market", "food basics"]),
      ("Transportation", ["gas", "shell", "esso", "petro", "uber", "taxi",
                          "bus", "transit", "parking", "car wash", "automotive"]),
      ("Entertainment", ["netflix", "spotify", "amazon prime", "disney", "hulu",
                         "cinema", "movie", "theatre", "gaming", "steam"]),
      ("Shopping", ["amazon", "walmart", "target", "shopping", "store",
                    "purchase", "retail", "mall", "clothing", "electronics"]),
      ("Utilities", ["hydro", "electric", "gas bill", "water", "internet",
                     "phone", "cable", "utility", "heating", "cooling"]),
      ("Healthcare", ["pharmacy", "doctor", "medical", "dental", "hospital",
                      "clinic", "health", "medicine", "prescription"]),
      ("Banking", ["atm", "withdrawal", "bank", "fee", "charge",
                   "transfer", "interest", "service charge"]),
      ("Income", ["payroll", "salary", "deposit", "income", "wages",
                  "pay", "transfer received", "refund"])
    ]
  }

  const IncomeIndex: nat := 8

  /** The eight names an expense can get from the table. */
  const ExpenseNames: seq<string> := [
    "Food & Dining", "Groceries", "Transportation", "Entertainment",
    "Shopping", "Utilities", "Healthcare", "Banking"
  ]

  /** Income is the ninth and last entry; the other eight are the expense names. */
  lemma PatternsShape()
    ensures |Patterns()| == 9
    ensures forall j :: 0 <= j < |Patterns()| ==> (Patterns()[j].0 == "Income" <==> j == IncomeIndex)
    ensures forall j :: 0 <= j < IncomeIndex ==> Patterns()[j].0 == ExpenseNames[j]
  {
  }

  /** Some pattern of `ps` occurs in `s` (`re.search` of a pattern without metacharacters). */
  predicate AnyContained(s: string, ps: seq<string>)
  {
    ps != [] && (Contains(s, ps[0]) || AnyContained(s, ps[1..]))
  }

  lemma {:induction false} AnyContainedIff(s: string, ps: seq<string>)
    ensures AnyContained(s, ps) <==> exists k :: 0 <= k < |ps| && Contains(s, ps[k])
  {
    if ps != [] {
      AnyContainedIff(s, ps[1..]);
      if exists k :: 0 <= k < |ps| && Contains(s, ps[k]) {
        var k :| 0 <= k < |ps| && Contains(s, ps[k]);
        if k > 0 {
          assert ps[1..][k - 1] == ps[k];
        }
      }
    }
  }

  /** A pattern of the list occurring in `s` makes the list match. */
  lemma AnyContainedAt(s: string, ps: seq<string>, k: nat)
    requires k < |ps| && Contains(s, ps[k])
    ensures AnyContained(s, ps)
  {
    AnyContainedIff(s, ps);
  }

  /**
   * The first entry at index `from` or later, other than `Income`, with a pattern in `s`:
   * the loop of `categorize_transaction` over the expense categories.
   */
  function FirstCategory(s: string, table: Table, from: nat): (r: Option<nat>)
    ensures r.Some? ==> from <= r.value < |table| && table[r.value].0 != "Income" && AnyContained(s, table[r.value].1)
    ensures r.Some? ==> forall j :: from <= j < r.value && table[j].0 != "Income" ==> !AnyContained(s, table[j].1)
    ensures r.None? ==> forall j :: from <= j < |table| && table[j].0 != "Income" ==> !AnyContained(s, table[j].1)
    decreases |table| - from
  {
    if from >= |table| then None
    else if table[from].0 != "Income" && AnyContained(s, table[from].1) then Some(from)
    else FirstCategory(s, table, from + 1)
  }

  /** One step of the scan: entry `i` either is the first match or hands over to entry `i + 1`. */
  lemma FirstCategoryStep(s: string, table: Table, i: nat)
    requires i < |table|
    ensures table[i].0 != "Income" && AnyContained(s, table[i].1) ==> FirstCategory(s, table, i) == Some(i)
    ensures !(table[i].0 != "Income" && AnyContained(s, table[i].1)) ==>
      FirstCategory(s, table, i) == FirstCategory(s, table, i + 1)
  {
  }

  /** The category `categorize_transaction` writes for a description and a `type` field. */
  function Label(description: string, typeField: string): string
  {
    var s := Lower(description);
    if typeField == "Credit" then
      (if AnyContained(s, Patterns()[IncomeIndex].1) then "Income" else "Other Income")
    else
      match FirstCategory(s, Patterns(), 0)
      case Some(i) => Patterns()[i].0
      case None => "Other"
  }

  /** A Credit is `Income` exactly when an Income pattern occurs in its lowercased description. */
  lemma CreditLabel(description: string)
    ensures Label(description, "Credit") == "Income" <==>
      exists k :: 0 <= k < |Patterns()[IncomeIndex].1| && Contains(Lower(description), Patterns()[IncomeIndex].1[k])
    ensures Label(description, "Credit") != "Income" ==> Label(description, "Credit") == "Other Income"
  {
    AnyContainedIff(Lower(description), Patterns()[IncomeIndex].1);
  }

  /**
   * Any other type (a missing one included) gets `Other` exactly when no non-Income
   * category has a pattern in the lowercased description.
   */
  lemma ExpenseLabelOther(description: string, typeField: string)
    requires typeField != "Credit"
    ensures Label(description, typeField) == "Other" <==>
      forall j :: 0 <= j < |Patterns()| && j != IncomeIndex ==> !AnyContained(Lower(description), Patterns()[j].1)
  {
    PatternsShape();
    var s := Lower(description);
    match FirstCategory(s, Patterns(), 0)
    case Some(i) =>
      assert i != IncomeIndex && AnyContained(s, Patterns()[i].1);
      NoExpenseNameIsOther(i);
      assert Label(description, typeField) == ExpenseNames[i];
    case None =>
  }

  lemma NoExpenseNameIsOther(i: nat)
    requires i < |ExpenseNames|
    ensures ExpenseNames[i] != "Other"
  {
    assert ExpenseNames[i][0] != 'O';
  }

  /**
   * Otherwise it gets the first non-Income category, in table order, with a pattern in
   * the lowercased description.
   */
  lemma ExpenseLabel(description: string, typeField: string)
    requires typeField != "Credit" && Label(description, typeField) != "Other"
    ensures exists i :: (0 <= i < |Patterns()| && i != IncomeIndex && Patterns()[i].0 == Label(description, typeField)
      && AnyContained(Lower(description), Patterns()[i].1)
      && forall j :: 0 <= j < i ==> !AnyContained(Lower(description), Patterns()[j].1))
  {
    PatternsShape();
    var s := Lower(description);
    var i := FirstCategory(s, Patterns(), 0).value;
    assert Patterns()[i].0 == Label(description, typeField);
  }

  /** "uber eats" is a Food & Dining pattern, ahead of Transportation's "uber". */
  lemma UberEatsIsDining(description: string, typeField: string)
    requires typeField != "Credit"
    requires Contains(Lower(description), "uber eats")
    ensures Label(description, typeField) == "Food & Dining"
  {
    AnyContainedAt(Lower(description), Patterns()[0].1, 8);
  }

  /** "walmart" is a Groceries pattern ahead of Shopping, so it never lands in Shopping. */
  lemma WalmartIsNotShopping(description: string, typeField: string)
    requires typeField != "Credit"
    requires Contains(Lower(description), "walmart")
    ensures Label(description, typeField) in {"Food & Dining", "Groceries"}
  {
    AnyContainedAt(Lower(description), Patterns()[1].1, 5);
  }

  /** Every "gas bill" contains Transportation's "gas", so Utilities' "gas bill" never wins. */
  lemma GasBillIsNotUtilities(description: string, typeField: string)
    requires typeField != "Credit"
    requires Contains(Lower(description), "gas bill")
    ensures Label(description, typeField) in {"Food & Dining", "Groceries", "Transportation"}
  {
    ContainsPrefix(Lower(description), "gas bill", 3);
    assert "gas bill"[..3] == "gas";
    AnyContainedAt(Lower(description), Patterns()[2].1, 0);
  }

  /** Matching ignores case: descriptions equal up to case get the same label. */
  lemma LabelIgnoresCase(d1: string, d2: string, typeField: string)
    requires Lower(d1) == Lower(d2)
    ensures Label(d1, typeField) == Label(d2, typeField)
  {
  }

  /** Lowercasing a description first changes nothing. */
  lemma LabelOfLowered(description: string, typeField: string)
    ensures Label(Lower(description), typeField) == Label(description, typeField)
  {
    LowerIdempotent(description);
  }

  /** The label set is closed, and a categorized record is never `Uncategorized`. */
  lemma LabelClosed(description: string, typeField: string)
    ensures typeField == "Credit" ==> Label(description, typeField) in {"Income", "Other Income"}
    ensures typeField != "Credit" ==> Label(description, typeField) in ExpenseNames + ["Other"]
    ensures Label(description, typeField) != Uncategorized
  {
    if typeField != "Credit" {
      PatternsShape();
      match FirstCategory(Lower(description), Patterns(), 0)
      case Some(i) =>
        assert Patterns()[i].0 == ExpenseNames[i];
      case None =>
    }
  }

  /** A transaction dict as the categorizer sees it; a missing key reads as `""`. */
  class Record {
    var description: string
    var typeField: string
    var category: string

    constructor (description: string, typeField: string, category: string)
      ensures this.description == description && this.typeField == typeField && this.category == category
    {
      this.description := description;
      this.typeField := typeField;
      this.category := category;
    }

    /**
     * `categorize_transaction`: overwrite `category` in place. The label depends on the
     * description and type only, so running it again writes the same value.
     */
    method Categorize()
      modifies this
      ensures description == old(description) && typeField == old(typeField)
      ensures category == Label(description, typeField)
    {
      var s := Lower(description);
      if typeField == "Credit" {
        var found := SearchPatterns(s, Patterns()[IncomeIndex].1);
        category := if found then "Income" else "Other Income";
        return;
      }
      category := ScanCategories(s, Patterns());
    }
  }

  /**
   * The outer loop of `categorize_transaction` for a non-Credit record: skip `Income`, return
   * the first category with a pattern in `s`, and `Other` after the last entry.
   */
  method ScanCategories(s: string, table: Table) returns (category: string)
    ensures category == match FirstCategory(s, table, 0) case Some(i) => table[i].0 case None => "Other"
  {
    var i := 0;
    while i < |table|
      invariant 0 <= i <= |table|
      invariant FirstCategory(s, table, 0) == FirstCategory(s, table, i)
    {
      var entry := table[i];
      FirstCategoryStep(s, table, i);
      if entry.0 != "Income" {
        var found := SearchPatterns(s, entry.1);
        if found {
          return entry.0;
        }
      }
      i := i + 1;
    }
    return "Other";
  }

  /** The inner loop of `categorize_transaction`: the patterns are tried in order until one occurs. */
  method SearchPatterns(s: string, ps: seq<string>) returns (found: bool)
    ensures found == AnyContained(s, ps)
  {
    var k := 0;
    while k < |ps|
      invariant 0 <= k <= |ps|
      invariant forall j :: 0 <= j < k ==> !Contains(s, ps[j])
    {
      if Contains(s, ps[k]) {
        AnyContainedAt(s, ps, k);
        return true;
      }
      k := k + 1;
    }
    AnyContainedIff(s, ps);
    return false;
  }

  /**
   * `categorize_batch`: categorize a shallow copy of each record. The result keeps length
   * and order, the inputs keep their old category, and each copy differs from its
   * original only in `category`.
   */
  method CategorizeBatch(rs: seq<Record>) returns (out: seq<Record>)
    ensures |out| == |rs|
    ensures forall i :: 0 <= i < |out| ==> fresh(out[i])
    ensures forall i :: 0 <= i < |out| ==> CategorizedFrom(out[i], rs[i])
    ensures forall i :: 0 <= i < |rs| ==> unchanged(rs[i])
  {
    out := [];
    for i := 0 to |rs|
      invariant |out| == i
      invariant forall j :: 0 <= j < i ==> fresh(out[j]) && CategorizedFrom(out[j], rs[j])
    {
      var copy := CategorizedCopy(rs[i]);
      out := out + [copy];
    }
  }

  /** `copy` has the description and type of `r`, and the category they give. */
  predicate CategorizedFrom(copy: Record, r: Record)
    reads copy, r
  {
    copy.description == r.description && copy.typeField == r.typeField
    && copy.category == Label(r.description, r.typeField)
  }

  /** `transaction.copy()` followed by `categorize_transaction` on the copy. */
  method CategorizedCopy(r: Record) returns (copy: Record)
    ensures fresh(copy)
    ensures CategorizedFrom(copy, r)
  {
    copy := new Record(r.description, r.typeField, r.category);
    copy.Categorize();
  }
}
