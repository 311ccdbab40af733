/**
 * `DataParser`: the strict CSV/Excel reader. The table must have the four columns
 * `date, description, amount, type` (matched after lowercasing and trimming the headers).
 * Every row is validated field by field; a failing row is skipped, and the whole file
 * fails when no row survives.
 */
module DataParser {
  import opened Wrappers
  import opened Text
  import opened Numbers
  import opened Calendar
  import opened Records

  /**
   * A cell of the table as pandas delivers it: missing (`NaN`, what `pd.isna` detects),
   * text, or a number together with what `str()` writes for it.
   */
  datatype Cell = Empty | TextCell(text: string) | NumberCell(value: real, rendering: string)

  /** The sheet: its header row and its data rows; a short row reads as missing cells. */
  datatype Sheet = Sheet(headers: seq<string>, rows: seq<seq<Cell>>)

  /** The standardized transaction `_parse_row` builds. */
  datatype Transaction = Transaction(
    date: string,          // `datetime.isoformat()` of the parsed date
    description: string,
    amount: Float,
    kind: Kind,
    category: string,
    original: map<string, Cell>)  // `original_data`: `row.to_dict()`

  /** Why a single row is skipped (the text of the warning is not modelled). */
  datatype RowError =
    | ColumnNotUnique(column: string)
    | DateEmpty | InvalidDate(text: string)
    | DescriptionEmpty
    | AmountEmpty | InvalidAmount
    | TypeEmpty | InvalidType(text: string)

  /** Why the whole file is rejected. */
  datatype FileError = FileEmpty | MissingColumns(names: seq<string>) | NoValidTransactions

  const Required: seq<string> := ["date", "description", "amount", "type"]

  /** The message `parse_file` raises: every failure carries the same prefix. */
  function Message(e: FileError): (m: string)
    ensures StartsWith(m, "Error parsing file: ")
  {
    var detail := match e
      case FileEmpty => "File is empty"
      case MissingColumns(ns) =>
        "Missing required columns: " + Join(ns, ", ") + ". Expected format: Date,Description,Amount,Type"
      case NoValidTransactions => "No valid transactions found in file";
    var m := "Error parsing file: " + detail;
    assert m[..20] == "Error parsing file: ";
    m
  }

  /** `col.lower().strip()` */
  function Normalize(h: string): string
  {
    Strip(Lower(h))
  }

  function NormalizeAll(hs: seq<string>): (r: seq<string>)
    ensures |r| == |hs| && forall i :: 0 <= i < |hs| ==> r[i] == Normalize(hs[i])
  {
    seq(|hs|, i requires 0 <= i < |hs| => Normalize(hs[i]))
  }

  /** The required names that no normalized header equals, in the order of `names`. */
  function Missing(names: seq<string>, columns: seq<string>): (r: seq<string>)
    ensures forall n :: n in r <==> n in names && n !in columns
    ensures |r| <= |names|
  {
    if names == [] then []
    else if names[0] in columns then Missing(names[1..], columns)
    else [names[0]] + Missing(names[1..], columns)
  }

  /** `x` and `y` occur in `names` with `x` at an earlier position. */
  predicate Precedes(x: string, y: string, names: seq<string>)
  {
    exists a, b :: 0 <= a < b < |names| && x == names[a] && y == names[b]
  }

  /** Every element of `r` is an element of `names`, and in the same relative order. */
  predicate InOrder(r: seq<string>, names: seq<string>)
  {
    forall i, j :: 0 <= i < j < |r| ==> Precedes(r[i], r[j], names)
  }

  /** The missing names keep the order in which they are required. */
  lemma {:induction false} MissingOrdered(names: seq<string>, columns: seq<string>)
    ensures InOrder(Missing(names, columns), names)
  {
    if names != [] {
      var tail := names[1..];
      var rest := Missing(tail, columns);
      MissingOrdered(tail, columns);
      if names[0] in columns {
        InOrderSkip(rest, names);
      } else {
        assert forall k :: 0 <= k < |rest| ==> rest[k] in rest;
        InOrderCons(rest, names);
      }
    }
  }

  /** A sequence in order in the tail of `names` is in order in `names`. */
  lemma InOrderSkip(r: seq<string>, names: seq<string>)
    requires names != [] && InOrder(r, names[1..])
    ensures InOrder(r, names)
  {
    var tail := names[1..];
    forall i, j | 0 <= i < j < |r|
      ensures Precedes(r[i], r[j], names)
    {
      var a, b :| 0 <= a < b < |tail| && r[i] == tail[a] && r[j] == tail[b];
      assert r[i] == names[a + 1] && r[j] == names[b + 1];
    }
  }

  /** The head of `names` followed by a sequence in order in its tail is in order in `names`. */
  lemma InOrderCons(rest: seq<string>, names: seq<string>)
    requires names != [] && InOrder(rest, names[1..])
    requires forall k :: 0 <= k < |rest| ==> rest[k] in names[1..]
    ensures InOrder([names[0]] + rest, names)
  {
    var tail := names[1..];
    var r := [names[0]] + rest;
    forall i, j | 0 <= i < j < |r|
      ensures Precedes(r[i], r[j], names)
    {
      if i == 0 {
        var y := rest[j - 1];
        var b :| 0 <= b < |tail| && y == tail[b];
        assert r[i] == names[0] && r[j] == names[b + 1];
      } else {
        assert Precedes(rest[i - 1], rest[j - 1], tail);
        var a, b :| 0 <= a < b < |tail| && rest[i - 1] == tail[a] && rest[j - 1] == tail[b];
        assert r[i] == names[a + 1] && r[j] == names[b + 1];
      }
    }
  }

  /** `_validate_format`: an empty frame first, then the missing columns in fixed order. */
  function ValidateFormat(sheet: Sheet): (r: Option<FileError>)
    ensures r == Some(FileEmpty) <==> sheet.rows == [] || sheet.headers == []
    ensures r.Some? && r.value.MissingColumns? ==>
      r.value.names != [] && forall n :: n in r.value.names <==> n in Required && n !in NormalizeAll(sheet.headers)
    ensures r.None? ==> forall n :: n in Required ==> n in NormalizeAll(sheet.headers)
  {
    if sheet.rows == [] || sheet.headers == [] then Some(FileEmpty)
    else
      var missing := Missing(Required, NormalizeAll(sheet.headers));
      if missing != [] then Some(MissingColumns(missing)) else None
  }

  /** The cell of column `k`; a row shorter than the header reads as missing. */
  function CellAt(row: seq<Cell>, k: nat): Cell
  {
    if k < |row| then row[k] else Empty
  }

  /** The columns whose normalized header is `name`, from index `from` on. */
  function ColumnsNamed(columns: seq<string>, name: string, from: nat): (r: seq<nat>)
    ensures forall i :: 0 <= i < |r| ==> from <= r[i] < |columns| && columns[r[i]] == name
    ensures forall k :: from <= k < |columns| && columns[k] == name ==> k in r
    decreases |columns| - from
  {
    if from >= |columns| then []
    else if columns[from] == name then [from] + ColumnsNamed(columns, name, from + 1)
    else ColumnsNamed(columns, name, from + 1)
  }

  /**
   * `row[name]`: the cell of the one column with that name. With two such columns pandas
   * returns a Series, whose truth value `pd.isna` cannot give, and the row fails.
   */
  function Lookup(columns: seq<string>, row: seq<Cell>, name: string): (r: Result<Cell, RowError>)
    ensures r.Ok? ==> exists k :: 0 <= k < |columns| && columns[k] == name && r.value == CellAt(row, k)
  {
    var ks := ColumnsNamed(columns, name, 0);
    if |ks| == 1 then Ok(CellAt(row, ks[0])) else Err(ColumnNotUnique(name))
  }

  /**
   * `row.to_dict()`: every column name mapped to its cell. With a repeated name the dict
   * keeps the cell of the last column of that name (`RowDictLast`).
   */
  function RowDict(columns: seq<string>, row: seq<Cell>): (r: map<string, Cell>)
    ensures forall name :: name in r <==> name in columns
  {
    if columns == [] then map[]
    else
      var n := |columns| - 1;
      assert columns == columns[..n] + [columns[n]];
      RowDict(columns[..n], row)[columns[n] := CellAt(row, n)]
  }

  /** The column at `k`, when no later column has its name, gives the dict its cell. */
  lemma {:induction false} RowDictLast(columns: seq<string>, row: seq<Cell>, k: nat)
    requires k < |columns| && columns[k] !in columns[k + 1..]
    ensures RowDict(columns, row)[columns[k]] == CellAt(row, k)
  {
    var n := |columns| - 1;
    if k < n {
      assert columns[n] in columns[k + 1..];
      assert columns[..n][k + 1..] == columns[k + 1..n];
      RowDictLast(columns[..n], row, k);
    }
  }

  /** A column `row[name]` reads without error is kept, with that cell, in `row.to_dict()`. */
  lemma RowDictKeepsLookup(columns: seq<string>, row: seq<Cell>, name: string)
    requires Lookup(columns, row, name).Ok?
    ensures name in RowDict(columns, row) && RowDict(columns, row)[name] == Lookup(columns, row, name).value
  {
    var ks := ColumnsNamed(columns, name, 0);
    var k := ks[0];
    forall j | k < j < |columns|
      ensures columns[j] != name
    {
    }
    assert columns[k] !in columns[k + 1..];
    RowDictLast(columns, row, k);
  }

  /** `str(value)` for a present cell. */
  function Str(c: Cell): string
    requires !c.Empty?
  {
    match c
    case TextCell(s) => s
    case NumberCell(_, rendering) => rendering
  }

  /** `_parse_date`: a present cell whose stripped text is `%Y-%m-%d`. */
  function ParseDate(c: Cell): (r: Result<Date, RowError>)
    ensures r.Ok? ==> !c.Empty? && ValidDate(r.value) && ParseIso(Strip(Str(c))) == Some(r.value)
    ensures !c.Empty? && ParseIso(Strip(Str(c))).Some? ==> r.Ok?
    ensures c.Empty? ==> r == Err(DateEmpty)
  {
    if c.Empty? then Err(DateEmpty)
    else
      var text := Strip(Str(c));
      match ParseIso(text)
      case Some(d) => Ok(d)
      case None => Err(InvalidDate(text))
  }

  /** `_parse_description`: the stripped text, which must not be empty. */
  function ParseDescription(c: Cell): (r: Result<string, RowError>)
    ensures r.Ok? ==> !c.Empty? && r.value == Strip(Str(c)) && r.value != []
    ensures r.Err? <==> c.Empty? || forall i :: 0 <= i < |Str(c)| ==> IsSpace(Str(c)[i])
  {
    if c.Empty? then Err(DescriptionEmpty)
    else
      var text := Strip(Str(c));
      StripEmpty(Str(c));
      if text == [] then Err(DescriptionEmpty) else Ok(text)
  }

  /** `_parse_amount`: `float()` of the cell; a numeric cell is already a float. */
  function ParseAmount(c: Cell): (r: Result<Float, RowError>)
    ensures c.NumberCell? ==> r == Ok(Num(c.value))
    ensures c.TextCell? ==> (r.Ok? <==> ParseFloat(c.text).Some?)
    ensures c.Empty? ==> r == Err(AmountEmpty)
  {
    match c
    case Empty => Err(AmountEmpty)
    case NumberCell(v, _) => Ok(Num(v))
    case TextCell(s) =>
      match ParseFloat(s)
      case Some(x) => Ok(x)
      case None => Err(InvalidAmount)
  }

  /** `_parse_type`: `str(v).strip().title()` must be `Debit` or `Credit`. */
  function ParseType(c: Cell): (r: Result<Kind, RowError>)
    ensures c.Empty? ==> r == Err(TypeEmpty)
  {
    if c.Empty? then Err(TypeEmpty)
    else
      var t := Title(Strip(Str(c)));
      if t == "Debit" then Ok(Debit)
      else if t == "Credit" then Ok(Credit)
      else Err(InvalidType(t))
  }

  /** A type is accepted exactly when its stripped text is "debit" or "credit" in any case. */
  lemma ParseTypeIff(c: Cell)
    requires !c.Empty?
    ensures ParseType(c).Ok? <==> Lower(Strip(Str(c))) in {"debit", "credit"}
    ensures ParseType(c) == Ok(Debit) <==> Lower(Strip(Str(c))) == "debit"
    ensures ParseType(c) == Ok(Credit) <==> Lower(Strip(Str(c))) == "credit"
  {
    ParseTypeDebit(c);
    ParseTypeCredit(c);
  }

  lemma ParseTypeDebit(c: Cell)
    requires !c.Empty?
    ensures ParseType(c) == Ok(Debit) <==> Lower(Strip(Str(c))) == "debit"
  {
    var t := Strip(Str(c));
    KindWords();
    TitleIsCapitalised(t, "debit");
  }

  lemma ParseTypeCredit(c: Cell)
    requires !c.Empty?
    ensures ParseType(c) == Ok(Credit) <==> Lower(Strip(Str(c))) == "credit"
  {
    var t := Strip(Str(c));
    KindWords();
    TitleIsCapitalised(t, "credit");
  }

  /** The two type words: lower-case letters, capitalised as the parser compares them. */
  lemma KindWords()
    ensures forall i :: 0 <= i < |"debit"| ==> IsLower("debit"[i])
    ensures forall i :: 0 <= i < |"credit"| ==> IsLower("credit"[i])
    ensures Capitalised("debit") == "Debit" && Capitalised("credit") == "Credit"
    ensures "Debit" != "Credit"
  {
    assert "Debit"[0] != "Credit"[0];
  }

  /** `_parse_date(row['date'])` */
  function DateField(columns: seq<string>, row: seq<Cell>): Result<Date, RowError>
  {
    match Lookup(columns, row, "date")
    case Err(e) => Err(e)
    case Ok(c) => ParseDate(c)
  }

  /** `_parse_description(row['description'])` */
  function DescriptionField(columns: seq<string>, row: seq<Cell>): Result<string, RowError>
  {
    match Lookup(columns, row, "description")
    case Err(e) => Err(e)
    case Ok(c) => ParseDescription(c)
  }

  /** `_parse_amount(row['amount'])` */
  function AmountField(columns: seq<string>, row: seq<Cell>): Result<Float, RowError>
  {
    match Lookup(columns, row, "amount")
    case Err(e) => Err(e)
    case Ok(c) => ParseAmount(c)
  }

  /** `_parse_type(row['type'])` */
  function TypeField(columns: seq<string>, row: seq<Cell>): Result<Kind, RowError>
  {
    match Lookup(columns, row, "type")
    case Err(e) => Err(e)
    case Ok(c) => ParseType(c)
  }

  /**
   * `_parse_row`: the four fields in order; the first failure is the row's error. The
   * date is stored as `isoformat` of midnight on the parsed day.
   */
  function ParseRow(columns: seq<string>, row: seq<Cell>): (r: Result<Transaction, RowError>)
    ensures r.Ok? <==> (DateField(columns, row).Ok? && DescriptionField(columns, row).Ok?
                        && AmountField(columns, row).Ok? && TypeField(columns, row).Ok?)
    ensures r.Ok? ==> r.value.category == Uncategorized && r.value.description != []
    ensures r.Ok? ==> exists d :: ValidDate(d) && r.value.date == FormatMoment(Midnight(d))
    ensures r.Ok? ==> r.value.original == RowDict(columns, row)
  {
    var date, description, amount, kind :=
      DateField(columns, row), DescriptionField(columns, row), AmountField(columns, row), TypeField(columns, row);
    if date.Err? then Err(date.error)
    else if description.Err? then Err(description.error)
    else if amount.Err? then Err(amount.error)
    else if kind.Err? then Err(kind.error)
    else
      Ok(Transaction(FormatMoment(Midnight(date.value)), description.value, amount.value, kind.value, Uncategorized,
                     RowDict(columns, row)))
  }

  /**
   * The `original_data` of an accepted row, `row.to_dict()`, holds the four required
   * columns with the very cells the fields were read from.
   */
  lemma ParseRowOriginal(columns: seq<string>, row: seq<Cell>)
    requires ParseRow(columns, row).Ok?
    ensures KeptInDict(columns, row, "date") && KeptInDict(columns, row, "description")
    ensures KeptInDict(columns, row, "amount") && KeptInDict(columns, row, "type")
  {
    assert DateField(columns, row).Ok? && DescriptionField(columns, row).Ok?;
    assert AmountField(columns, row).Ok? && TypeField(columns, row).Ok?;
    RowDictKeepsLookup(columns, row, "date");
    RowDictKeepsLookup(columns, row, "description");
    RowDictKeepsLookup(columns, row, "amount");
    RowDictKeepsLookup(columns, row, "type");
  }

  /** `row.to_dict()` holds `name` with the cell `row[name]` reads. */
  predicate KeptInDict(columns: seq<string>, row: seq<Cell>, name: string)
  {
    name in RowDict(columns, row) && Lookup(columns, row, name) == Ok(RowDict(columns, row)[name])
  }

  /** The values of the `Ok` results of `f` over `xs`, in order. */
  function KeepOk<X, T, E>(xs: seq<X>, f: X -> Result<T, E>): (r: seq<T>)
    ensures |r| <= |xs|
  {
    if xs == [] then []
    else
      var init := KeepOk(xs[..|xs| - 1], f);
      match f(xs[|xs| - 1])
      case Ok(t) => init + [t]
      case Err(_) => init
  }

  /** The rows that survive `_parse_row`, in input order. */
  function Survivors(columns: seq<string>, rows: seq<seq<Cell>>): (r: seq<Transaction>)
    ensures |r| <= |rows|
  {
    KeepOk(rows, row => ParseRow(columns, row))
  }

  /** One more row: it joins the survivors exactly when it parses. */
  lemma SurvivorsStep(columns: seq<string>, rows: seq<seq<Cell>>, i: nat)
    requires i < |rows|
    ensures Survivors(columns, rows[..i + 1]) == Survivors(columns, rows[..i])
      + (match ParseRow(columns, rows[i]) case Ok(t) => [t] case Err(_) => [])
  {
    var prefix := rows[..i + 1];
    assert prefix[..i] == rows[..i] && prefix[i] == rows[i];
  }

  /** Keeping over two stretches is keeping over each, in order. */
  lemma {:induction false} KeepOkAppend<X, T, E>(a: seq<X>, b: seq<X>, f: X -> Result<T, E>)
    ensures KeepOk(a + b, f) == KeepOk(a, f) + KeepOk(b, f)
    decreases |b|
  {
    if b == [] {
      assert a + b == a;
    } else {
      var b' := b[..|b| - 1];
      assert (a + b)[..|a + b| - 1] == a + b';
      assert (a + b)[|a + b| - 1] == b[|b| - 1];
      KeepOkAppend(a, b', f);
    }
  }

  /** Every kept value is the `Ok` result of some element. */
  lemma {:induction false} KeepOkFrom<X, T, E>(xs: seq<X>, f: X -> Result<T, E>)
    ensures forall t :: t in KeepOk(xs, f) ==> exists k :: 0 <= k < |xs| && f(xs[k]) == Ok(t)
    decreases |xs|
  {
    if xs != [] {
      var init := xs[..|xs| - 1];
      KeepOkFrom(init, f);
      forall t | t in KeepOk(xs, f)
        ensures exists k :: 0 <= k < |xs| && f(xs[k]) == Ok(t)
      {
        if t in KeepOk(init, f) {
          var k :| 0 <= k < |init| && f(init[k]) == Ok(t);
          assert xs[k] == init[k];
        } else {
          assert f(xs[|xs| - 1]) == Ok(t);
        }
      }
    }
  }

  /** Survivors of two stretches of rows are the survivors of each, in order. */
  lemma SurvivorsAppend(columns: seq<string>, a: seq<seq<Cell>>, b: seq<seq<Cell>>)
    ensures Survivors(columns, a + b) == Survivors(columns, a) + Survivors(columns, b)
  {
    KeepOkAppend(a, b, row => ParseRow(columns, row));
  }

  /** A single row either survives as its own transaction or is dropped. */
  lemma SurvivorsOne(columns: seq<string>, row: seq<Cell>)
    ensures Survivors(columns, [row]) == match ParseRow(columns, row) case Ok(t) => [t] case Err(_) => []
  {
    assert [row][..0] == [];
  }

  /** Every survivor is uncategorized and comes from some row of the input. */
  lemma SurvivorsFromRows(columns: seq<string>, rows: seq<seq<Cell>>)
    ensures forall t :: t in Survivors(columns, rows) ==>
      t.category == Uncategorized && exists k :: 0 <= k < |rows| && ParseRow(columns, rows[k]) == Ok(t)
  {
    var f := row => ParseRow(columns, row);
    KeepOkFrom(rows, f);
    forall t | t in Survivors(columns, rows)
      ensures t.category == Uncategorized && exists k :: 0 <= k < |rows| && ParseRow(columns, rows[k]) == Ok(t)
    {
      var k :| 0 <= k < |rows| && f(rows[k]) == Ok(t);
      assert ParseRow(columns, rows[k]) == Ok(t);
    }
  }

  /** What `parse_file` returns for a sheet, in terms of the row validations above. */
  function ParseSheet(sheet: Sheet): (r: Result<seq<Transaction>, FileError>)
    ensures r.Ok? ==> r.value != [] && |r.value| <= |sheet.rows|
  {
    match ValidateFormat(sheet)
    case Some(e) => Err(e)
    case None =>
      var ts := Survivors(NormalizeAll(sheet.headers), sheet.rows);
      if ts == [] then Err(NoValidTransactions) else Ok(ts)
  }

  /** Header matching ignores case and surrounding white space. */
  lemma ParseSheetHeaders(h1: seq<string>, h2: seq<string>, rows: seq<seq<Cell>>)
    requires NormalizeAll(h1) == NormalizeAll(h2)
    ensures ParseSheet(Sheet(h1, rows)) == ParseSheet(Sheet(h2, rows))
  {
    assert |h1| == |NormalizeAll(h1)| == |h2|;
    assert ValidateFormat(Sheet(h1, rows)) == ValidateFormat(Sheet(h2, rows));
  }

  /** `parse_file` after the file is read: validate, then the row loop. */
  method ParseFile(sheet: Sheet) returns (r: Result<seq<Transaction>, FileError>)
    ensures r == ParseSheet(sheet)
  {
    var invalid := ValidateFormat(sheet);
    if invalid.Some? {
      return Err(invalid.value);
    }
    var columns := NormalizeAll(sheet.headers);
    var transactions: seq<Transaction> := [];
    var index := 0;
    while index < |sheet.rows|
      invariant 0 <= index <= |sheet.rows|
      invariant transactions == Survivors(columns, sheet.rows[..index])
    {
      var row := sheet.rows[index];
      var parsed := ParseRow(columns, row);
      SurvivorsStep(columns, sheet.rows, index);
      if parsed.Ok? {
        transactions := transactions + [parsed.value];
      }
      index := index + 1;
    }
    assert sheet.rows[..index] == sheet.rows;
    if transactions == [] {
      return Err(NoValidTransactions);
    }
    return Ok(transactions);
  }

  /**
   * A well-formed row: the accepted date, trimmed description, numeric amount and type
   * come through, with the date as `isoformat` at midnight and category `Uncategorized`.
   */
  lemma ParseRowAccepts(columns: seq<string>, row: seq<Cell>, d: Date, text: string, v: real, kind: Kind)
    requires ValidDate(d)
    requires Lookup(columns, row, "date") == Ok(TextCell(FormatDate(d)))
    requires Lookup(columns, row, "description") == Ok(TextCell(text)) && Strip(text) != []
    requires Lookup(columns, row, "amount") == Ok(NumberCell(v, ""))
    requires Lookup(columns, row, "type") == Ok(TextCell(KindName(kind)))
    ensures ParseRow(columns, row) == Ok(Transaction(FormatMoment(Midnight(d)), Strip(text), Num(v), kind, Uncategorized,
                                                      RowDict(columns, row)))
  {
    ParseDateFormatted(d);
    assert DateField(columns, row) == Ok(d);
    DescriptionOfText(text);
    assert DescriptionField(columns, row) == Ok(Strip(text));
    assert AmountField(columns, row) == Ok(Num(v));
    TypeOfKind(kind);
    assert TypeField(columns, row) == Ok(kind);
    ParseRowOfFields(columns, row, d, Strip(text), Num(v), kind);
  }

  lemma DescriptionOfText(text: string)
    requires Strip(text) != []
    ensures ParseDescription(TextCell(text)) == Ok(Strip(text))
  {
  }

  lemma TypeOfKind(kind: Kind)
    ensures ParseType(TextCell(KindName(kind))) == Ok(kind)
  {
    KindTitle(kind);
  }

  lemma ParseRowOfFields(columns: seq<string>, row: seq<Cell>, d: Date, text: string, amount: Float, kind: Kind)
    requires ValidDate(d)
    requires DateField(columns, row) == Ok(d) && DescriptionField(columns, row) == Ok(text)
    requires AmountField(columns, row) == Ok(amount) && TypeField(columns, row) == Ok(kind)
    ensures ParseRow(columns, row) == Ok(Transaction(FormatMoment(Midnight(d)), text, amount, kind, Uncategorized,
                                                      RowDict(columns, row)))
  {
  }

  /** A date cell written as `%Y-%m-%d` parses back to that date. */
  lemma ParseDateFormatted(d: Date)
    requires ValidDate(d)
    ensures ParseDate(TextCell(FormatDate(d))) == Ok(d)
  {
    ParseIsoFormatDate(d);
    var s := FormatDate(d);
    FormatDateEnds(d);
    StripUnchanged(s);
  }

  lemma FormatDateEnds(d: Date)
    requires ValidDate(d)
    ensures IsDigit(FormatDate(d)[0]) && IsDigit(FormatDate(d)[9])
  {
    var ys, ms, ds := Fixed(d.year, 4), Fixed(d.month, 2), Fixed(d.day, 2);
    assert FormatDate(d)[0] == ys[0];
    assert FormatDate(d)[9] == ds[1];
  }

  lemma KindTitle(kind: Kind)
    ensures Title(Strip(KindName(kind))) == KindName(kind)
  {
    var s := KindName(kind);
    assert !IsSpace(s[0]) && !IsSpace(s[|s| - 1]);
    StripUnchanged(s);
    if kind == Debit { TitleDebit(); } else { TitleCredit(); }
  }

  lemma TitleDebit()
    ensures Title("Debit") == "Debit"
  {
    assert TitleAfter("it", true) == "it";
    assert TitleAfter("ebit", true) == "ebit";
  }

  lemma TitleCredit()
    ensures Title("Credit") == "Credit"
  {
    assert TitleAfter("it", true) == "it";
    assert TitleAfter("edit", true) == "edit";
  }

  /** The stored date reads back, through `fromisoformat`, as midnight of the parsed day. */
  lemma StoredDateReadsBack(columns: seq<string>, row: seq<Cell>)
    requires ParseRow(columns, row).Ok?
    ensures exists d :: ValidDate(d) && FromIsoFormat(ParseRow(columns, row).value.date) == Some(Midnight(d))
  {
    var d :| ValidDate(d) && ParseRow(columns, row).value.date == FormatMoment(Midnight(d));
    FromIsoFormatMoment(Midnight(d));
  }
}
