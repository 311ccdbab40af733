/**
 * `PDFParserDebug`: the same LLM adapter, instrumented. The conversion loop records an
 * issue for every record it skips or repairs and checks for NaN before the sign rule;
 * every converted record then goes through a five-check validator, and the report
 * carries the issues and debit/credit statistics. A failure anywhere yields an empty
 * list and a failed report instead of an exception.
 */
module PdfParserDebug {
  import opened Wrappers
  import opened Text
  import opened Numbers
  import opened Calendar
  import opened Json
  import opened Records
  import opened PdfParser

  /** A conversion issue, naming the 1-based record number. */
  datatype Issue =
    | NanAmount(index: nat)          // debit or credit is NaN: skipped
    | NoAmount(index: nat)           // neither is positive: skipped
    | InvalidDate(index: nat)        // no date format matched: kept, dated now
    | ConversionError(index: nat)    // an exception: skipped

  /** Issues that mean their record was dropped. */
  predicate IsSkip(i: Issue)
  {
    !i.InvalidDate?
  }

  function CountSkips(issues: seq<Issue>): (n: nat)
    ensures n <= |issues|
  {
    if issues == [] then 0
    else CountSkips(issues[..|issues| - 1]) + (if IsSkip(issues[|issues| - 1]) then 1 else 0)
  }

  lemma {:induction false} CountSkipsAppend(a: seq<Issue>, b: seq<Issue>)
    ensures CountSkips(a + b) == CountSkips(a) + CountSkips(b)
    decreases |b|
  {
    if b == [] {
      assert a + b == a;
    } else {
      var b' := b[..|b| - 1];
      assert (a + b)[..|a + b| - 1] == a + b';
      assert (a + b)[|a + b| - 1] == b[|b| - 1];
      CountSkipsAppend(a, b');
    }
  }

  /** `debit != debit or credit != credit` */
  predicate HasNan(debit: Float, credit: Float)
  {
    debit.NaN? || credit.NaN?
  }

  /**
   * One iteration of the conversion loop: the converted record, if any, and the issues
   * it appends. A bad date is repaired and reported; a failing balance after that still
   * skips the record, after the date issue.
   */
  function ConvertWithIssues(trans: Json, index: nat, now: Moment): (r: (Option<PdfTxn>, seq<Issue>))
    requires ValidMoment(now)
    ensures forall k :: 0 <= k < |r.1| ==> r.1[k].index == index
    ensures CountSkips(r.1) == if r.0.None? then 1 else 0
    ensures r.0.Some? ==> WellSigned(r.0.value) && trans.JObject?
    ensures r.0.Some? ==> (r.1 == [] <==> DateParses(Get(trans.fields, "date", JString(""))))
    ensures r.0.Some? ==> r.1 == [] || r.1 == [InvalidDate(index)]
  {
    match trans
    case JObject(m) =>
      (match (ToFloat(Get(m, "debit", JInt(0))), ToFloat(Get(m, "credit", JInt(0))))
       case (Some(debit), Some(credit)) =>
         if HasNan(debit, credit) then (None, [NanAmount(index)])
         else
           (match SignedAmount(debit, credit)
            case None => (None, [NoAmount(index)])
            case Some((amount, kind)) =>
              var field := Get(m, "date", JString(""));
              var dateIssues := if DateParses(field) then [] else [InvalidDate(index)];
              var date := DateOf(field, now);
              match ToFloat(Get(m, "balance", JInt(0)))
              case None =>
                SkipAfterDate(dateIssues, index);
                (None, dateIssues + [ConversionError(index)])
              case Some(balance) => (Some(MakeRecord(m, amount, kind, date, balance)), dateIssues))
       case _ => (None, [ConversionError(index)]))
    case _ => (None, [ConversionError(index)])
  }

  /** A date issue followed by a balance failure is still one skip. */
  lemma SkipAfterDate(dateIssues: seq<Issue>, index: nat)
    requires dateIssues == [] || dateIssues == [InvalidDate(index)]
    ensures CountSkips(dateIssues + [ConversionError(index)]) == 1
  {
    assert (dateIssues + [ConversionError(index)])[..|dateIssues|] == dateIssues;
  }

  /** A NaN debit or credit skips the record with a NaN issue, before the sign rule is tried. */
  lemma NanSkips(m: map<string, Json>, index: nat, now: Moment, debit: Float, credit: Float)
    requires ValidMoment(now)
    requires ToFloat(Get(m, "debit", JInt(0))) == Some(debit) && ToFloat(Get(m, "credit", JInt(0))) == Some(credit)
    requires HasNan(debit, credit)
    ensures ConvertWithIssues(JObject(m), index, now) == (None, [NanAmount(index)])
  {
  }

  /** Neither amount positive (and no NaN): the record is skipped with a no-amount issue. */
  lemma NoAmountSkips(m: map<string, Json>, index: nat, now: Moment, debit: Float, credit: Float)
    requires ValidMoment(now)
    requires ToFloat(Get(m, "debit", JInt(0))) == Some(debit) && ToFloat(Get(m, "credit", JInt(0))) == Some(credit)
    requires !HasNan(debit, credit) && !IsPositive(debit) && !IsPositive(credit)
    ensures ConvertWithIssues(JObject(m), index, now) == (None, [NoAmount(index)])
  {
  }

  /** A date neither format reads is replaced by `now` and reported, and the record is kept. */
  lemma BadDateKept(m: map<string, Json>, index: nat, now: Moment, debit: Float, credit: Float)
    requires ValidMoment(now)
    requires ToFloat(Get(m, "debit", JInt(0))) == Some(debit) && ToFloat(Get(m, "credit", JInt(0))) == Some(credit)
    requires !HasNan(debit, credit) && (IsPositive(debit) || IsPositive(credit))
    requires ToFloat(Get(m, "balance", JInt(0))).Some?
    requires !DateParses(Get(m, "date", JString("")))
    ensures ConvertWithIssues(JObject(m), index, now).0.Some?
    ensures ConvertWithIssues(JObject(m), index, now).0.value.moment == now
    ensures ConvertWithIssues(JObject(m), index, now).1 == [InvalidDate(index)]
  {
  }

  /** Without a NaN in debit or credit, the debug loop keeps exactly what `PDFParser` keeps. */
  lemma TwinsAgree(trans: Json, index: nat, now: Moment)
    requires ValidMoment(now)
    requires trans.JObject? ==>
      ToFloat(Get(trans.fields, "debit", JInt(0))) != Some(NaN) && ToFloat(Get(trans.fields, "credit", JInt(0))) != Some(NaN)
    ensures ConvertWithIssues(trans, index, now).0 == ConvertOne(trans, now)
  {
  }

  /**
   * Where they differ: a NaN debit next to a positive credit is a Credit for `PDFParser`
   * but a skip, with a NaN issue, here.
   */
  lemma TwinsDifferOnNan(now: Moment)
    requires ValidMoment(now)
    ensures var m := map["debit" := JFloat(NaN), "credit" := JInt(5)];
      ConvertOne(JObject(m), now).Some? && ConvertOne(JObject(m), now).value.kind == Credit
      && ConvertWithIssues(JObject(m), 1, now) == (None, [NanAmount(1)])
  {
    var m := map["debit" := JFloat(NaN), "credit" := JInt(5)];
    assert Get(m, "debit", JInt(0)) == JFloat(NaN);
    assert Get(m, "credit", JInt(0)) == JInt(5);
    assert Get(m, "balance", JInt(0)) == JInt(0);
  }

  /** The whole conversion loop: records and issues, numbering the records from 1. */
  function ConvertAll(items: seq<Json>, now: Moment): (r: (seq<PdfTxn>, seq<Issue>))
    requires ValidMoment(now)
    ensures |r.0| <= |items|
    ensures forall k :: 0 <= k < |r.0| ==> WellSigned(r.0[k])
    ensures forall k :: 0 <= k < |r.1| ==> 1 <= r.1[k].index <= |items|
  {
    if items == [] then ([], [])
    else
      var (records, issues) := ConvertAll(items[..|items| - 1], now);
      var (record, more) := ConvertWithIssues(items[|items| - 1], |items|, now);
      (match record case Some(t) => records + [t] case None => records, issues + more)
  }

  /** Every raw record is either converted or named by exactly one skip issue. */
  lemma {:induction false} EveryRecordAccounted(items: seq<Json>, now: Moment)
    requires ValidMoment(now)
    ensures |ConvertAll(items, now).0| + CountSkips(ConvertAll(items, now).1) == |items|
    decreases |items|
  {
    if items != [] {
      var init := items[..|items| - 1];
      EveryRecordAccounted(init, now);
      var more := ConvertWithIssues(items[|items| - 1], |items|, now).1;
      CountSkipsAppend(ConvertAll(init, now).1, more);
    }
  }

  /** Without NaN anywhere, the debug loop converts exactly the records `PDFParser` converts. */
  lemma {:induction false} ConvertAllMatchesTwin(items: seq<Json>, now: Moment)
    requires ValidMoment(now)
    requires forall k :: 0 <= k < |items| && items[k].JObject? ==>
      ToFloat(Get(items[k].fields, "debit", JInt(0))) != Some(NaN)
      && ToFloat(Get(items[k].fields, "credit", JInt(0))) != Some(NaN)
    ensures ConvertAll(items, now).0 == StandardFormat(items, now)
    decreases |items|
  {
    if items != [] {
      ConvertAllMatchesTwin(items[..|items| - 1], now);
      TwinsAgree(items[|items| - 1], |items|, now);
    }
  }

  // ---------------------------------------------------------------------------
  // validate_transaction
  // ---------------------------------------------------------------------------

  /** The five checks, in the order they run. */
  datatype Check = AmountCheck | DescriptionCheck | DateCheck | TypeCheck | CategoryCheck

  function Rank(c: Check): nat
  {
    match c
    case AmountCheck => 0
    case DescriptionCheck => 1
    case DateCheck => 2
    case TypeCheck => 3
    case CategoryCheck => 4
  }

  /** A validation issue, with the record number it was given. */
  datatype Finding =
    | MissingAmount(index: nat)
    | AmountNone(index: nat)
    | AmountNan(index: nat)
    | MissingDescription(index: nat)
    | MissingDate(index: nat)
    | InvalidDateFormat(index: nat, date: Json)
    | InvalidType(index: nat, value: Json)
    | MissingCategory(index: nat)

  function CheckOf(f: Finding): Check
  {
    match f
    case MissingAmount(_) => AmountCheck
    case AmountNone(_) => AmountCheck
    case AmountNan(_) => AmountCheck
    case MissingDescription(_) => DescriptionCheck
    case MissingDate(_) => DateCheck
    case InvalidDateFormat(_, _) => DateCheck
    case InvalidType(_, _) => TypeCheck
    case MissingCategory(_) => CategoryCheck
  }

  /**
   * What each check accepts. A missing key reads as `None`; a date that is not a string
   * makes `.replace` raise, which the validator reports as an invalid format.
   */
  predicate Passes(m: map<string, Json>, c: Check)
  {
    match c
    case AmountCheck => "amount" in m && m["amount"] != JNull && m["amount"] != JFloat(NaN)
    case DescriptionCheck => Truthy(Get(m, "description", JNull))
    case DateCheck =>
      var d := Get(m, "date", JNull);
      Truthy(d) && d.JString? && FromIsoFormat(Remove(d.s, 'Z')).Some?
    case TypeCheck => Get(m, "type", JNull) == JString("Debit") || Get(m, "type", JNull) == JString("Credit")
    case CategoryCheck => Truthy(Get(m, "category", JNull))
  }

  function AmountFindings(m: map<string, Json>, index: nat): (r: seq<Finding>)
    ensures |r| <= 1 && (r == [] <==> Passes(m, AmountCheck))
    ensures forall k :: 0 <= k < |r| ==> CheckOf(r[k]) == AmountCheck && r[k].index == index
  {
    if "amount" !in m then [MissingAmount(index)]
    else if m["amount"] == JNull then [AmountNone(index)]
    else if m["amount"] == JFloat(NaN) then [AmountNan(index)]
    else []
  }

  function DescriptionFindings(m: map<string, Json>, index: nat): (r: seq<Finding>)
    ensures |r| <= 1 && (r == [] <==> Passes(m, DescriptionCheck))
    ensures forall k :: 0 <= k < |r| ==> CheckOf(r[k]) == DescriptionCheck && r[k].index == index
  {
    if !Truthy(Get(m, "description", JNull)) then [MissingDescription(index)] else []
  }

  function DateFindings(m: map<string, Json>, index: nat): (r: seq<Finding>)
    ensures |r| <= 1 && (r == [] <==> Passes(m, DateCheck))
    ensures forall k :: 0 <= k < |r| ==> CheckOf(r[k]) == DateCheck && r[k].index == index
  {
    var d := Get(m, "date", JNull);
    if !Truthy(d) then [MissingDate(index)]
    else if !d.JString? then [InvalidDateFormat(index, d)]
    else if FromIsoFormat(Remove(d.s, 'Z')).None? then [InvalidDateFormat(index, d)]
    else []
  }

  function TypeFindings(m: map<string, Json>, index: nat): (r: seq<Finding>)
    ensures |r| <= 1 && (r == [] <==> Passes(m, TypeCheck))
    ensures forall k :: 0 <= k < |r| ==> CheckOf(r[k]) == TypeCheck && r[k].index == index
  {
    var t := Get(m, "type", JNull);
    if t != JString("Debit") && t != JString("Credit") then [InvalidType(index, t)] else []
  }

  function CategoryFindings(m: map<string, Json>, index: nat): (r: seq<Finding>)
    ensures |r| <= 1 && (r == [] <==> Passes(m, CategoryCheck))
    ensures forall k :: 0 <= k < |r| ==> CheckOf(r[k]) == CategoryCheck && r[k].index == index
  {
    if !Truthy(Get(m, "category", JNull)) then [MissingCategory(index)] else []
  }

  /** The issues of one check, as the list `validate_transaction` builds holds them. */
  function FindingsOf(m: map<string, Json>, index: nat, c: Check): (r: seq<Finding>)
    ensures |r| <= 1 && (r == [] <==> Passes(m, c))
    ensures forall k :: 0 <= k < |r| ==> CheckOf(r[k]) == c && r[k].index == index
  {
    match c
    case AmountCheck => AmountFindings(m, index)
    case DescriptionCheck => DescriptionFindings(m, index)
    case DateCheck => DateFindings(m, index)
    case TypeCheck => TypeFindings(m, index)
    case CategoryCheck => CategoryFindings(m, index)
  }

  /** `validate_transaction`: the five checks in order, at most one issue each. */
  function Validate(m: map<string, Json>, index: nat): (r: seq<Finding>)
    ensures |r| <= 5
  {
    FindingsOf(m, index, AmountCheck) + FindingsOf(m, index, DescriptionCheck) + FindingsOf(m, index, DateCheck)
      + FindingsOf(m, index, TypeCheck) + FindingsOf(m, index, CategoryCheck)
  }

  /** The issues come in the order of the validator checks that raise them. */
  lemma ValidateOrdered(m: map<string, Json>, index: nat)
    ensures RankOrdered(Validate(m, index))
  {
    var a, b, c, d, e := FindingsOf(m, index, AmountCheck), FindingsOf(m, index, DescriptionCheck),
      FindingsOf(m, index, DateCheck), FindingsOf(m, index, TypeCheck), FindingsOf(m, index, CategoryCheck);
    RankAppend([], a, 0);
    RankAppend(a, b, 1);
    RankAppend(a + b, c, 2);
    RankAppend(a + b + c, d, 3);
    RankAppend(a + b + c + d, e, 4);
  }

  /** Every issue of a record carries that record's number. */
  lemma ValidateIndexes(m: map<string, Json>, index: nat)
    requires index >= 1
    ensures IndexesWithin(Validate(m, index), index, index)
  {
    var a, b, c, d, e := FindingsOf(m, index, AmountCheck), FindingsOf(m, index, DescriptionCheck),
      FindingsOf(m, index, DateCheck), FindingsOf(m, index, TypeCheck), FindingsOf(m, index, CategoryCheck);
    IndexesAppend(a, b, index, index);
    IndexesAppend(a + b, c, index, index);
    IndexesAppend(a + b + c, d, index, index);
    IndexesAppend(a + b + c + d, e, index, index);
  }

  /** Every issue of `r` names a record numbered from `lo` to `hi`. */
  predicate IndexesWithin(r: seq<Finding>, lo: nat, hi: nat)
  {
    forall k :: 0 <= k < |r| ==> lo <= r[k].index <= hi
  }

  lemma IndexesAppend(a: seq<Finding>, b: seq<Finding>, lo: nat, hi: nat)
    requires IndexesWithin(a, lo, hi) && IndexesWithin(b, lo, hi)
    ensures IndexesWithin(a + b, lo, hi)
  {
    var r := a + b;
    forall k | 0 <= k < |r|
      ensures lo <= r[k].index <= hi
    {
      if k < |a| { assert r[k] == a[k]; } else { assert r[k] == b[k - |a|]; }
    }
  }

  /** A record has no issue exactly when every check passes. */
  lemma ValidateEmpty(m: map<string, Json>, index: nat)
    ensures Validate(m, index) == [] <==> forall c: Check :: Passes(m, c)
  {
    var a, b, c, d, e := FindingsOf(m, index, AmountCheck), FindingsOf(m, index, DescriptionCheck),
      FindingsOf(m, index, DateCheck), FindingsOf(m, index, TypeCheck), FindingsOf(m, index, CategoryCheck);
    assert Validate(m, index) == [] <==> a == [] && b == [] && c == [] && d == [] && e == [];
    AllChecks(m);
  }

  /** The issues come in the order of the validator checks that raise them. */
  predicate RankOrdered(r: seq<Finding>)
  {
    forall i, j :: 0 <= i < j < |r| ==> Rank(CheckOf(r[i])) < Rank(CheckOf(r[j]))
  }

  /** Every issue of `r` comes from a check that runs before the `k`-th. */
  predicate RankBelow(r: seq<Finding>, k: nat)
  {
    forall i :: 0 <= i < |r| ==> Rank(CheckOf(r[i])) < k
  }

  /** Appending at most one issue of the next check keeps the order. */
  lemma RankAppend(r: seq<Finding>, s: seq<Finding>, k: nat)
    requires RankOrdered(r) && RankBelow(r, k)
    requires |s| <= 1 && forall i :: 0 <= i < |s| ==> Rank(CheckOf(s[i])) == k
    ensures RankOrdered(r + s) && RankBelow(r + s, k + 1)
  {
    var t := r + s;
    forall i | 0 <= i < |t|
      ensures Rank(CheckOf(t[i])) < k + 1
    {
      if i < |r| { assert t[i] == r[i]; } else { assert t[i] == s[i - |r|]; }
    }
    forall i, j | 0 <= i < j < |t|
      ensures Rank(CheckOf(t[i])) < Rank(CheckOf(t[j]))
    {
      assert t[i] == r[i];
      if j < |r| { assert t[j] == r[j]; } else { assert t[j] == s[j - |r|]; }
    }
  }

  lemma AllChecks(m: map<string, Json>)
    ensures (forall k: Check :: Passes(m, k)) <==>
      Passes(m, AmountCheck) && Passes(m, DescriptionCheck) && Passes(m, DateCheck)
      && Passes(m, TypeCheck) && Passes(m, CategoryCheck)
  {
    if Passes(m, AmountCheck) && Passes(m, DescriptionCheck) && Passes(m, DateCheck)
      && Passes(m, TypeCheck) && Passes(m, CategoryCheck) {
      forall k: Check ensures Passes(m, k) {
        match k
        case AmountCheck =>
        case DescriptionCheck =>
        case DateCheck =>
        case TypeCheck =>
        case CategoryCheck =>
      }
    }
  }

  /** Some issue of `r` comes from check `c`. */
  predicate Flags(r: seq<Finding>, c: Check)
  {
    exists k :: 0 <= k < |r| && CheckOf(r[k]) == c
  }

  lemma FlagsAppend(r: seq<Finding>, s: seq<Finding>, c: Check)
    ensures Flags(r + s, c) <==> Flags(r, c) || Flags(s, c)
  {
    var t := r + s;
    if Flags(t, c) {
      var k :| 0 <= k < |t| && CheckOf(t[k]) == c;
      if k < |r| { assert t[k] == r[k]; } else { assert t[k] == s[k - |r|]; }
    }
    if Flags(r, c) {
      var k :| 0 <= k < |r| && CheckOf(r[k]) == c;
      assert t[k] == r[k];
    }
    if Flags(s, c) {
      var k :| 0 <= k < |s| && CheckOf(s[k]) == c;
      assert t[|r| + k] == s[k];
    }
  }

  /** One check's issues flag that check exactly when it fails, and no other check. */
  lemma FlagsOwn(m: map<string, Json>, index: nat, own: Check, c: Check)
    ensures Flags(FindingsOf(m, index, own), c) <==> own == c && !Passes(m, c)
  {
    var r := FindingsOf(m, index, own);
    if r != [] {
      assert CheckOf(r[0]) == own;
    }
  }

  /** A check flags the record exactly when it fails. */
  lemma ValidateFlags(m: map<string, Json>, index: nat, c: Check)
    ensures Flags(Validate(m, index), c) <==> !Passes(m, c)
  {
    var a, b, cc, d, e := FindingsOf(m, index, AmountCheck), FindingsOf(m, index, DescriptionCheck),
      FindingsOf(m, index, DateCheck), FindingsOf(m, index, TypeCheck), FindingsOf(m, index, CategoryCheck);
    assert Validate(m, index) == a + b + cc + d + e;
    FlagsAppend(a + b + cc + d, e, c);
    FlagsAppend(a + b + cc, d, c);
    FlagsAppend(a + b, cc, c);
    FlagsAppend(a, b, c);
    FlagsOwn(m, index, AmountCheck, c);
    FlagsOwn(m, index, DescriptionCheck, c);
    FlagsOwn(m, index, DateCheck, c);
    FlagsOwn(m, index, TypeCheck, c);
    FlagsOwn(m, index, CategoryCheck, c);
  }

  /** The dict `parse_and_validate` appends for a record. */
  function ToDict(t: PdfTxn): (m: map<string, Json>)
    requires ValidMoment(t.moment)
    ensures m.Keys == {"date", "description", "amount", "type", "category", "balance", "original_data"}
  {
    map[
      "date" := JString(DateText(t)),
      "description" := t.description,
      "amount" := JFloat(Num(t.amount)),
      "type" := JString(KindName(t.kind)),
      "category" := JString(t.category),
      "balance" := JFloat(t.balance),
      "original_data" := JObject(t.original)]
  }

  /** `isoformat` text has no `Z`, so the validator reads it unchanged. */
  lemma FormatMomentNoZ(t: Moment)
    requires ValidMoment(t)
    ensures forall i :: 0 <= i < |FormatMoment(t)| ==> FormatMoment(t)[i] != 'Z'
  {
    var d := t.date;
    NoZConcat(Fixed(d.year, 4), "-");
    NoZConcat(Fixed(d.year, 4) + "-", Fixed(d.month, 2));
    NoZConcat(Fixed(d.year, 4) + "-" + Fixed(d.month, 2), "-");
    NoZConcat(Fixed(d.year, 4) + "-" + Fixed(d.month, 2) + "-", Fixed(d.day, 2));
    NoZConcat(FormatDate(d), "T");
    ClockNoZ(t.micros);
    NoZConcat(FormatDate(d) + "T", FormatClock(t.micros));
  }

  predicate NoZ(s: string)
  {
    forall i :: 0 <= i < |s| ==> s[i] != 'Z'
  }

  lemma NoZConcat(a: string, b: string)
    requires NoZ(a) && NoZ(b)
    ensures NoZ(a + b)
  {
    var s := a + b;
    forall i | 0 <= i < |s|
      ensures s[i] != 'Z'
    {
      if i < |a| { assert s[i] == a[i]; } else { assert s[i] == b[i - |a|]; }
    }
  }

  lemma ClockNoZ(micros: nat)
    ensures NoZ(FormatClock(micros))
  {
    var secs := micros / 1_000_000;
    var frac := micros % 1_000_000;
    var h, m, sec := Fixed(secs / 3600, 2), Fixed(secs / 60 % 60, 2), Fixed(secs % 60, 2);
    NoZConcat(h, ":");
    NoZConcat(h + ":", m);
    NoZConcat(h + ":" + m, ":");
    NoZConcat(h + ":" + m + ":", sec);
    var tail := if frac == 0 then "" else "." + Fixed(frac, 6);
    if frac != 0 {
      NoZConcat(".", Fixed(frac, 6));
    }
    NoZConcat(h + ":" + m + ":" + sec, tail);
  }

  /**
   * A converted record fails only the description check, and that exactly when its
   * description is falsy (an empty string, say): the other four checks always pass.
   */
  lemma ConvertedPassesChecks(t: PdfTxn, index: nat)
    requires WellSigned(t)
    ensures Validate(ToDict(t), index) == if Truthy(t.description) then [] else [MissingDescription(index)]
  {
    var m := ToDict(t);
    DictEntries(t);
    DatePasses(t);
    assert Passes(m, TypeCheck);
    assert Passes(m, CategoryCheck);
    assert Passes(m, AmountCheck);
    ValidateOnlyDescription(m, index);
  }

  lemma DictEntries(t: PdfTxn)
    requires ValidMoment(t.moment)
    ensures var m := ToDict(t);
      && Get(m, "date", JNull) == JString(DateText(t))
      && Get(m, "description", JNull) == t.description
      && "amount" in m && m["amount"] == JFloat(Num(t.amount))
      && Get(m, "type", JNull) == JString(KindName(t.kind))
      && Get(m, "category", JNull) == JString(t.category)
  {
  }

  lemma DatePasses(t: PdfTxn)
    requires ValidMoment(t.moment)
    ensures Passes(ToDict(t), DateCheck)
  {
    DictEntries(t);
    IsoTextPasses(t.moment);
    DateCheckOf(ToDict(t), DateText(t));
  }

  /** `isoformat` text is a non-empty string that `fromisoformat` reads back once `Z` is removed. */
  lemma IsoTextPasses(t: Moment)
    requires ValidMoment(t)
    ensures FormatMoment(t) != [] && FromIsoFormat(Remove(FormatMoment(t), 'Z')).Some?
  {
    FormatMomentNoZ(t);
    RemoveAbsent(FormatMoment(t), 'Z');
    FromIsoFormatMoment(t);
    assert |FormatMoment(t)| > 0 by { assert |FormatDate(t.date)| == 10; }
  }

  lemma DateCheckOf(m: map<string, Json>, text: string)
    requires Get(m, "date", JNull) == JString(text)
    requires text != [] && FromIsoFormat(Remove(text, 'Z')).Some?
    ensures Passes(m, DateCheck)
  {
  }

  lemma ValidateOnlyDescription(m: map<string, Json>, index: nat)
    requires Passes(m, AmountCheck) && Passes(m, DateCheck) && Passes(m, TypeCheck) && Passes(m, CategoryCheck)
    ensures Validate(m, index) == DescriptionFindings(m, index)
  {
    assert FindingsOf(m, index, AmountCheck) == [];
    assert FindingsOf(m, index, DateCheck) == [];
    assert FindingsOf(m, index, TypeCheck) == [];
    assert FindingsOf(m, index, CategoryCheck) == [];
    var b := FindingsOf(m, index, DescriptionCheck);
    assert [] + b + [] + [] + [] == b;
  }

  /** The validation loop: every converted record's issues, numbered from 1, concatenated. */
  function ValidationIssues(records: seq<PdfTxn>): (r: seq<Finding>)
    requires forall k :: 0 <= k < |records| ==> WellSigned(records[k])
  {
    if records == [] then []
    else
      var t := records[|records| - 1];
      assert WellSigned(t);
      ValidationIssues(records[..|records| - 1]) + Validate(ToDict(t), |records|)
  }

  /** One more record adds its own issues, numbered by its position from 1. */
  lemma ValidationIssuesStep(records: seq<PdfTxn>, i: nat)
    requires i < |records|
    requires forall k :: 0 <= k < |records| ==> WellSigned(records[k])
    ensures WellSigned(records[i])
    ensures ValidationIssues(records[..i + 1]) == ValidationIssues(records[..i]) + Validate(ToDict(records[i]), i + 1)
  {
    var prefix := records[..i + 1];
    assert prefix[..i] == records[..i] && prefix[i] == records[i];
  }

  /** One missing-description issue per converted record with a falsy description, in order. */
  function DescriptionGaps(records: seq<PdfTxn>): (r: seq<Finding>)
    ensures forall k :: 0 <= k < |r| ==>
      r[k].MissingDescription? && 1 <= r[k].index <= |records| && !Truthy(records[r[k].index - 1].description)
  {
    if records == [] then []
    else
      var init := DescriptionGaps(records[..|records| - 1]);
      assert forall k :: 0 <= k < |init| ==> records[init[k].index - 1] == records[..|records| - 1][init[k].index - 1];
      init + (if Truthy(records[|records| - 1].description) then [] else [MissingDescription(|records|)])
  }

  /** Over converted records, the validator reports exactly the falsy descriptions and nothing else. */
  lemma {:induction false} OnlyDescriptionIssues(records: seq<PdfTxn>)
    requires forall k :: 0 <= k < |records| ==> WellSigned(records[k])
    ensures ValidationIssues(records) == DescriptionGaps(records)
    decreases |records|
  {
    if records != [] {
      OnlyDescriptionIssues(records[..|records| - 1]);
      ConvertedPassesChecks(records[|records| - 1], |records|);
    }
  }

  /** Every issue names one of the records, numbered from 1. */
  lemma {:induction false} IssueIndexes(records: seq<PdfTxn>)
    requires forall k :: 0 <= k < |records| ==> WellSigned(records[k])
    ensures IndexesWithin(ValidationIssues(records), 1, |records|)
    decreases |records|
  {
    if records != [] {
      var init, t := records[..|records| - 1], records[|records| - 1];
      IssueIndexes(init);
      var a, b := ValidationIssues(init), Validate(ToDict(t), |records|);
      assert ValidationIssues(records) == a + b;
      ValidateIndexes(ToDict(t), |records|);
      IndexesAppend(a, b, 1, |records|);
    }
  }

  // ---------------------------------------------------------------------------
  // Statistics
  // ---------------------------------------------------------------------------

  datatype Stats = Stats(
    totalTransactions: nat,
    debitCount: nat,
    creditCount: nat,
    totalDebits: real,
    totalCredits: real,
    validationIssues: nat)

  function CountKind(records: seq<PdfTxn>, k: Kind): (n: nat)
    ensures n <= |records|
  {
    if records == [] then 0
    else CountKind(records[..|records| - 1], k) + (if records[|records| - 1].kind == k then 1 else 0)
  }

  /** `sum(-t['amount'] for t in standardized if t['amount'] < 0)` */
  function TotalDebits(records: seq<PdfTxn>): (s: real)
    ensures s >= 0.0
  {
    if records == [] then 0.0
    else
      var t := records[|records| - 1];
      TotalDebits(records[..|records| - 1]) + (if t.amount < 0.0 then -t.amount else 0.0)
  }

  /** `sum(t['amount'] for t in standardized if t['amount'] > 0)` */
  function TotalCredits(records: seq<PdfTxn>): (s: real)
    ensures s >= 0.0
  {
    if records == [] then 0.0
    else
      var t := records[|records| - 1];
      TotalCredits(records[..|records| - 1]) + (if t.amount > 0.0 then t.amount else 0.0)
  }

  function SumAmounts(records: seq<PdfTxn>): real
  {
    if records == [] then 0.0 else SumAmounts(records[..|records| - 1]) + records[|records| - 1].amount
  }

  function Statistics(records: seq<PdfTxn>, issues: nat): (r: Stats)
    ensures r.debitCount + r.creditCount == r.totalTransactions == |records|
    ensures r.totalCredits - r.totalDebits == SumAmounts(records)
    ensures r.validationIssues == issues
  {
    CountsAddUp(records);
    TotalsGiveNet(records);
    Stats(|records|, CountKind(records, Debit), CountKind(records, Credit),
          TotalDebits(records), TotalCredits(records), issues)
  }

  /** Every record is counted once: `debit_count + credit_count == total_transactions`. */
  lemma {:induction false} CountsAddUp(records: seq<PdfTxn>)
    ensures CountKind(records, Debit) + CountKind(records, Credit) == |records|
    decreases |records|
  {
    if records != [] {
      CountsAddUp(records[..|records| - 1]);
    }
  }

  /** Credits minus debits is the net of all amounts. */
  lemma {:induction false} TotalsGiveNet(records: seq<PdfTxn>)
    ensures TotalCredits(records) - TotalDebits(records) == SumAmounts(records)
    decreases |records|
  {
    if records != [] {
      TotalsGiveNet(records[..|records| - 1]);
    }
  }

  /** Over converted records, the debit total is positive exactly when there is a Debit. */
  lemma {:induction false} DebitTotalPositive(records: seq<PdfTxn>)
    requires forall k :: 0 <= k < |records| ==> WellSigned(records[k])
    ensures TotalDebits(records) > 0.0 <==> CountKind(records, Debit) > 0
    ensures TotalCredits(records) > 0.0 <==> CountKind(records, Credit) > 0
    decreases |records|
  {
    if records != [] {
      DebitTotalPositive(records[..|records| - 1]);
    }
  }

  // ---------------------------------------------------------------------------
  // parse_and_validate
  // ---------------------------------------------------------------------------

  datatype Report =
    | Completed(conversionIssues: seq<Issue>, validationIssues: seq<Finding>, statistics: Stats)
    | Failed

  /** What `parse_and_validate` returns once the statement text is extracted. */
  function Outcome(text: string, llm: string -> string, loads: string -> Option<Json>, now: Moment): (r: (seq<PdfTxn>, Report))
    requires ValidMoment(now)
    ensures r.1.Failed? ==> r.0 == []
    ensures forall k :: 0 <= k < |r.0| ==> WellSigned(r.0[k])
  {
    if Strip(text) == [] then ([], Failed)
    else
      match ParseLlmResponse(llm(Truncate(text)), loads)
      case Err(_) => ([], Failed)
      case Ok(raw) =>
        match Elements(raw)
        case None => ([], Failed)
        case Some(items) =>
          var (records, issues) := ConvertAll(items, now);
          var findings := ValidationIssues(records);
          (records, Completed(issues, findings, Statistics(records, |findings|)))
  }

  /** Zero converted records is a completed run with an empty list, not a failure. */
  lemma EmptyIsNotFailure(text: string, llm: string -> string, loads: string -> Option<Json>, now: Moment)
    requires ValidMoment(now) && Strip(text) != []
    requires loads(ExtractPayload(llm(Truncate(text)))) == Some(JArray([]))
    ensures Outcome(text, llm, loads, now).0 == []
    ensures Outcome(text, llm, loads, now).1 == Completed([], [], Stats(0, 0, 0, 0.0, 0.0, 0))
  {
  }

  /** A completed report's statistics add up, and its issues only name missing descriptions. */
  lemma CompletedReport(text: string, llm: string -> string, loads: string -> Option<Json>, now: Moment)
    requires ValidMoment(now)
    requires Outcome(text, llm, loads, now).1.Completed?
    ensures var (records, report) := Outcome(text, llm, loads, now);
      report.statistics.debitCount + report.statistics.creditCount == report.statistics.totalTransactions == |records|
      && report.statistics.totalDebits >= 0.0 && report.statistics.totalCredits >= 0.0
      && report.statistics.totalCredits - report.statistics.totalDebits == SumAmounts(records)
      && report.validationIssues == DescriptionGaps(records)
  {
    var records := Outcome(text, llm, loads, now).0;
    CountsAddUp(records);
    TotalsGiveNet(records);
    OnlyDescriptionIssues(records);
  }

  /** `parse_and_validate` after text extraction: the conversion loop, the validation loop, the statistics. */
  method ParseAndValidate(text: string, llm: string -> string, loads: string -> Option<Json>, now: Moment)
    returns (records: seq<PdfTxn>, report: Report)
    requires ValidMoment(now)
    ensures (records, report) == Outcome(text, llm, loads, now)
  {
    if Strip(text) == [] {
      return [], Failed;
    }
    var raw := ParseLlmResponse(llm(Truncate(text)), loads);
    if raw.Err? {
      return [], Failed;
    }
    var items := Elements(raw.value);
    if items.None? {
      return [], Failed;
    }
    var standardized, conversionIssues := ConvertLoop(items.value, now);
    var allIssues := ValidateLoop(standardized);
    return standardized, Completed(conversionIssues, allIssues, Statistics(standardized, |allIssues|));
  }

  /** Step 3: append each converted record to `standardized`, each issue to `conversion_issues`. */
  method ConvertLoop(transactions: seq<Json>, now: Moment) returns (standardized: seq<PdfTxn>, conversionIssues: seq<Issue>)
    requires ValidMoment(now)
    ensures (standardized, conversionIssues) == ConvertAll(transactions, now)
  {
    standardized, conversionIssues := [], [];
    for idx := 0 to |transactions|
      invariant (standardized, conversionIssues) == ConvertAll(transactions[..idx], now)
    {
      assert transactions[..idx + 1][..idx] == transactions[..idx];
      var converted := ConvertWithIssues(transactions[idx], idx + 1, now);
      if converted.0.Some? {
        standardized := standardized + [converted.0.value];
      }
      conversionIssues := conversionIssues + converted.1;
    }
    assert transactions[..|transactions|] == transactions;
  }

  /** Step 4: extend `all_validation_issues` with each record's issues. */
  method ValidateLoop(standardized: seq<PdfTxn>) returns (allIssues: seq<Finding>)
    requires forall k :: 0 <= k < |standardized| ==> WellSigned(standardized[k])
    ensures allIssues == ValidationIssues(standardized)
  {
    allIssues := [];
    for idx := 0 to |standardized|
      invariant allIssues == ValidationIssues(standardized[..idx])
    {
      ValidationIssuesStep(standardized, idx);
      allIssues := allIssues + Validate(ToDict(standardized[idx]), idx + 1);
    }
    assert standardized[..|standardized|] == standardized;
  }
}
