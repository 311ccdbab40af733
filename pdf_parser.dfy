/**
 * `PDFParser`: the adapter between a language model's reply and the transaction records.
 * The statement text (at most its first 15000 characters) goes into the prompt; the
 * reply's JSON payload is cut out of a "```json" fence, decoded, and reduced to a list;
 * each element becomes a signed Debit or Credit record, or is skipped.
 */
module PdfParser {
  import opened Wrappers
  import opened Text
  import opened Numbers
  import opened Calendar
  import opened Json
  import opened Records

  /** How much of the statement text the prompt carries. */
  const PromptLimit: nat := 15000

  /** `pdf_text[: 15000]` */
  function Truncate(text: string): (r: string)
    ensures |r| == if |text| < PromptLimit then |text| else PromptLimit
    ensures r == text[..|r|]
  {
    if |text| <= PromptLimit then text else text[..PromptLimit]
  }

  /** Text past the limit never reaches the prompt. */
  lemma TruncateIgnoresTail(text: string, extra: string)
    requires |text| >= PromptLimit
    ensures Truncate(text + extra) == Truncate(text)
  {
    assert (text + extra)[..PromptLimit] == text[..PromptLimit];
  }

  const Fence: string := "```json"
  const Close: string := "```"

  /**
   * The JSON text of a reply: from just after the first "```json" to the next "```",
   * trimmed, or the whole reply trimmed when there is no such fence.
   */
  function ExtractPayload(reply: string): (r: string)
    ensures |r| <= |reply|
    ensures r == [] || (!IsSpace(r[0]) && !IsSpace(r[|r| - 1]))
  {
    if Contains(reply, Fence) then
      var start := FindFrom(reply, Fence, 0) + |Fence|;
      Strip(Slice(reply, start, FindFrom(reply, Close, start)))
    else Strip(reply)
  }

  predicate NoBacktick(s: string)
  {
    forall i :: 0 <= i < |s| ==> s[i] != '`'
  }

  /** Without an opening fence the payload is the whole reply, trimmed. */
  lemma ExtractPlain(reply: string)
    requires NoBacktick(reply)
    ensures ExtractPayload(reply) == Strip(reply)
  {
    ContainsIff(reply, Fence);
    if Contains(reply, Fence) {
      var i :| OccursAt(reply, Fence, i);
      StartsWithBacktick(reply, Fence, i);
    }
  }

  /** An occurrence of a fence at `k` puts a backtick at `k`. */
  lemma StartsWithBacktick(s: string, p: string, k: int)
    requires p != [] && p[0] == '`' && OccursAt(s, p, k)
    ensures 0 <= k < |s| && s[k] == '`'
  {
    assert s[k] == s[k..k + |p|][0];
  }

  /** A fenced reply yields its trimmed body, whatever follows the closing fence. */
  lemma ExtractFenced(pre: string, body: string, post: string)
    requires NoBacktick(pre) && NoBacktick(body)
    ensures ExtractPayload(pre + Fence + body + Close + post) == Strip(body)
  {
    var reply := pre + Fence + body + Close + post;
    var start := FencedBody(pre, body, post);
    assert Slice(reply, start, start + |body|) == body;
    PayloadIs(reply, start, body);
  }

  /** Where the body of a fenced reply starts and ends. */
  lemma FencedBody(pre: string, body: string, post: string) returns (start: nat)
    requires NoBacktick(pre) && NoBacktick(body)
    ensures var reply := pre + Fence + body + Close + post;
      && Contains(reply, Fence) && start == FindFrom(reply, Fence, 0) + |Fence|
      && start + |body| <= |reply| && FindFrom(reply, Close, start) == start + |body|
      && reply[start..start + |body|] == body
  {
    var reply := pre + Fence + body + Close + post;
    var rest := body + Close + post;
    assert reply == pre + Fence + rest;
    start := FenceAt(reply, pre, rest);
    CloseAt(reply, start, body, post);
    assert reply[start..start + |body|] == rest[..|body|] == body;
  }

  lemma PayloadIs(reply: string, start: nat, body: string)
    requires Contains(reply, Fence) && start == FindFrom(reply, Fence, 0) + |Fence|
    requires Slice(reply, start, FindFrom(reply, Close, start)) == body
    ensures ExtractPayload(reply) == Strip(body)
  {
  }

  /**
   * With no closing fence, `find` gives -1 and the slice ends one character before the
   * end: the reply's last character is dropped from the payload.
   */
  lemma ExtractUnclosed(pre: string, rest: string)
    requires NoBacktick(pre) && NoBacktick(rest) && rest != []
    ensures ExtractPayload(pre + Fence + rest) == Strip(rest[..|rest| - 1])
  {
    var reply := pre + Fence + rest;
    var start := FenceAt(reply, pre, rest);
    assert reply[start..] == rest;
    NoCloseAfter(reply, start);
    assert reply[start..|reply| - 1] == rest[..|rest| - 1];
    assert Slice(reply, start, -1) == reply[start..|reply| - 1];
    PayloadIs(reply, start, rest[..|rest| - 1]);
  }

  lemma NoCloseAfter(reply: string, start: nat)
    requires start <= |reply| && NoBacktick(reply[start..])
    ensures FindFrom(reply, Close, start) == -1
  {
    var r := FindFrom(reply, Close, start);
    if r != -1 {
      StartsWithBacktick(reply, Close, r);
    }
  }

  /** The first "```json" of `pre + Fence + rest` is right after `pre`. */
  lemma FenceAt(reply: string, pre: string, rest: string) returns (start: nat)
    requires reply == pre + Fence + rest && NoBacktick(pre)
    ensures Contains(reply, Fence)
    ensures start == FindFrom(reply, Fence, 0) + |Fence| == |pre| + |Fence|
    ensures reply[start..] == rest
  {
    assert reply[|pre|..|pre| + |Fence|] == Fence;
    assert OccursAt(reply, Fence, |pre|);
    ContainsIff(reply, Fence);
    var r := FindFrom(reply, Fence, 0);
    if r < |pre| {
      StartsWithBacktick(reply, Fence, r);
    }
    start := |pre| + |Fence|;
  }

  lemma CloseAt(reply: string, start: nat, body: string, post: string)
    requires start <= |reply| && reply[start..] == body + Close + post && NoBacktick(body)
    ensures FindFrom(reply, Close, start) == start + |body|
  {
    assert reply[start + |body|..start + |body| + |Close|] == reply[start..][|body|..|body| + |Close|] == Close;
    assert OccursAt(reply, Close, start + |body|);
    var r := FindFrom(reply, Close, start);
    if r < start + |body| {
      StartsWithBacktick(reply, Close, r);
    }
  }

  /** Why `parse_pdf_file` raises. */
  datatype PdfError =
    | InvalidJson          // `json.loads` raised `JSONDecodeError`
    | UnexpectedFormat     // neither a list nor a dict with `transactions`
    | NotASequence         // `len()` of the transactions value raised
    | NoTransactions       // zero records survived the conversion

  /** The response-shape rule: a dict's `transactions` value, or the list itself. */
  function Dispatch(parsed: Json): (r: Result<Json, PdfError>)
    ensures r.Ok? <==> (parsed.JObject? && "transactions" in parsed.fields) || parsed.JArray?
    ensures r.Ok? && parsed.JObject? ==> r.value == parsed.fields["transactions"]
    ensures r.Ok? && parsed.JArray? ==> r.value == parsed
    ensures r.Err? ==> r.error == UnexpectedFormat
  {
    if parsed.JObject? && "transactions" in parsed.fields then Ok(parsed.fields["transactions"])
    else if parsed.JArray? then Ok(parsed)
    else Err(UnexpectedFormat)
  }

  /** `_parse_llm_response`, with `json.loads` as the parameter `loads` (`None` for a decode error). */
  function ParseLlmResponse(reply: string, loads: string -> Option<Json>): (r: Result<Json, PdfError>)
    ensures loads(ExtractPayload(reply)).None? ==> r == Err(InvalidJson)
    ensures loads(ExtractPayload(reply)).Some? ==> r == Dispatch(loads(ExtractPayload(reply)).value)
  {
    match loads(ExtractPayload(reply))
    case None => Err(InvalidJson)
    case Some(parsed) => Dispatch(parsed)
  }

  /**
   * A standardized record; its `date` entry is `isoformat` of `moment` (see `DateText`)
   * and `original` is the raw dict it came from.
   */
  datatype PdfTxn = PdfTxn(
    moment: Moment,
    description: Json,
    amount: real,
    kind: Kind,
    category: string,
    balance: Float,
    original: map<string, Json>)

  /**
   * What every converted record satisfies: no amount is zero, a negative amount is
   * exactly a Debit, the date is a real moment, and the category is `Uncategorized`.
   */
  predicate WellSigned(t: PdfTxn)
  {
    t.amount != 0.0 && (t.kind == Debit <==> t.amount < 0.0) && t.category == Uncategorized
    && ValidMoment(t.moment)
  }

  /** The `date` entry of the record: `date.isoformat()`. */
  function DateText(t: PdfTxn): string
    requires ValidMoment(t.moment)
  {
    FormatMoment(t.moment)
  }

  /**
   * Amount and type from the two floats: a positive debit wins even over a positive
   * credit; then a positive credit; otherwise `None` (the record is skipped).
   * NaN is positive neither way.
   */
  function SignedAmount(debit: Float, credit: Float): (r: Option<(real, Kind)>)
    ensures IsPositive(debit) ==> r == Some((-debit.value, Debit))
    ensures !IsPositive(debit) && IsPositive(credit) ==> r == Some((credit.value, Credit))
    ensures r.None? <==> !IsPositive(debit) && !IsPositive(credit)
    ensures r.Some? ==> r.value.0 != 0.0 && (r.value.1 == Debit <==> r.value.0 < 0.0)
  {
    if IsPositive(debit) then Some((-debit.value, Debit))
    else if IsPositive(credit) then Some((credit.value, Credit))
    else None
  }

  /** One of the two `strptime` formats accepts the date field. */
  predicate DateParses(j: Json)
  {
    j.JString? && (ParseIso(j.s).Some? || ParseUs(j.s).Some?)
  }

  /**
   * The date cascade: `%Y-%m-%d`, then `%m/%d/%Y`, both at midnight, else `now`.
   * A field that is not a string makes `strptime` raise, and so falls back to `now`.
   */
  function DateOf(j: Json, now: Moment): (r: Moment)
    requires ValidMoment(now)
    ensures ValidMoment(r)
    ensures !DateParses(j) ==> r == now
  {
    if !j.JString? then now
    else match ParseIso(j.s)
      case Some(d) => Midnight(d)
      case None =>
        match ParseUs(j.s)
        case Some(d) => Midnight(d)
        case None => now
  }

  /** Both date forms the prompt may produce come back as that day. */
  lemma DateOfFormatted(d: Date, now: Moment)
    requires ValidDate(d) && ValidMoment(now)
    ensures DateOf(JString(FormatDate(d)), now) == Midnight(d)
    ensures DateOf(JString(FormatUs(d)), now) == Midnight(d)
  {
    ParseIsoFormatDate(d);
    ParseIsoRejectsUs(d);
    ParseUsFormatUs(d);
  }

  /** The record built from a dict once its amount, type, date and balance are known. */
  function MakeRecord(m: map<string, Json>, amount: real, kind: Kind, date: Moment, balance: Float): (r: PdfTxn)
    ensures r.original == m && r.category == Uncategorized
    ensures "description" !in m ==> r.description == JString("Unknown")
    ensures "description" in m ==> r.description == m["description"]
  {
    PdfTxn(date, Get(m, "description", JString("Unknown")), amount, kind, Uncategorized, balance, m)
  }

  /**
   * One step of `convert_to_standard_format`. `None` is a skip: the element is not a
   * dict, a `float()` raised, or neither debit nor credit is positive.
   */
  function ConvertOne(trans: Json, now: Moment): (r: Option<PdfTxn>)
    requires ValidMoment(now)
    ensures r.Some? ==> WellSigned(r.value) && trans.JObject? && r.value.original == trans.fields
  {
    match trans
    case JObject(m) =>
      var debit, credit := ToFloat(Get(m, "debit", JInt(0))), ToFloat(Get(m, "credit", JInt(0)));
      if debit.None? || credit.None? then None
      else
        var signed := SignedAmount(debit.value, credit.value);
        if signed.None? then None
        else
          var date := DateOf(Get(m, "date", JString("")), now);
          var balance := ToFloat(Get(m, "balance", JInt(0)));
          if balance.None? then None
          else Some(MakeRecord(m, signed.value.0, signed.value.1, date, balance.value))
    case _ => None
  }

  /** A positive debit makes a Debit of `-debit`, whatever the credit is. */
  lemma DebitWins(m: map<string, Json>, v: real, now: Moment)
    requires ValidMoment(now) && v > 0.0
    requires ToFloat(Get(m, "debit", JInt(0))) == Some(Num(v))
    requires ToFloat(Get(m, "credit", JInt(0))).Some? && ToFloat(Get(m, "balance", JInt(0))).Some?
    ensures ConvertOne(JObject(m), now).Some?
    ensures ConvertOne(JObject(m), now).value.kind == Debit && ConvertOne(JObject(m), now).value.amount == -v
  {
  }

  /** The date field never decides whether a record is kept: a bad date becomes `now`. */
  lemma DateNeverDrops(m: map<string, Json>, date: Json, now: Moment)
    requires ValidMoment(now)
    ensures ConvertOne(JObject(m["date" := date]), now).Some? == ConvertOne(JObject(m), now).Some?
  {
    var m' := m["date" := date];
    assert Get(m', "debit", JInt(0)) == Get(m, "debit", JInt(0));
    assert Get(m', "credit", JInt(0)) == Get(m, "credit", JInt(0));
    assert Get(m', "balance", JInt(0)) == Get(m, "balance", JInt(0));
  }

  /** The records that survive, in input order (defined on the last element, as the loop runs). */
  function StandardFormat(items: seq<Json>, now: Moment): (r: seq<PdfTxn>)
    requires ValidMoment(now)
    ensures |r| <= |items|
    ensures forall k :: 0 <= k < |r| ==> WellSigned(r[k])
  {
    if items == [] then []
    else
      var init := StandardFormat(items[..|items| - 1], now);
      match ConvertOne(items[|items| - 1], now)
      case Some(t) => init + [t]
      case None => init
  }

  /** Converting two stretches of records is converting each, in order. */
  lemma {:induction false} StandardFormatAppend(a: seq<Json>, b: seq<Json>, now: Moment)
    requires ValidMoment(now)
    ensures StandardFormat(a + b, now) == StandardFormat(a, now) + StandardFormat(b, now)
    decreases |b|
  {
    if b == [] {
      assert a + b == a;
    } else {
      var b' := b[..|b| - 1];
      assert (a + b)[..|a + b| - 1] == a + b';
      assert (a + b)[|a + b| - 1] == b[|b| - 1];
      StandardFormatAppend(a, b', now);
    }
  }

  /** A record that fails to convert is dropped on its own; the others are untouched. */
  lemma SkipOnlyThat(a: seq<Json>, x: Json, b: seq<Json>, now: Moment)
    requires ValidMoment(now) && ConvertOne(x, now).None?
    ensures StandardFormat(a + [x] + b, now) == StandardFormat(a + b, now)
  {
    StandardFormatAppend(a + [x], b, now);
    StandardFormatAppend(a, [x], now);
    StandardFormatAppend(a, b, now);
    assert [x][..0] == [];
  }

  /** Every output record is the conversion of some input element. */
  lemma {:induction false} StandardFormatFrom(items: seq<Json>, now: Moment)
    requires ValidMoment(now)
    ensures forall t :: t in StandardFormat(items, now) ==>
      exists k :: 0 <= k < |items| && ConvertOne(items[k], now) == Some(t)
    decreases |items|
  {
    if items != [] {
      var init := items[..|items| - 1];
      StandardFormatFrom(init, now);
      forall t | t in StandardFormat(items, now)
        ensures exists k :: 0 <= k < |items| && ConvertOne(items[k], now) == Some(t)
      {
        if t in StandardFormat(init, now) {
          var k :| 0 <= k < |init| && ConvertOne(init[k], now) == Some(t);
          assert items[k] == init[k];
        } else {
          assert ConvertOne(items[|items| - 1], now) == Some(t);
        }
      }
    }
  }

  lemma StandardFormatStep(items: seq<Json>, i: nat, now: Moment)
    requires ValidMoment(now) && i < |items|
    ensures ConvertOne(items[i], now).None? ==> StandardFormat(items[..i + 1], now) == StandardFormat(items[..i], now)
    ensures ConvertOne(items[i], now).Some? ==>
      StandardFormat(items[..i + 1], now) == StandardFormat(items[..i], now) + [ConvertOne(items[i], now).value]
  {
    assert items[..i + 1][..i] == items[..i];
  }

  /** `convert_to_standard_format`: the loop over the records; a skipped record adds nothing. */
  method ConvertToStandardFormat(transactions: seq<Json>, now: Moment) returns (standardized: seq<PdfTxn>)
    requires ValidMoment(now)
    ensures standardized == StandardFormat(transactions, now)
  {
    standardized := [];
    for idx := 0 to |transactions|
      invariant standardized == StandardFormat(transactions[..idx], now)
    {
      StandardFormatStep(transactions, idx, now);
      var one := ConvertRecord(transactions[idx], now);
      if one.Some? {
        standardized := standardized + [one.value];
      }
    }
    assert transactions[..|transactions|] == transactions;
  }

  /** The body of that loop for one record, each `continue` an early `None`. */
  method ConvertRecord(trans: Json, now: Moment) returns (r: Option<PdfTxn>)
    requires ValidMoment(now)
    ensures r == ConvertOne(trans, now)
  {
    if !trans.JObject? {
      return None;
    }
    var debit := ToFloat(Get(trans.fields, "debit", JInt(0)));
    var credit := ToFloat(Get(trans.fields, "credit", JInt(0)));
    if debit.None? || credit.None? {
      return None;
    }
    var signed := AmountAndType(debit.value, credit.value);
    if signed.None? {
      return None;
    }
    var date := DateOf(Get(trans.fields, "date", JString("")), now);
    var balance := ToFloat(Get(trans.fields, "balance", JInt(0)));
    if balance.None? {
      return None;
    }
    return Some(MakeRecord(trans.fields, signed.value.0, signed.value.1, date, balance.value));
  }

  /** The debit/credit branches of the conversion loop; `None` is its `continue`. */
  method AmountAndType(debit: Float, credit: Float) returns (r: Option<(real, Kind)>)
    ensures r == SignedAmount(debit, credit)
  {
    if IsPositive(debit) {
      return Some((-debit.value, Debit));
    } else if IsPositive(credit) {
      return Some((credit.value, Credit));
    }
    return None;
  }

  /**
   * `parse_pdf_file` from the extracted text on: the model `llm` answers the truncated
   * text, `loads` decodes the payload, and zero survivors is an error.
   */
  function ParsePdf(text: string, llm: string -> string, loads: string -> Option<Json>, now: Moment): (r: Result<seq<PdfTxn>, PdfError>)
    requires ValidMoment(now)
    ensures r.Ok? ==> r.value != [] && forall k :: 0 <= k < |r.value| ==> WellSigned(r.value[k])
  {
    match ParseLlmResponse(llm(Truncate(text)), loads)
    case Err(e) => Err(e)
    case Ok(raw) =>
      match Elements(raw)
      case None => Err(NotASequence)
      case Some(items) =>
        var standardized := StandardFormat(items, now);
        if standardized == [] then Err(NoTransactions) else Ok(standardized)
  }

  /** Only the first 15000 characters of the statement matter. */
  lemma ParsePdfIgnoresTail(text: string, extra: string, llm: string -> string, loads: string -> Option<Json>, now: Moment)
    requires ValidMoment(now) && |text| >= PromptLimit
    ensures ParsePdf(text + extra, llm, loads, now) == ParsePdf(text, llm, loads, now)
  {
    TruncateIgnoresTail(text, extra);
  }

  /** A transactions value that is a string or a dict yields only skips, so the parse fails. */
  lemma ParsePdfNeedsList(text: string, llm: string -> string, loads: string -> Option<Json>, now: Moment)
    requires ValidMoment(now)
    requires ParseLlmResponse(llm(Truncate(text)), loads).Ok?
    requires !ParseLlmResponse(llm(Truncate(text)), loads).value.JArray?
    ensures ParsePdf(text, llm, loads, now).Err?
  {
    var raw := ParseLlmResponse(llm(Truncate(text)), loads).value;
    match Elements(raw)
    case None =>
    case Some(items) =>
      NoDictNoRecords(items, now);
  }

  lemma {:induction false} NoDictNoRecords(items: seq<Json>, now: Moment)
    requires ValidMoment(now)
    requires forall k :: 0 <= k < |items| ==> items[k].JString?
    ensures StandardFormat(items, now) == []
    decreases |items|
  {
    if items != [] {
      NoDictNoRecords(items[..|items| - 1], now);
    }
  }

  /** `parse_pdf_file`: the LLM step, then the conversion loop, then the zero-survivor check. */
  method ParsePdfFile(text: string, llm: string -> string, loads: string -> Option<Json>, now: Moment)
    returns (r: Result<seq<PdfTxn>, PdfError>)
    requires ValidMoment(now)
    ensures r == ParsePdf(text, llm, loads, now)
  {
    var raw := ParseLlmResponse(llm(Truncate(text)), loads);
    if raw.Err? {
      return Err(raw.error);
    }
    var items := Elements(raw.value);
    if items.None? {
      return Err(NotASequence);
    }
    var standardized := ConvertToStandardFormat(items.value, now);
    if standardized == [] {
      return Err(NoTransactions);
    }
    return Ok(standardized);
  }
}
