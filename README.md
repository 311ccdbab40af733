# Personal finance analyzer: a Dafny model of the transaction pipeline

This project models the core of a personal finance analyzer: the service that turns an uploaded bank statement into categorized transactions, and then into a spending report with alerts. It covers these stages:

- **Upload check** (`FileProcessor`). Only `csv`, `xlsx` and `xls` names are accepted. The test looks at the text after the last dot, in any case. A refused name is rejected before anything is written.
- **Strict table reader** (`DataParser`). The header must hold `date, description, amount, type`. Each row is validated field by field. A bad row is skipped, and the file fails when no row survives.
- **LLM adapter for PDFs** (`PdfParser`). The prompt carries at most 15000 characters of statement text. The reply's JSON is cut out of a fenced block. Each extracted record becomes a signed Debit or Credit.
- **Instrumented adapter** (`PdfParserDebug`). The same conversion, but it records an issue for every record it skips or repairs. It then validates every record and reports statistics.
- **Categorizer** (`Categorizer`). Nine categories with ordered patterns. A Credit is matched against the Income patterns only. Any other record gets the first matching expense category, in table order.
- **Report** (`Analyzer`, `Spending`). The summary, per-category and per-month tables, spending trends, top ten expenses, income against expenses, and weekday patterns.
- **Alerts** (`Insights`). Five detectors: spending anomalies, budget risk, savings opportunities, weekend habits and financial health.
- **Entry point** (`Analysis`). `analyze_transactions` assembles the report.

There is one Dafny module per file. The supporting modules model the Python and pandas behaviour the services depend on:

- `Text`: strip, lower, title, find, slicing and replace.
- `Numbers`: `float()` on text, including `nan`.
- `Calendar`: proleptic Gregorian dates, weekdays, ISO weeks, `strptime` with the two formats used, `isoformat` and `fromisoformat`.
- `Json`: parsed JSON values with Python truthiness.
- `Aggregate`: filters, sums, `groupby`, `unique`, `idxmin`/`idxmax` and `nlargest(keep='first')`.
- `Records` and `Wrappers`: the canonical record, and Option/Result types.

Modelling choices:

- Amounts are exact `real` numbers. Python floats are `Num(r)` or `NaN`.
- Dates are exact calendar dates. Weekdays and week numbers are computed from them, not assumed.
- Three calls outside the program are passed in as parameters: the clock reading (`now`), the language model (`llm`) and the JSON decoder (`loads`).
- Objects whose fields the source updates are classes: a categorized record, and the upload folder. Loops the source writes as loops are methods with invariants, proved equal to the functions that specify them.

Behaviour of the code worth noting, which the model keeps:

- `categorize_transaction` overwrites the category of the dict it is given. Only `categorize_batch` works on copies.
- The weekend-habit alert also needs some weekday spending and some weekend spending.
- The budget-risk average is taken over all months, the current one included.
- An unclosed "```json" fence drops the reply's last character from the payload (`PdfParser.ExtractUnclosed`).

## Model

| member | source | states |
|---|---|---|
| Categorizer.PatternsShape | backend/services/categorizer.py:7-45 | the table has nine categories in declaration order; `Income` is the ninth and only income entry, and the first eight are the expense names |
| Categorizer.AnyContainedIff | backend/services/categorizer.py:54-55 | a pattern list matches a description exactly when one of its patterns occurs in it as a substring |
| Categorizer.AnyContainedAt | backend/services/categorizer.py:66-67 | one occurring pattern is enough for the list to match |
| Categorizer.FirstCategory | backend/services/categorizer.py:62-69 | the category found is the first entry other than `Income` whose patterns match; every earlier such entry does not match; without a result, no such entry matches |
| Categorizer.FirstCategoryStep | backend/services/categorizer.py:62-69 | one step of the category scan: the current entry is the answer when it is not `Income` and matches, and the search otherwise moves on to the next entry |
| Categorizer.CreditLabel | backend/services/categorizer.py:53-59 | a Credit is `Income` exactly when an Income pattern occurs in its lowercased description, and `Other Income` otherwise |
| Categorizer.ExpenseLabelOther | backend/services/categorizer.py:61-72 | any other type, a missing one included, gets `Other` exactly when no non-Income category has a pattern in the lowercased description |
| Categorizer.NoExpenseNameIsOther | backend/services/categorizer.py:7-45 | no category in the table is called `Other`, so `Other` is only the fallback |
| Categorizer.ExpenseLabel | backend/services/categorizer.py:61-69 | otherwise the label is the first non-Income category in table order that has a pattern in the description, and no earlier category matches |
| Categorizer.UberEatsIsDining | backend/services/categorizer.py:8-19 | a debit mentioning "uber eats" is Food & Dining, because that category comes before Transportation's "uber" |
| Categorizer.WalmartIsNotShopping | backend/services/categorizer.py:13-27 | "walmart" sits in both Groceries and Shopping; Groceries comes first, so a walmart debit is never Shopping |
| Categorizer.GasBillIsNotUtilities | backend/services/categorizer.py:17-31 | every "gas bill" contains Transportation's "gas", so Utilities' "gas bill" pattern can never decide a label |
| Categorizer.LabelIgnoresCase | backend/services/categorizer.py:49 | descriptions equal up to case get the same label |
| Categorizer.LabelOfLowered | backend/services/categorizer.py:49 | lowercasing a description before categorizing it changes nothing |
| Categorizer.LabelClosed | backend/services/categorizer.py:53-73 | a Credit is labelled `Income` or `Other Income`; anything else gets a table category or `Other`; no label is `Uncategorized` |
| Categorizer.Label | backend/services/categorizer.py:47-73 | the category `categorize_transaction` writes for a description and a type field; `CreditLabel`, `ExpenseLabel`, `ExpenseLabelOther` and `LabelClosed` state which |
| Categorizer.Record.constructor | backend/services/categorizer.py:47-50 | a transaction dict with its `description`, `type` and `category` keys |
| Categorizer.Record.Categorize | backend/services/categorizer.py:47-73 | `categorize_transaction` overwrites `category` in place with the label of the description and type, and leaves the other keys alone |
| Categorizer.ScanCategories | backend/services/categorizer.py:61-72 | the loop over categories returns the name of the first matching non-Income entry, or `Other` when none matches |
| Categorizer.SearchPatterns | backend/services/categorizer.py:54-55 | the loop over patterns reports whether some pattern of the list occurs in the description |
| Categorizer.CategorizedCopy | backend/services/categorizer.py:77 | a fresh copy that keeps description and type and holds their label as category |
| Categorizer.CategorizeBatch | backend/services/categorizer.py:75-77 | one fresh, categorized copy per input record, in the same order; the input records are left unchanged |
| DataParser.Message | backend/services/data_parser.py:43-44 | every error `parse_file` raises starts with "Error parsing file: " |
| DataParser.NormalizeAll | backend/services/data_parser.py:25 | the header line after lowering and stripping each name, position by position |
| DataParser.Missing | backend/services/data_parser.py:54 | the missing names are exactly the required names that no normalized header matches |
| DataParser.MissingOrdered | backend/services/data_parser.py:54 | the missing names are reported in the order in which they are required |
| DataParser.InOrderSkip | backend/services/data_parser.py:54 | a sequence in order in the tail of the required names is also in order in all of them |
| DataParser.InOrderCons | backend/services/data_parser.py:54 | a first required name followed by names in order from the tail is in order |
| DataParser.ValidateFormat | backend/services/data_parser.py:46-58 | `File is empty` exactly when the frame has no rows or no columns; any missing-columns error names exactly the absent required names and is never empty; with no error, every required name is among the normalized headers |
| DataParser.ColumnsNamed | backend/services/data_parser.py:63-66 | the positions of the columns that carry a given normalized name, all of them and only those |
| DataParser.Lookup | backend/services/data_parser.py:63-66 | `row[name]` succeeds only with the cell of a column carrying that name |
| DataParser.RowDict | backend/services/data_parser.py:75 | `row.to_dict()` has exactly the row's column names as keys |
| DataParser.RowDictLast | backend/services/data_parser.py:75 | a column no later column shares a name with gives the dict its cell, so a repeated name keeps its last cell |
| DataParser.RowDictKeepsLookup | backend/services/data_parser.py:63-75 | a column `row[name]` reads without error appears in `row.to_dict()` with that same cell |
| DataParser.ParseDate | backend/services/data_parser.py:80-91 | a missing cell is `Date is empty`; a present cell is accepted exactly when `strptime('%Y-%m-%d')` reads its stripped text, unpadded forms such as `2024-1-5` included, and the date is what it reads |
| DataParser.ParseDescription | backend/services/data_parser.py:93-102 | the description is the stripped text; it fails exactly when the cell is missing or holds only white space |
| DataParser.ParseAmount | backend/services/data_parser.py:104-113 | a numeric cell is taken as it is; a text cell is accepted exactly when the model of `float()` reads it (see `Numbers.ParseFloat` under Left out); a missing cell is `Amount is empty` |
| DataParser.ParseTypeIff | backend/services/data_parser.py:115-125 | a type is accepted exactly when its stripped text is "debit" or "credit" in any case, and it is read as that kind |
| DataParser.ParseType | backend/services/data_parser.py:115-125 | a missing cell is `Type is empty`; `ParseTypeIff` states which texts are accepted and as which kind |
| DataParser.ParseTypeDebit | backend/services/data_parser.py:120-125 | the type is Debit exactly when the stripped text, lowered, is "debit" |
| DataParser.ParseTypeCredit | backend/services/data_parser.py:120-125 | the type is Credit exactly when the stripped text, lowered, is "credit" |
| DataParser.KindWords | backend/services/data_parser.py:120-122 | "debit" and "credit" are lower case, and title case turns them into the two accepted spellings, which differ |
| DataParser.ParseRow | backend/services/data_parser.py:60-78 | a row is accepted exactly when all four fields parse; an accepted row is `Uncategorized`, has a non-empty description, its date is `isoformat` of midnight on a valid day, and its `original_data` is `row.to_dict()` |
| DataParser.ParseRowOriginal | backend/services/data_parser.py:63-75 | the `original_data` of an accepted row holds each of the four required columns with the cell its field was read from |
| DataParser.KeepOk | backend/services/data_parser.py:29-35 | keeping the rows that parse yields no more values than there are rows |
| DataParser.Survivors | backend/services/data_parser.py:29-35 | the rows that survive `_parse_row` are at most the rows of the file |
| DataParser.SurvivorsStep | backend/services/data_parser.py:29-35 | one more row is appended to the transactions exactly when it parses |
| DataParser.KeepOkAppend | backend/services/data_parser.py:29-35 | keeping over two stretches of rows is keeping over each, in order |
| DataParser.KeepOkFrom | backend/services/data_parser.py:29-35 | every kept value is the parse result of some row |
| DataParser.SurvivorsAppend | backend/services/data_parser.py:29-35 | the survivors of two stretches of rows are those of the first followed by those of the second |
| DataParser.SurvivorsOne | backend/services/data_parser.py:30-33 | a single row either survives as its own transaction or is skipped |
| DataParser.SurvivorsFromRows | backend/services/data_parser.py:29-35 | every transaction returned is uncategorized and is the parse of some row of the file |
| DataParser.ParseSheet | backend/services/data_parser.py:12-44 | a successful parse returns a non-empty list with no more transactions than rows |
| DataParser.ParseSheetHeaders | backend/services/data_parser.py:25 | headers that agree after lowering and stripping give the same result |
| DataParser.ParseFile | backend/services/data_parser.py:12-44 | `parse_file` after reading: validation errors first, then the row loop; no surviving row is `No valid transactions found in file` |
| DataParser.ParseRowAccepts | backend/services/data_parser.py:60-125 | a row with a `%Y-%m-%d` date, a non-blank description, a number and a type word yields a transaction with the date at midnight, the stripped description, the amount, the type and `Uncategorized` |
| DataParser.DescriptionOfText | backend/services/data_parser.py:93-102 | a description with text besides white space is accepted, stripped |
| DataParser.TypeOfKind | backend/services/data_parser.py:115-125 | the two spellings `Debit` and `Credit` are accepted as themselves |
| DataParser.ParseRowOfFields | backend/services/data_parser.py:60-78 | four accepted fields make the transaction built from them, with `row.to_dict()` as its `original_data` |
| DataParser.ParseDateFormatted | backend/services/data_parser.py:80-91 | a date written `YYYY-MM-DD` is read back as that date |
| DataParser.FormatDateEnds | backend/services/data_parser.py:85-89 | a written date starts and ends with a digit, so stripping it leaves it whole |
| DataParser.KindTitle | backend/services/data_parser.py:120 | stripping and title-casing an accepted type word leaves it as it is |
| DataParser.TitleDebit | backend/services/data_parser.py:120 | title case leaves `Debit` as it is |
| DataParser.TitleCredit | backend/services/data_parser.py:120 | title case leaves `Credit` as it is |
| DataParser.StoredDateReadsBack | backend/services/data_parser.py:70 | the stored `isoformat` date of an accepted row reads back through `fromisoformat` as midnight of a valid day |
| FileProcessor.LastDot | backend/services/file_processor.py:12 | the position `rsplit('.', 1)` splits at: a dot, with no dot after it, or -1 when there is no dot |
| FileProcessor.Extension | backend/services/file_processor.py:12 | `rsplit('.', 1)[1]`: the text after a dot at the end of the name, itself without a dot |
| FileProcessor.AllowedFile | backend/services/file_processor.py:10-12 | `allowed_file`: a dot in the name and an allowed lower-cased extension; `AllowedByExtension` and `AllowedFileSplits` state it as an iff |
| FileProcessor.ExtensionAfterLastDot | backend/services/file_processor.py:12 | the extension is the text after the last dot, however many dots come before it |
| FileProcessor.AllowedByExtension | backend/services/file_processor.py:8-12 | a name is allowed exactly when its last extension, lowered, is csv, xlsx or xls |
| FileProcessor.AllowedFileSplits | backend/services/file_processor.py:10-12 | every allowed name is a base, a dot, and an allowed extension with no dot in it |
| FileProcessor.NoDotRejected | backend/services/file_processor.py:11 | a name without a dot is refused |
| FileProcessor.OutsideAllowed | backend/services/file_processor.py:8 | a text that is empty or starts with neither 'c' nor 'x' is not an allowed extension |
| FileProcessor.LastExtensionUpperCase | backend/services/file_processor.py:12 | "a.txt.CSV" is allowed: only the last extension counts, in any case |
| FileProcessor.EarlierExtensionIgnored | backend/services/file_processor.py:12 | "a.csv.txt" is refused |
| FileProcessor.DotEdges | backend/services/file_processor.py:11-12 | a trailing dot leaves an empty extension and is refused; a bare ".csv" is allowed |
| FileProcessor.PdfRejected | backend/services/file_processor.py:8-12 | a PDF is refused whatever the case of its extension |
| FileProcessor.UploadFolder.constructor | backend/services/file_processor.py:6-8 | a new upload folder holds no saved files |
| FileProcessor.UploadFolder.SaveFile | backend/services/file_processor.py:14-25 | a name that is not allowed raises before anything is written; an allowed one is written at its path and the path is returned |
| Records.KindName | backend/services/data_parser.py:122 | the `type` field a transaction carries is always `Debit` or `Credit` |
| Json.ToFloat | backend/services/pdf_parser.py:155-156 | `float()` of a JSON value: an integer or a float is taken as its value; null, a list or a dict raises |
| Json.Elements | backend/services/pdf_parser.py:152 | iterating a value yields a list's items and, for a string or a dict, only strings; anything else is not iterable |
| PdfParser.Truncate | backend/services/pdf_parser.py:103 | the prompt text is the prefix of the statement, 15000 characters long or the whole text when shorter |
| PdfParser.TruncateIgnoresTail | backend/services/pdf_parser.py:103 | text past the first 15000 characters never reaches the prompt |
| PdfParser.ExtractPlain | backend/services/pdf_parser.py:130-131 | without an opening fence the payload is the whole reply, trimmed |
| PdfParser.ExtractPayload | backend/services/pdf_parser.py:125-131 | the JSON text handed to `json.loads` is no longer than the reply and is stripped; `ExtractPlain`, `ExtractFenced` and `ExtractUnclosed` give it for each shape of reply |
| PdfParser.StartsWithBacktick | backend/services/pdf_parser.py:125-128 | an occurrence of a fence puts a backtick at its position |
| PdfParser.ExtractFenced | backend/services/pdf_parser.py:125-129 | a fenced reply yields its body, trimmed, whatever precedes the fence or follows the closing fence |
| PdfParser.FencedBody | backend/services/pdf_parser.py:127-128 | the body starts 7 characters after the first "```json" and ends at the next "```" |
| PdfParser.PayloadIs | backend/services/pdf_parser.py:125-129 | with a fence, the payload is the slice from after the fence to the next "```", trimmed |
| PdfParser.ExtractUnclosed | backend/services/pdf_parser.py:127-129 | with no closing fence, `find` gives -1 and the payload loses the reply's last character |
| PdfParser.NoCloseAfter | backend/services/pdf_parser.py:128 | with no backtick after the start, the search for "```" gives -1 |
| PdfParser.FenceAt | backend/services/pdf_parser.py:127 | the first "```json" of a reply whose prefix has no backtick sits right after that prefix |
| PdfParser.CloseAt | backend/services/pdf_parser.py:128 | the closing "```" is found right after a body without backticks |
| PdfParser.Dispatch | backend/services/pdf_parser.py:136-141 | a dict with a `transactions` key yields that value, a list yields itself, anything else is `Unexpected response format from LLM` |
| PdfParser.ParseLlmResponse | backend/services/pdf_parser.py:119-146 | a payload that does not decode is a JSON error; otherwise the decoded value goes through the shape rule |
| PdfParser.SignedAmount | backend/services/pdf_parser.py:158-165 | a positive debit gives a Debit of minus the debit, whatever the credit; otherwise a positive credit gives a Credit of the credit; neither skips the record; every amount kept is non-zero and negative exactly for a Debit |
| PdfParser.DateOf | backend/services/pdf_parser.py:168-176 | the date is always a real moment, and is `now` whenever neither format accepts the field |
| PdfParser.DateOfFormatted | backend/services/pdf_parser.py:168-176 | a date written `YYYY-MM-DD` or `MM/DD/YYYY` comes back as midnight of that day |
| PdfParser.ConvertOne | backend/services/pdf_parser.py:154-188 | a converted record came from a dict, keeps that dict as `original_data`, has a non-zero amount whose sign matches its type, a real date, and category `Uncategorized` |
| PdfParser.MakeRecord | backend/services/pdf_parser.py:178-186 | the standardized dict keeps the original as `original_data`, is `Uncategorized`, and takes the description given or `Unknown` when there is none |
| PdfParser.DebitWins | backend/services/pdf_parser.py:158-160 | a record with a positive debit is kept as a Debit of minus the debit, whatever the credit is |
| PdfParser.DateNeverDrops | backend/services/pdf_parser.py:168-176 | the date field never decides whether a record is kept |
| PdfParser.StandardFormat | backend/services/pdf_parser.py:148-194 | no more records come out than go in, and each is well signed |
| PdfParser.StandardFormatAppend | backend/services/pdf_parser.py:152-192 | converting two stretches of records is converting each, in order |
| PdfParser.SkipOnlyThat | backend/services/pdf_parser.py:190-192 | a record that fails to convert is dropped on its own; the others are untouched |
| PdfParser.StandardFormatFrom | backend/services/pdf_parser.py:152-188 | every output record is the conversion of some input element |
| PdfParser.StandardFormatStep | backend/services/pdf_parser.py:152-192 | one more record adds its conversion to the output, or nothing when it is skipped |
| PdfParser.ConvertToStandardFormat | backend/services/pdf_parser.py:148-194 | the conversion loop, with `continue` on each skip, returns the surviving records in input order |
| PdfParser.ConvertRecord | backend/services/pdf_parser.py:153-188 | the body of the loop for one record gives the record's conversion, or a skip |
| PdfParser.AmountAndType | backend/services/pdf_parser.py:158-165 | the debit/credit branches give the signed amount and type, or a skip |
| PdfParser.ParsePdf | backend/services/pdf_parser.py:196-215 | a successful parse returns a non-empty list of well-signed records |
| PdfParser.ParsePdfIgnoresTail | backend/services/pdf_parser.py:103 | only the first 15000 characters of the statement affect the result |
| PdfParser.ParsePdfNeedsList | backend/services/pdf_parser.py:152-213 | a `transactions` value that is not a list makes the parse fail |
| PdfParser.NoDictNoRecords | backend/services/pdf_parser.py:152-192 | elements that are strings are all skipped |
| PdfParser.ParsePdfFile | backend/services/pdf_parser.py:196-215 | `parse_pdf_file` from the extracted text on: the model call on the truncated text, the conversion, and an error when nothing survives |
| PdfParserDebug.CountSkips | backend/pdf_parser_debug.py:181-218 | the number of skip issues in a list is at most its length |
| PdfParserDebug.CountSkipsAppend | backend/pdf_parser_debug.py:172-218 | the skips of two stretches of issues add up |
| PdfParserDebug.ConvertWithIssues | backend/pdf_parser_debug.py:175-218 | one iteration: every issue names the record; a dropped record has exactly one skip issue and a kept one none; a kept record is a well-signed conversion of a dict, with no issue exactly when its date parses and otherwise only the invalid-date issue |
| PdfParserDebug.SkipAfterDate | backend/pdf_parser_debug.py:194-218 | a date issue followed by a balance failure still counts as one skip |
| PdfParserDebug.NanSkips | backend/pdf_parser_debug.py:180-182 | a NaN debit or credit skips the record with a NaN issue, before the sign rule is tried |
| PdfParserDebug.NoAmountSkips | backend/pdf_parser_debug.py:184-192 | when neither amount is positive the record is skipped with a no-amount issue |
| PdfParserDebug.BadDateKept | backend/pdf_parser_debug.py:194-215 | a date neither format reads becomes `now`, is reported, and the record is kept |
| PdfParserDebug.TwinsAgree | backend/pdf_parser_debug.py:174-215 | without a NaN, the debug loop keeps exactly the records `PDFParser` keeps |
| PdfParserDebug.TwinsDifferOnNan | backend/pdf_parser_debug.py:180-182 | a NaN debit next to a positive credit is a Credit for `PDFParser` but a NaN skip in the debug loop |
| PdfParserDebug.ConvertAll | backend/pdf_parser_debug.py:171-218 | the whole conversion loop keeps at most the input's records, all well signed, and every issue names a record numbered from 1 |
| PdfParserDebug.EveryRecordAccounted | backend/pdf_parser_debug.py:174-218 | every raw record is either converted or named by exactly one skip issue |
| PdfParserDebug.ConvertAllMatchesTwin | backend/pdf_parser_debug.py:174-215 | without NaN anywhere, the debug loop converts exactly the records `PDFParser` converts |
| PdfParserDebug.AmountFindings | backend/pdf_parser_debug.py:65-71 | at most one amount issue, present exactly when the amount is missing, null or NaN |
| PdfParserDebug.DescriptionFindings | backend/pdf_parser_debug.py:73-75 | at most one description issue, present exactly when the description is falsy |
| PdfParserDebug.DateFindings | backend/pdf_parser_debug.py:77-84 | at most one date issue, present exactly when the date is falsy or `fromisoformat` rejects it with `Z` removed |
| PdfParserDebug.TypeFindings | backend/pdf_parser_debug.py:86-88 | at most one type issue, present exactly when the type is neither `Debit` nor `Credit` |
| PdfParserDebug.CategoryFindings | backend/pdf_parser_debug.py:90-92 | at most one category issue, present exactly when the category is falsy |
| PdfParserDebug.FindingsOf | backend/pdf_parser_debug.py:61-94 | the issues of one check: at most one, carrying the record's number, and none exactly when that validation passes |
| PdfParserDebug.Passes | backend/pdf_parser_debug.py:61-94 | what each of the five checks accepts: an amount present, not None and not NaN; a truthy description; a truthy date string `fromisoformat` reads once `Z` is removed; type Debit or Credit; a truthy category |
| PdfParserDebug.Validate | backend/pdf_parser_debug.py:61-94 | `validate_transaction` returns at most five issues; `ValidateEmpty`, `ValidateOrdered`, `ValidateIndexes` and `ValidateFlags` state which |
| PdfParserDebug.ValidateOrdered | backend/pdf_parser_debug.py:61-94 | the issues of a record come in the fixed order of the five checks |
| PdfParserDebug.ValidateIndexes | backend/pdf_parser_debug.py:61-94 | every issue of a record carries that record's number |
| PdfParserDebug.IndexesAppend | backend/pdf_parser_debug.py:233-236 | issues naming records in a range, joined, still name records in that range |
| PdfParserDebug.ValidateEmpty | backend/pdf_parser_debug.py:61-94 | a record has no issue exactly when all five checks pass |
| PdfParserDebug.RankAppend | backend/pdf_parser_debug.py:61-94 | appending at most one issue of the next check keeps the validation order |
| PdfParserDebug.AllChecks | backend/pdf_parser_debug.py:61-94 | passing every check is passing the amount, description, date, type and category checks |
| PdfParserDebug.FlagsAppend | backend/pdf_parser_debug.py:61-94 | a check is flagged by two lists joined exactly when one of them flags it |
| PdfParserDebug.FlagsOwn | backend/pdf_parser_debug.py:61-94 | one check's issues flag that check exactly when it fails, and no other check |
| PdfParserDebug.ValidateFlags | backend/pdf_parser_debug.py:61-94 | each check flags the record exactly when that check fails |
| PdfParserDebug.ToDict | backend/pdf_parser_debug.py:205-213 | a converted record is a dict with the seven keys date, description, amount, type, category, balance and original_data |
| PdfParserDebug.FormatMomentNoZ | backend/pdf_parser_debug.py:82 | `isoformat` text has no `Z`, so the validator's `replace` leaves it unchanged |
| PdfParserDebug.NoZConcat | backend/pdf_parser_debug.py:82 | two texts without `Z`, joined, have no `Z` |
| PdfParserDebug.ClockNoZ | backend/pdf_parser_debug.py:82 | the time part of `isoformat` has no `Z` |
| PdfParserDebug.ConvertedPassesChecks | backend/pdf_parser_debug.py:61-94 | a converted record fails only the description check, and exactly when its description is falsy |
| PdfParserDebug.DictEntries | backend/pdf_parser_debug.py:205-213 | the dict of a converted record holds its `isoformat` date, description, float amount, type word and category |
| PdfParserDebug.DatePasses | backend/pdf_parser_debug.py:77-84 | the date of a converted record always passes the date check |
| PdfParserDebug.IsoTextPasses | backend/pdf_parser_debug.py:82 | `isoformat` text is non-empty and `fromisoformat` reads it once `Z` is removed |
| PdfParserDebug.DateCheckOf | backend/pdf_parser_debug.py:77-84 | a non-empty date string that `fromisoformat` reads passes the date check |
| PdfParserDebug.ValidateOnlyDescription | backend/pdf_parser_debug.py:61-94 | when the other four checks pass, the issues are those of the description check alone |
| PdfParserDebug.DescriptionGaps | backend/pdf_parser_debug.py:233-236 | one missing-description issue per converted record with a falsy description, naming that record |
| PdfParserDebug.OnlyDescriptionIssues | backend/pdf_parser_debug.py:233-236 | over converted records, the validator reports exactly the falsy descriptions and nothing else |
| PdfParserDebug.IssueIndexes | backend/pdf_parser_debug.py:233-236 | every validation issue names one of the converted records, numbered from 1 |
| PdfParserDebug.CountKind | backend/pdf_parser_debug.py:252-253 | a count of one type is at most the number of records |
| PdfParserDebug.Statistics | backend/pdf_parser_debug.py:250-257 | the statistics: debit and credit counts add up to the number of records, credits less debits is the net of the amounts, and the issue count is kept |
| PdfParserDebug.TotalDebits | backend/pdf_parser_debug.py:254 | `total_debits` is never negative |
| PdfParserDebug.TotalCredits | backend/pdf_parser_debug.py:255 | `total_credits` is never negative |
| PdfParserDebug.CountsAddUp | backend/pdf_parser_debug.py:250-253 | `debit_count + credit_count == total_transactions` |
| PdfParserDebug.TotalsGiveNet | backend/pdf_parser_debug.py:254-255 | credits minus debits is the net of all amounts |
| PdfParserDebug.DebitTotalPositive | backend/pdf_parser_debug.py:252-255 | over converted records, the debit total is positive exactly when there is a Debit, and the credit total exactly when there is a Credit |
| PdfParserDebug.Outcome | backend/pdf_parser_debug.py:118-294 | a failed run returns an empty list, and every record returned is well signed |
| PdfParserDebug.EmptyIsNotFailure | backend/pdf_parser_debug.py:283 | zero converted records is a completed run with an empty list and zero statistics, not a failure |
| PdfParserDebug.CompletedReport | backend/pdf_parser_debug.py:247-257 | in a completed report the counts add up to the records, the totals are non-negative and differ by the net amount, and the issues are exactly the falsy descriptions |
| PdfParserDebug.ParseAndValidate | backend/pdf_parser_debug.py:118-294 | `parse_and_validate` after text extraction: conversion loop, validation loop and statistics give the outcome above |
| PdfParserDebug.ConvertLoop | backend/pdf_parser_debug.py:171-218 | the step-3 loop appends each converted record and each issue, as the whole-loop function says |
| PdfParserDebug.ValidateLoop | backend/pdf_parser_debug.py:233-236 | the step-4 loop extends the issue list with each record's issues, numbered from 1 |
| PdfParserDebug.ValidationIssues | backend/pdf_parser_debug.py:233-236 | every converted record's issues, numbered from 1, concatenated; `OnlyDescriptionIssues` and `IssueIndexes` state what they can be |
| PdfParserDebug.ValidationIssuesStep | backend/pdf_parser_debug.py:233-236 | one more record adds its own issues to those of the records before it, numbered by its position from 1 |
| Analyzer.ExpenseRows | backend/services/analyzer.py:56 | the expense rows all have a negative amount |
| Analyzer.TotalIncome | backend/services/analyzer.py:36 | the sum of the positive amounts; `SignTotals` and `IncomeLessExpenses` state it non-negative and equal to the inflow sum |
| Analyzer.TotalExpenses | backend/services/analyzer.py:37 | `abs` of the sum of the negative amounts; `SignTotals` and `IncomeLessExpenses` state it non-negative and equal to the outflow sum |
| Analyzer.IncomeRows | backend/services/analyzer.py:57 | the income rows all have a positive amount |
| Analyzer.SignTotals | backend/services/analyzer.py:36-37 | filtering to one sign first gives the sums of the inflows and of the outflows |
| Analyzer.AmountIsInflow | backend/services/analyzer.py:36 | over positive amounts, the amounts and the inflows sum alike |
| Analyzer.IncomeLessExpenses | backend/services/analyzer.py:36-38 | both totals are non-negative, and income less expenses is the sum of all amounts; a zero amount is in neither |
| Analyzer.StampColumn | backend/services/analyzer.py:47-48 | the date column as the stamps `min()` and `max()` compare, row by row |
| Analyzer.DateRange | backend/services/analyzer.py:46-49 | the start and end are dates of the frame, and every date lies between them |
| Analyzer.SummaryStats | backend/services/analyzer.py:33-50 | the count is the number of rows, net is income less expenses, the average is the net over the count, and the range is that of the dates |
| Analyzer.SummaryTotals | backend/services/analyzer.py:36-38 | both totals of the summary are non-negative and the net is the plain sum of the amounts |
| Analyzer.Moments | backend/services/analyzer.py:47-48 | the date column, row by row |
| Analyzer.MeanScales | backend/services/analyzer.py:45 | `n` values at the mean add up to the total |
| Analyzer.TableKeys | backend/services/analyzer.py:70-105 | the keys of a dict in insertion order |
| Analyzer.Find | backend/services/analyzer.py:70-105 | a lookup misses exactly when the key is not in the dict |
| Analyzer.Put | backend/services/analyzer.py:81-97 | an assignment stores the value, leaves every other key alone, keeps an existing key in place and adds a new key at the end |
| Analyzer.ExpenseKeys | backend/services/analyzer.py:60-73 | the expense categories in groupby order, without repeats |
| Analyzer.ExpenseKeysMembers | backend/services/analyzer.py:60 | a category is an expense category exactly when some negative amount carries it |
| Analyzer.IncomeKeys | backend/services/analyzer.py:64-90 | the income categories in groupby order, without repeats |
| Analyzer.IncomeKeysMembers | backend/services/analyzer.py:64 | a category is an income category exactly when some positive amount carries it |
| Analyzer.CategorySpendingIsTotal | backend/services/analyzer.py:68 | the per-category spending adds up to the summary's expense total |
| Analyzer.CategorySpending | backend/services/analyzer.py:68 | `expense_by_category.sum()`, which `CategorySpendingIsTotal` equates with the summary's expense total |
| Analyzer.PercentAdd | backend/services/analyzer.py:78 | percentages of one total add like their parts |
| Analyzer.Percent | backend/services/analyzer.py:78 | a share in percent, 0 without a positive total; `PercentAdd`, `PercentWhole` and `PercentagesSumTo100` state its sums |
| Analyzer.ExpenseEntries | backend/services/analyzer.py:73-87 | the expense loop assigns exactly the expense categories, in order |
| Analyzer.IncomeEntries | backend/services/analyzer.py:90-103 | the income loop assigns exactly the income categories, in order |
| Analyzer.FindExpenseEntries | backend/services/analyzer.py:73-87 | each expense category assigned holds its expense entry |
| Analyzer.Average | backend/services/analyzer.py:79 | `total / count if count > 0 else 0`: the average times the count is the total, and 0 for no rows |
| Analyzer.ExpenseStat | backend/services/analyzer.py:81-87 | the stored expense dict is of type expense, with the average per transaction its total over its count |
| Analyzer.IncomeStat | backend/services/analyzer.py:97-103 | the stored income dict is of type income, with percentage 0 and the average per transaction its total over its count |
| Analyzer.FindIncomeEntries | backend/services/analyzer.py:90-103 | each income category assigned holds its income entry |
| Analyzer.FindStore | backend/services/analyzer.py:70-103 | after the assignments a key holds its last assigned value, or what it held before |
| Analyzer.StoreKeys | backend/services/analyzer.py:73-87 | assigning distinct new keys to an empty dict lists them in order |
| Analyzer.StoreKeepsPositions | backend/services/analyzer.py:90-103 | later assignments leave the positions of keys already present alone |
| Analyzer.CategoryLookup | backend/services/analyzer.py:70-105 | a category holds its income entry when it has a positive amount, else its expense entry when it has a negative one, else nothing |
| Analyzer.BothSignsKeepIncome | backend/services/analyzer.py:81-103 | a category with amounts of both signs ends up with only its income entry, of type income and percentage 0, in the place its expense entry held; the expense categories come first |
| Analyzer.PercentSumScaled | backend/services/analyzer.py:78 | the sum of the expense percentages is the percentage of the summed spending |
| Analyzer.PercentagesSumTo100 | backend/services/analyzer.py:78-85 | with any expense at all, the unrounded expense percentages add up to exactly 100 |
| Analyzer.PercentWhole | backend/services/analyzer.py:78 | a total is 100 percent of itself |
| Analyzer.AnalyzeByCategory | backend/services/analyzer.py:52-105 | the two loops of `_analyze_by_category` build the dict the category model describes |
| Analyzer.ByCategory | backend/services/analyzer.py:52-105 | the category dict: the expense assignments, then the income ones; `CategoryLookup` and `BothSignsKeepIncome` state what each key holds |
| Analyzer.StoreStep | backend/services/analyzer.py:81-97 | one more assignment is one more dict update |
| Analyzer.StoreExpenseStep | backend/services/analyzer.py:73-87 | one more expense category adds its entry to the dict |
| Analyzer.StoreIncomeStep | backend/services/analyzer.py:90-103 | one more income category adds its entry to the dict |
| Analyzer.MonthStatOf | backend/services/analyzer.py:114-124 | a month's income and expenses are non-negative and its net is income less expenses |
| Analyzer.MonthOrder | backend/services/analyzer.py:110-113 | the months of the frame, each once and no other, a month before every month whose first row comes later |
| Analyzer.MonthRows | backend/services/analyzer.py:113-124 | the dict holds one entry per month, its statistics, in loop order |
| Analyzer.ByMonth | backend/services/analyzer.py:107-126 | the month dict in `unique()` order; `MonthRows`, `MonthOrder` and `MonthTotals` state its entries, order and totals |
| Analyzer.MonthRowsSums | backend/services/analyzer.py:113-124 | the month counts and totals are the group sums of the rows over those months |
| Analyzer.MonthTotals | backend/services/analyzer.py:113-124 | the month counts sum to the number of rows, and the month totals to the summary's income and expenses |
| Analyzer.AnalyzeByMonth | backend/services/analyzer.py:107-126 | the loop of `_analyze_by_month` builds one entry per month, in order |
| Analyzer.MonthRowsStep | backend/services/analyzer.py:113-124 | one more month adds its entry at the end |
| Spending.DayKeys | backend/services/analyzer.py:137 | the daily series is empty exactly when there is no expense |
| Spending.SpentOn | backend/services/analyzer.py:137 | what was spent on one date; `DailySpending` and `DailyTotal` tie it to the daily series and the expense total |
| Spending.DayOf | backend/services/analyzer.py:137 | `.dt.date` of a valid moment is the valid day whose midnight is at most that moment and less than a day before it |
| Spending.WeekOf | backend/services/analyzer.py:140 | the ISO week number of a row's date, as `Calendar.IsoWeek` computes it |
| Spending.WeekKeys | backend/services/analyzer.py:140 | the weekly series is empty exactly when there is no expense |
| Spending.DailySpending | backend/services/analyzer.py:137 | one value per date with an expense: what was spent that day |
| Spending.WeeklySpending | backend/services/analyzer.py:140 | one value per ISO week with an expense |
| Spending.SpendingTrends | backend/services/analyzer.py:128-153 | no trends exactly when there is no expense; otherwise the highest and lowest days are dates with an expense and their amounts are what was spent on them |
| Spending.NoTrendsWithoutExpenses | backend/services/analyzer.py:131-134 | the trends are empty exactly when no amount is negative |
| Spending.DayPosition | backend/services/analyzer.py:137 | a date of the daily index has a position in it |
| Spending.TrendsExtremes | backend/services/analyzer.py:144-151 | the lowest and highest days bound what was spent on every date with an expense |
| Spending.TrendsFirstExtremes | backend/services/analyzer.py:145-149 | `idxmax()` and `idxmin()` give the first date holding the extreme |
| Spending.TrendsPositive | backend/services/analyzer.py:137 | every date with an expense spent a positive amount |
| Spending.DailyMean | backend/services/analyzer.py:143 | the daily average is the expense total over the number of dates with an expense |
| Spending.WeeklyMean | backend/services/analyzer.py:152 | the weekly average is the expense total over the number of weeks with an expense |
| Spending.DailyTotal | backend/services/analyzer.py:137 | the daily totals add up to the expense total |
| Spending.WeeklyTotal | backend/services/analyzer.py:140 | the weekly totals add up to the expense total |
| Spending.TrendsAverageBetween | backend/services/analyzer.py:143-151 | the daily average lies between the lowest and the highest day |
| Spending.MeanBetween | backend/services/analyzer.py:143 | the mean of a series lies between any bounds on its values |
| Spending.AmountColumn | backend/services/analyzer.py:159 | the `amount` column of the rows, row by row |
| Spending.TopPicks | backend/services/analyzer.py:159 | `nlargest` picks positions among the expense rows |
| Spending.TopExpenses | backend/services/analyzer.py:155-169 | one entry per picked expense row, in the order `nlargest` gives |
| Spending.TopExpensesLength | backend/services/analyzer.py:155-159 | ten entries, or every expense when there are fewer |
| Spending.TopExpensesAreExpenses | backend/services/analyzer.py:158-166 | each entry is an expense row of the frame, reported with the magnitude of its amount |
| Spending.TopExpensesOrder | backend/services/analyzer.py:159 | entries are ordered by signed amount, largest first, so their magnitudes do not decrease; equal amounts keep the rows' order |
| Spending.TopExpensesSmallest | backend/services/analyzer.py:159 | `nlargest` on negative amounts keeps the smallest outflows: every expense left out spent at least as much as any entry, and one that spent the same comes later |
| Spending.ExpenseAmounts | backend/services/analyzer.py:181-183 | the signed sum of the expense amounts is minus the expense total, which is positive when any expense exists |
| Spending.SumNonZeroFree | backend/services/analyzer.py:174-175 | expense rows carry no inflow |
| Spending.IncomeVsExpenses | backend/services/analyzer.py:171-179 | the counts are the numbers of positive and of negative amounts |
| Spending.BalanceMeans | backend/services/analyzer.py:180-184 | the averages times their row counts are the totals; each guarded value is 0 when its side is empty |
| Spending.BalanceRatio | backend/services/analyzer.py:182-184 | with expenses, the ratio times the expense total is the income total |
| Spending.NegatedMean | backend/services/analyzer.py:181 | `abs` of the mean of negated values is the mean of the values |
| Spending.DayNameKeys | backend/services/analyzer.py:193 | the day names with an expense, each once |
| Spending.DayNameOf | backend/services/analyzer.py:192 | `day_name()` of a row's date; `SpendingByDayNames` states every key is a weekday name |
| Spending.SpendingByDay | backend/services/analyzer.py:192-194 | one entry per day name with an expense: the outflows of that day of the week |
| Spending.SpanDays | backend/services/analyzer.py:197 | the span of the dates in whole days is never negative |
| Spending.SpendingPatterns | backend/services/analyzer.py:187-201 | the day-of-week totals as above, and `average_daily_spending` present exactly when the span is at least one day |
| Spending.SpanOfOneDay | backend/services/analyzer.py:197-199 | the average daily spending is present exactly when the last date is a whole day or more after the first |
| Spending.SpendingByDayTotal | backend/services/analyzer.py:193 | the day-of-week totals add up to the expense total |
| Spending.SpendingByDayNames | backend/services/analyzer.py:192 | every key of `spending_by_day` is the name of a day of the week |
| Insights.MonthLtOrders | backend/services/analyzer.py:232 | the order of the month keys is a strict total order |
| Insights.MonthKeys | backend/services/analyzer.py:232 | the keys of the month dict, entry by entry |
| Insights.SortedMonths | backend/services/analyzer.py:232 | `sorted(monthly_data.keys())` is sorted, holds exactly the months of the dict, and is non-empty for a non-empty dict |
| Insights.MonthFind | backend/services/analyzer.py:236-237 | a month lookup misses exactly when the month is not a key |
| Insights.Spent | backend/services/analyzer.py:236 | `abs()` of a month's expenses is never negative |
| Insights.SpentOver | backend/services/analyzer.py:237 | the spending summed over some months is never negative |
| Insights.SpentAll | backend/services/analyzer.py:294 | the spending summed over all months is never negative |
| Insights.PreviousMonths | backend/services/analyzer.py:234 | the two months before the latest, or every earlier month when there are fewer than three |
| Insights.DivCompare | backend/services/analyzer.py:240-251 | a quotient by a positive average compared with a bound is the difference compared with the scaled bound |
| Insights.ChangeAlert | backend/services/analyzer.py:239-259 | at most one alert, a spike or a decrease |
| Insights.ChangeBands | backend/services/analyzer.py:240-259 | a spike above 125% of the average, high exactly above 150%; a decrease below 75%; nothing in between; the amount is the positive gap to the average |
| Insights.MonthlyChange | backend/services/analyzer.py:229-259 | the month-over-month comparison gives at most one alert, a spike or a decrease |
| Insights.MonthlyChangeWhen | backend/services/analyzer.py:231-239 | an alert needs two months or more and a positive mean over the at most two months before the latest, and is then the banded alert of the latest month against that mean |
| Insights.Dominant | backend/services/analyzer.py:262-271 | a category entry gives an alert exactly when its percentage is above 40 |
| Insights.Dominance | backend/services/analyzer.py:261-271 | the category loop's alerts in dict order; `DominanceMembers` and `DominanceByFind` state which entries raise one |
| Insights.Anomalies | backend/services/analyzer.py:225-273 | the month-over-month alert followed by the category alerts; `DetectSpendingAnomalies` is its loop form |
| Insights.CompareMonths | backend/services/analyzer.py:229-259 | the code of the month-over-month comparison computes the comparison above |
| Insights.ChangeInsights | backend/services/analyzer.py:240-259 | the percentage change and its two branches give the banded alert |
| Insights.DetectSpendingAnomalies | backend/services/analyzer.py:225-273 | `_detect_spending_anomalies`: the month comparison's alerts followed by the category loop's |
| Insights.FlagDominance | backend/services/analyzer.py:262-271 | the category loop appends the dominance alerts of the entries in dict order |
| Insights.DominanceStep | backend/services/analyzer.py:262-271 | one more entry adds its own alert, if any, at the end |
| Insights.DominanceMembers | backend/services/analyzer.py:262-271 | every dominance alert comes from an entry above 40% with that entry's name, total and percentage, and every such entry gives one |
| Insights.StoreDistinct | backend/services/analyzer.py:70-103 | dict assignments keep the keys distinct |
| Insights.FindEntry | backend/services/analyzer.py:262 | in a dict, an entry is exactly what a lookup of its key returns |
| Insights.ByCategoryDistinct | backend/services/analyzer.py:70-105 | the category dict has distinct keys |
| Insights.DominanceByFind | backend/services/analyzer.py:262-263 | a category is flagged exactly when the value stored for it is above 40% |
| Insights.DominantCategory | backend/services/analyzer.py:262-263 | a category is flagged as dominant exactly when it has expenses, no income, and more than 40% of all spending |
| Insights.BudgetRisks | backend/services/analyzer.py:275-306 | at most one alert, a budget risk |
| Insights.MonthStart | backend/services/analyzer.py:280 | `now.replace(day=1)`: the first of the month at the time of day of `now` |
| Insights.ThisMonth | backend/services/analyzer.py:281 | the rows dated at or after the start of the month; `BudgetRiskWhen` uses it |
| Insights.DaysElapsed | backend/services/analyzer.py:284 | whole days since the first of the month; `DaysElapsedIsDay` states it is the day of the month less one |
| Insights.Projection | backend/services/analyzer.py:289 | spending so far spread over the whole month; `OverrunWhen` states when it raises an alert |
| Insights.OverrunAlert | backend/services/analyzer.py:292-304 | at most one alert, a budget risk |
| Insights.OverrunWhen | backend/services/analyzer.py:293-302 | an overrun is reported exactly when the dict has two months or more and the projection tops 120% of the monthly mean; its amount is the excess over the mean |
| Insights.DaysElapsedIsDay | backend/services/analyzer.py:284-287 | the whole days since the first of the month are the day of the month less one, always below the month's length |
| Insights.BudgetRiskWhen | backend/services/analyzer.py:280-304 | a projection is made only when some row is dated this month and today is not the first: the month-to-date spending per day elapsed, times the month's length |
| Insights.NoBudgetRiskOnFirstDay | backend/services/analyzer.py:287 | there is no budget risk on the first day of a month |
| Insights.SmallRows | backend/services/analyzer.py:313 | the small rows are all expenses of less than 20 |
| Insights.SavingsAlert | backend/services/analyzer.py:318-327 | at most one alert per group, a savings alert naming that group |
| Insights.Savings | backend/services/analyzer.py:308-329 | the savings alerts over the sorted categories of small expenses; `SavingsWhen` states them as an iff |
| Insights.IdentifySavingsOpportunities | backend/services/analyzer.py:308-329 | the loop over the groups of small expenses appends the alerts the savings rule gives, in group order |
| Insights.SavingsForStep | backend/services/analyzer.py:318-327 | one more group adds its own alert, if any, at the end |
| Insights.AbsOfExpenses | backend/services/analyzer.py:316 | `abs` of the sum of expense amounts is the sum of the outflows |
| Insights.SmallSpendBound | backend/services/analyzer.py:313 | rows each spending less than 20 spend less than 20 apiece in total |
| Insights.SmallGroup | backend/services/analyzer.py:315 | the small rows of one category are small expenses |
| Insights.SavingsForAlerts | backend/services/analyzer.py:318-327 | every alert names a group with at least five purchases whose total lies between 50 and 20 per purchase |
| Insights.SavingsFor | backend/services/analyzer.py:318-327 | the loop over the groups adds at most one alert per group, each a savings alert naming one of the groups |
| Insights.SavingsForComplete | backend/services/analyzer.py:318-319 | every group with at least five purchases totalling at least 50 gets an alert |
| Insights.SavingsWhen | backend/services/analyzer.py:308-329 | a category gets a savings alert exactly when it has at least five expenses under 20 that together spend at least 50; the alert carries that spending and the count |
| Insights.Habits | backend/services/analyzer.py:331-353 | at most one alert, a spending pattern |
| Insights.HabitsWhen | backend/services/analyzer.py:336-351 | a weekend alert is raised exactly when both parts of the week have spending and the weekend's share is above 40%; its amount is the weekend's spending |
| Insights.WeekSplit | backend/services/analyzer.py:336-338 | weekend and weekday outflows add up to all outflows |
| Insights.WeekPartsAddUp | backend/services/analyzer.py:337-338 | weekend and weekday spending split the summary's expense total |
| Insights.WeekendSpending | backend/services/analyzer.py:337 | `abs` of the weekend expenses' sum is what they spend |
| Insights.WeekdaySpending | backend/services/analyzer.py:338 | `abs` of the weekday expenses' sum is what they spend |
| Insights.Health | backend/services/analyzer.py:355-394 | at most one alert, a financial-health one |
| Insights.HealthBands | backend/services/analyzer.py:363-392 | no alert without income or for a savings rate from 10% to under 20%; high when expenses exceed income, medium for a rate from 0 to under 10%, positive at 20% or more; every alert's amount is positive |
| Insights.GenerateInsights | backend/services/analyzer.py:203-223 | the five detectors' lists, extended one after the other |
| Insights.AllInsights | backend/services/analyzer.py:203-223 | the five detectors' alerts joined in order; `InsightsInFamilyOrder` states they come grouped by detector |
| Insights.DominanceFamily | backend/services/analyzer.py:262-271 | dominance alerts belong to the first detector |
| Insights.SavingsForFamily | backend/services/analyzer.py:318-327 | the savings loop's alerts belong to the third detector |
| Insights.AnomaliesFamily | backend/services/analyzer.py:225-273 | the anomaly alerts belong to the first detector |
| Insights.BudgetFamily | backend/services/analyzer.py:275-306 | the budget alerts belong to the second detector |
| Insights.HabitsFamily | backend/services/analyzer.py:331-353 | the habit alerts belong to the fourth detector |
| Insights.HealthFamily | backend/services/analyzer.py:355-394 | the health alerts belong to the fifth detector |
| Insights.SavingsFamily | backend/services/analyzer.py:308-329 | the savings alerts belong to the third detector |
| Insights.AppendFamily | backend/services/analyzer.py:209-221 | appending a later detector's alerts keeps the grouping by detector |
| Insights.FamiliesInOrder | backend/services/analyzer.py:209-221 | the five lists, joined in order, are grouped by detector |
| Insights.InsightsInFamilyOrder | backend/services/analyzer.py:203-223 | the alerts come grouped by detector: anomalies, budget, savings, habits, health |
| Analysis.Analyze | backend/services/analyzer.py:9-31 | no report exactly when there are no transactions |
| Analysis.AnalyzeTransactions | backend/services/analyzer.py:9-31 | `analyze_transactions` computes the sections first and the insights from them |
| Analysis.SectionsAgree | backend/services/analyzer.py:18-29 | in one report the months split the summary's count and totals, the sign counts do not exceed the rows, the top list has at most ten entries, and the alerts come grouped by detector |
| Analysis.SignCounts | backend/services/analyzer.py:174-179 | no row is both income and expense |
| Text.Lower | backend/services/categorizer.py:49 | `str.lower()` keeps the length and maps every character through the ASCII lower-case mapping |
| Text.LowerIdempotent | backend/services/data_parser.py:53 | lower-casing twice is lower-casing once |
| Text.Strip | backend/services/data_parser.py:85 | `str.strip()` returns a slice of its argument with only white space removed on either side, and what remains neither starts nor ends with white space |
| Text.StripRight | backend/services/data_parser.py:98 | the right strip is a prefix of its argument, only white space follows it, and it does not end with white space |
| Text.StripEmpty | backend/services/data_parser.py:98-100 | the stripped text is empty exactly when every character is white space, the test that rejects a blank description |
| Text.StripIdempotent | backend/services/data_parser.py:98 | stripping twice is stripping once |
| Text.TitleIsCapitalised | backend/services/data_parser.py:120 | `str.title()` of a value is a capitalised lower-case word exactly when the value, lower-cased, is that word |
| Text.TitleToLower | backend/services/data_parser.py:120-125 | a value whose title case is `Debit` or `Credit` lower-cases to `debit` or `credit` |
| Text.LowerToTitle | backend/services/data_parser.py:120-125 | a value that lower-cases to the word title-cases to the capitalised word |
| Text.FindFrom | backend/services/pdf_parser.py:125-127 | `str.find` returns -1 when the pattern occurs nowhere from `start`, otherwise the first position from `start` where it occurs |
| Text.Remove | backend/pdf_parser_debug.py:82 | `replace('Z', '')` is never longer than its argument and leaves no `Z` |
| Text.RemoveAbsent | backend/pdf_parser_debug.py:82 | a string without the character is left unchanged |
| Numbers.ParseFormatCents | backend/services/data_parser.py:110 | `float` reads an amount written with two decimals back to that exact amount |
| Numbers.ParseFloat | backend/services/data_parser.py:110 | `float()` on text: surrounding white space, a sign, a decimal with an optional exponent, or `nan`; `ParseFormatCents` states the round trip |
| Calendar.DaysInMonth | backend/services/data_parser.py:89 | a month has 28 to 31 days, and February has 29 exactly in a leap year |
| Calendar.YearLength | backend/services/analyzer.py:137 | consecutive years are 366 days apart after a leap year and 365 otherwise |
| Calendar.OrdinalNext | backend/services/analyzer.py:137 | the next calendar day has the next day number |
| Calendar.WeekdayNext | backend/services/analyzer.py:192 | consecutive days have consecutive weekdays, Sunday wrapping to Monday |
| Calendar.Weekday | backend/services/analyzer.py:336 | `weekday()` is between 0 and 6; `WeekdayNext` and `FirstDayIsMonday` fix which |
| Calendar.FirstDayIsMonday | backend/services/analyzer.py:192 | 1 January of year 1 is a Monday, as in the proleptic Gregorian calendar |
| Calendar.IsoWeek1MondayShape | backend/services/analyzer.py:140 | ISO week 1 starts on a Monday within three days of 1 January |
| Calendar.IsoWeek | backend/services/analyzer.py:140 | the week of `isocalendar()`, counted from the Monday of week 1 that `IsoWeek1MondayShape` describes |
| Calendar.MatchYear | backend/services/data_parser.py:89 | `%Y` consumes exactly four characters |
| Calendar.MatchMonth | backend/services/data_parser.py:89 | `%m` consumes one or two characters and yields a month from 1 to 12 |
| Calendar.MatchDay | backend/services/data_parser.py:89 | `%d` consumes one or two characters and yields a day from 1 to 31 |
| Calendar.Build | backend/services/data_parser.py:89 | building a date succeeds exactly when the month and the day exist, and then yields that date |
| Calendar.ParseIso | backend/services/data_parser.py:89 | a date parsed with `%Y-%m-%d` is a valid date |
| Calendar.ParseUs | backend/services/pdf_parser.py:174 | a date parsed with `%m/%d/%Y` is a valid date |
| Calendar.ParseIsoFormatDate | backend/services/pdf_parser.py:170-179 | parsing the ISO text of a valid date with `%Y-%m-%d` gives the date back |
| Calendar.ParseUsFormatUs | backend/services/pdf_parser.py:174 | parsing the `MM/DD/YYYY` text of a valid date with `%m/%d/%Y` gives the date back |
| Calendar.ParseIsoRejectsUs | backend/services/pdf_parser.py:168-174 | `%Y-%m-%d` rejects the `MM/DD/YYYY` text of every valid date, so the US fallback is reached |
| Calendar.FromIsoFormat | backend/pdf_parser_debug.py:82 | whatever `fromisoformat` accepts is a valid moment |
| Calendar.FromIsoFormatMoment | backend/pdf_parser_debug.py:82 | `fromisoformat` reads the `isoformat()` text of a valid moment back to that moment |
| Calendar.FormatMoment | backend/services/data_parser.py:70 | `isoformat()` writes the `%Y-%m-%d` date, a `T`, then at least the eight characters of the time; `FromIsoFormatMoment` reads it back |
| Aggregate.StrLtOrders | backend/services/analyzer.py:60 | string order, by which group keys are sorted, is a strict total order |
| Aggregate.Where | backend/services/analyzer.py:56 | a boolean filter keeps no more rows than it is given and only rows meeting the condition |
| Aggregate.Sum | backend/services/analyzer.py:36 | a column's `sum()`; `SumAppend` and `SumWhere` state how it splits |
| Aggregate.Unique | backend/services/analyzer.py:113 | `unique()`: each value once, no other, in order of first appearance |
| Aggregate.GroupKeys | backend/services/analyzer.py:60 | `groupby` keys: distinct, none for no rows; `GroupKeysMembers` and `GroupKeysSorted` give the rest |
| Aggregate.DateLtOrders | backend/services/analyzer.py:137 | date order, by which daily totals are grouped, is a strict total order |
| Aggregate.ArgMin | backend/services/analyzer.py:149 | `idxmin()` gives a position holding the smallest value, and no earlier position holds it |
| Aggregate.ArgMax | backend/services/analyzer.py:145 | `idxmax()` gives a position holding the largest value, and no earlier position holds it |
| Aggregate.Best | backend/services/analyzer.py:159 | the pick of `nlargest` is one of the candidates and ranks before every other candidate |
| Aggregate.NLargest | backend/services/analyzer.py:159 | `nlargest(n, keep='first')` over candidate positions; `NLargestLength`, `NLargestRanked` and `NLargestRest` state its picks |
| Aggregate.RankedDistinct | backend/services/analyzer.py:159 | a ranked list of positions has no repeats |
| Aggregate.NLargestLength | backend/services/analyzer.py:159 | `nlargest(n)` over distinct positions picks the smaller of `n` and the number of candidates |
| Aggregate.NLargestRanked | backend/services/analyzer.py:159 | the picks come in decreasing amount, ties in original order (`keep='first'`) |
| Aggregate.NLargestRest | backend/services/analyzer.py:159 | every candidate left out ranks after every pick |

## Left out

- Reading files: pandas `read_csv`/`read_excel` and the pypdf text extraction (backend/services/pdf_parser.py:54-67, backend/pdf_parser_debug.py:136-142). The rows and the text are inputs.
- The language-model call and its prompt template (LangChain, OpenRouter): the model is a parameter `llm` from prompt to reply. JSON decoding is a parameter `loads`, because `json.loads` is not part of this model.
- Floating point. Amounts are exact reals, so `round(..., 2)`, infinities, float overflow and Python's float formatting are not modelled. The parsers keep `nan` as the `NaN` tag; the analyzer's rows do not (next line).
- Analysis.Analyze: an analyzer row's amount is a real, so a NaN amount cannot reach `Analysis.Analyze`. In the source a transaction whose amount text is `NAN`, `Nan` or `+nan` (accepted by `DataParser.ParseAmount`, and not among pandas' default NA markers) still counts in `len(df)` (backend/services/analyzer.py:40) and in a month's `transaction_count` (line 123), while `sum()` and `mean()` skip it, so `average_transaction` (line 45) then divides by fewer rows than the model's mean over all rows. The model states the report only for NaN-free rows.
- Analysis.Analyze: `pd.to_datetime` (backend/services/analyzer.py:15) raises `OutOfBoundsDatetime` for years outside 1677 to 2262 on pandas releases with nanosecond timestamps; the model's dates span years 1 to 9999 and it returns a report for them.
- Numbers.ParseFloat: Python's `float()` also reads `_` between digits (`1_000.50`) and non-ASCII decimal digits (`１２`); the model reads neither, so `DataParser.ParseAmount` skips such a row as an invalid amount and `Json.ToFloat` rejects such a JSON string for debit, credit or balance.
- Unicode. Case mapping, letters and digits are modelled on ASCII only; white space is Python's full `str.isspace` set.
- Output wording. Message texts, f-string formatting, all `print` output, the debug JSON dumps, `cleanup_debug_files` and the command-line entry point are left out. An alert keeps only its type, severity, named category, amount and reported number.
- `_predict_budget_risks` reads `datetime.now()` twice. The model uses one reading, `now`, for both.
- PdfParser.ConvertOne: the source reads the clock once per record whose date neither format accepts (backend/services/pdf_parser.py:176, backend/pdf_parser_debug.py:202); the model takes one reading `now` per conversion run, so all such records of a run get the same moment. The same holds for `PdfParserDebug.ConvertWithIssues`.
- `fromisoformat` is modelled only for the forms that `isoformat` writes.
- validators.py, test_pdf_parser.py and app.py are not part of this model. Nor is the flexible, synonym-based header matching, because the strict reader does not use it.
- Dict and group order. `groupby` keys come out sorted, and the `YYYY-MM` month keys are sorted as (year, month) pairs, which gives the same order.
- `AnalyzeByCategory` keeps no per-run total beyond what the table states.
- The columns `month`, `day_of_week` and `is_weekend` that the analyzer adds to the frame in place are computed per row instead.
- `uuid4`, `secure_filename`, `os.path.join` and `cleanup_file`. The stored path is a parameter of `SaveFile`. The `ValueError` message is not modelled.
- Analyzer.Mean: has no contract of its own, and averages are stated as equal to it. `Analyzer.MeanScales` states that the mean times the count is the total.
- Insights.Dominant: compares the exact percentage with 40 rather than the percentage rounded to one decimal (backend/services/analyzer.py:85, 263). Rounding is not modelled.
- PdfParser.DateOf: its own contract states only validity and the `now` fallback. That the ISO form and the US form each come back as their day is stated by `PdfParser.DateOfFormatted`.
- Insights.MonthlyChange: in the source the months before the latest can never be an empty list, since `monthly` is a dict with two keys or more there (backend/services/analyzer.py:230-233). The model's table type does not carry distinct keys, so a table repeating one month is given no alert; no table the analyzer builds reaches that case.
