# invoice_extractor in Dafny

This project models the core of `invoice_extractor`. That program reads the
text of Thai electricity invoices issued by the Provincial Electricity Authority
(PEA) and turns it into one record per invoice. It then writes those records to
a CSV file. The model covers the following parts of
`src/invoice_extractor/extractor.py`:

- the Thai month table (`thai_months`);
- the 37-field invoice record (`_initialize_data`);
- the validity test (`is_valid_invoice`);
- the chain of extraction rules that `extract_data` runs;
- the derived `total_usage_units` (`_calculate_total_usage_units`);
- `save_to_csv` from its date parsing to the rows it hands to the CSV writer.

The files, one module each:

| file | module | what it holds |
|---|---|---|
| `wrappers.dfy` | `Wrappers` | `Option` (Python's `None`, a failed search) and `Result` (a raised exception) |
| `text.dfy` | `Text` | Python's whitespace, `in`, `strip()`, `split()`, `" ".join`, `int(s)` and `str(n)` |
| `regex.dfy` | `Regex` | the fragment of `re.search` the patterns use: a backtracking matcher with Python's greedy and lazy try order, proved sound, complete and leftmost against a declarative notion of a match |
| `dates.dfy` | `Dates` | `datetime.strptime(s, "%d-%m-%Y")` with its calendar check, `strftime("%d-%m-%Y")`, and date order |
| `thai_calendar.dfy` | `ThaiCalendar` | `thai_months`, the `.get(name, "01")` lookup, and the rewriting of a Buddhist Era due date |
| `record.dfy` | `Record` | an insertion-ordered dictionary (`Dict`) with `get`, item assignment and `pop`; the 37 fields of a fresh record |
| `rules.dfy` | `Rules` | every search pattern and the fields that each of its capture groups fills |
| `extractor.dfy` | `Extractor` | the class `InvoiceExtractor`, whose methods update its `data` record in place just as the Python methods do, and what `extract_data` yields |
| `stable_sort.dfy` | `StableSort` | a stable sort by date key, proved sorted, a permutation, and stable |
| `csv_export.dfy` | `CsvExport` | `save_to_csv` as loops over a list of records (`SaveToCsv`), proved equal to a functional specification (`Save`) whose properties are proved as lemmas |

The model is built in layers:

- Each `_extract_*` method is a method of `Extractor.InvoiceExtractor`. It has
  a `modifies this` clause, and its postcondition ties the new record to the
  assignments its rule makes (`Rules.Writes` and its relatives).
- `extract_data` is proved to equal the functional `Extractor.Extract`.
- The lemmas about `Extract` say which record an invoice yields. Every rule
  fills only fields of the fresh record, so the field list and its order never
  change. Each tier's units reach the total unchanged. A missing tier line
  makes the total raise `TypeError`.

## Model

| member | source | states |
|---|---|---|
| ThaiCalendar.MonthNumber | src/invoice_extractor/extractor.py:165 | a known month name gives its number from the table; an unknown name gives `"01"`; the result is always a two-digit month from 01 to 12 |
| ThaiCalendar.MonthName | src/invoice_extractor/extractor.py:14-18 | the inverse lookup of the table: a name it returns is in the table under that number |
| ThaiCalendar.MonthNameOfNumber | src/invoice_extractor/extractor.py:14-18 | looking a month name up and back gives the same name |
| ThaiCalendar.ThaiMonthsInjective | src/invoice_extractor/extractor.py:14-18 | no two month names share a number |
| ThaiCalendar.MonthNameTotal | src/invoice_extractor/extractor.py:14-18 | every number from 01 to 12 names a month of the table |
| ThaiCalendar.DueDateFields | src/invoice_extractor/extractor.py:164-167 | the due date is the day, a dash, the table's month number, a dash, and the Buddhist year less 543 in decimal |
| ThaiCalendar.DueDateExample | src/invoice_extractor/extractor.py:164-167 | day 5 of มกราคม 2567 is written `5-01-2024` |
| ThaiCalendar.UnknownMonthIsJanuary | src/invoice_extractor/extractor.py:165 | a month name missing from the table is written as month `01` |
| Record.InitialData | src/invoice_extractor/extractor.py:34-74 | the fresh record is well formed, has the 37 fields in the listed order, and holds `None` in each |
| Record.FieldsAreDistinct | src/invoice_extractor/extractor.py:36-74 | the 37 field names are pairwise distinct |
| Record.SetSpec | src/invoice_extractor/extractor.py:135-136 | after `d[k] = v`, `k` holds `v`, every other key is unchanged, an existing key keeps its place, and a new key goes last |
| Record.Dict.Pop | src/invoice_extractor/extractor.py:324 | `pop(k, None)` removes `k`, keeps every other key's value, and keeps the other keys in order |
| Record.SetAllAppend | src/invoice_extractor/extractor.py:115-124 | applying one list of assignments and then another is the same as applying their concatenation |
| Record.SetAllLast | src/invoice_extractor/extractor.py:135-136 | a key ends up with the value of the last assignment that names it |
| Record.SetAllKeys | src/invoice_extractor/extractor.py:135-136 | assigning keys the record already has never changes the key order |
| Text.IsSubstringIff | src/invoice_extractor/extractor.py:104 | `sub in text` holds exactly when `sub` occurs in `text` at some offset |
| Text.SplitStrip | src/invoice_extractor/extractor.py:184 | `line.strip().split()` yields the same tokens as `line.split()` |
| Text.SplitTokens | src/invoice_extractor/extractor.py:184 | every token that `split()` yields is non-empty and free of whitespace |
| Text.SplitJoin | src/invoice_extractor/extractor.py:192 | splitting the single-space join of non-empty, whitespace-free tokens gives those tokens back |
| Text.IntToStringRoundTrip | src/invoice_extractor/extractor.py:166 | `int(str(i)) == i` for every integer, negative ones included |
| Regex.MatchSound | src/invoice_extractor/extractor.py:133 | a match the backtracking matcher returns is a real match, with each atom matching its own piece |
| Regex.MatchComplete | src/invoice_extractor/extractor.py:133 | whenever a match exists at a position, the matcher finds one there |
| Regex.CandidatesExact | src/invoice_extractor/extractor.py:173 | the ends tried for an atom are exactly the ends at which the atom matches |
| Regex.CandidatesOrder | src/invoice_extractor/extractor.py:173 | a lazy repetition such as `(.+?)` tries its ends shortest first, each one longer than the last; a greedy repetition such as `.*` or `\s*` tries them longest first, each one shorter than the last; a literal has at most one end |
| Regex.FindSpec | src/invoice_extractor/extractor.py:141 | the search result is a match, and no match starts further left |
| Regex.SearchExists | src/invoice_extractor/extractor.py:141-142 | `re.search` succeeds exactly when the pattern matches somewhere in the text |
| Regex.SearchGroupLang | src/invoice_extractor/extractor.py:141-143 | a group of one atom captures text in that atom's language, such as a non-empty run of digits for `(\d+)` |
| Regex.SearchPrefix | src/invoice_extractor/extractor.py:180-182 | if a pattern matches somewhere, so does every pattern made of a prefix of its atoms |
| Regex.SearchLastGreedy | src/invoice_extractor/extractor.py:182 | when a pattern ends in a greedy unbounded atom, its last group captures a maximal run, so `(.+)` takes the whole rest of the line |
| Rules.WritesAllOrNothing | src/invoice_extractor/extractor.py:199-202 | a rule fills all of its fields or none of them, and fills none exactly when the search fails |
| Rules.RuleWithin | src/invoice_extractor/extractor.py:141-143 | a rule assigns no field except the ones it targets |
| Rules.DueDateWrites | src/invoice_extractor/extractor.py:160-168 | `due_date` is written exactly when the due-date pattern is found |
| Rules.DueDateWritten | src/invoice_extractor/extractor.py:162-168 | the captured day is digits, the month is one whitespace-free word, and `due_date` is their rewriting with the year less 543 |
| Rules.PeaRow | src/invoice_extractor/extractor.py:185-193 | a row of fewer than eight tokens fills nothing; otherwise the row fills the eight meter fields in order |
| Rules.PeaWrites | src/invoice_extractor/extractor.py:178-193 | the meter fields are filled all together or not at all |
| Rules.PeaMarkerImplied | src/invoice_extractor/extractor.py:180-184 | finding the line after the header implies finding the header, and stripping before splitting changes nothing, so the method's outcome depends only on the line search |
| Rules.PeaRowRoundTrip | src/invoice_extractor/extractor.py:184-193 | the six single-token fields, followed by the split voltage level, give the first eight tokens back; the multiplier is the ninth token or `-` |
| Rules.TrafficMatchesWf | src/invoice_extractor/extractor.py:207-211 | each of the three tier patterns is well formed and has three groups |
| Rules.TierAllOrNothing | src/invoice_extractor/extractor.py:214-218 | a tier fills its units, rate and amount fields together, or none of them |
| Rules.TierLeavesOtherTiers | src/invoice_extractor/extractor.py:213-218 | one tier's assignments leave every field of every other tier unchanged |
| Rules.TiersWithin | src/invoice_extractor/extractor.py:205-219 | the tier loop assigns only tier fields |
| Rules.ChargesWithin | src/invoice_extractor/extractor.py:221-271 | the charge searches assign only the charge, VAT and total fields |
| Rules.FtKeepsSecondAmount | src/invoice_extractor/extractor.py:243-246 | of the Ft line's two amounts, only the second is stored, in `ft_adjustment_baht` |
| Extractor.InvoiceExtractor.constructor | src/invoice_extractor/extractor.py:24-32 | a new extractor keeps the PDF path and holds the fresh record |
| Extractor.InvoiceExtractor.IsValidInvoice | src/invoice_extractor/extractor.py:92-107 | the answer is true exactly when all three required markers occur in the text |
| Extractor.InvoiceExtractor.ExtractData | src/invoice_extractor/extractor.py:109-128 | the result and the new record are those of `Extract` and `Extracted` on the old record: `None` for a text that is not an invoice; otherwise every rule in call order, then the total or the exception it raises |
| Extractor.InvoiceExtractor.ExtractPrintedDate | src/invoice_extractor/extractor.py:131-137 | the new record is the old one after the print-stamp rule's assignments |
| Extractor.InvoiceExtractor.ExtractCaNumber | src/invoice_extractor/extractor.py:139-144 | the new record is the old one after the customer-account rule's assignments |
| Extractor.InvoiceExtractor.ExtractInvoiceNumber | src/invoice_extractor/extractor.py:146-151 | the new record is the old one after the invoice-number rule's assignments |
| Extractor.InvoiceExtractor.ExtractTotalAmount | src/invoice_extractor/extractor.py:153-158 | the new record is the old one after the amount rule's assignments |
| Extractor.InvoiceExtractor.ExtractDueDate | src/invoice_extractor/extractor.py:160-169 | the new record is the old one after the rewritten due date is assigned, if the pattern is found |
| Extractor.InvoiceExtractor.ExtractAddress | src/invoice_extractor/extractor.py:171-176 | the new record is the old one after the address rule's assignments |
| Extractor.InvoiceExtractor.ExtractPeaCodeSection | src/invoice_extractor/extractor.py:178-194 | the new record is the old one after the meter-row assignments |
| Extractor.InvoiceExtractor.StoreMeterRow | src/invoice_extractor/extractor.py:185-193 | on a row of at least eight tokens, the new record is the old one after the eight meter assignments of `PeaRow`, in source order |
| Extractor.InvoiceExtractor.ExtractUsageData | src/invoice_extractor/extractor.py:196-203 | the new record is the old one after the readings rule's assignments |
| Extractor.InvoiceExtractor.ExtractTrafficAndAmounts | src/invoice_extractor/extractor.py:205-219 | the new record is the old one after the three tier rules in table order |
| Extractor.InvoiceExtractor.ExtractServiceChargeAndTotals | src/invoice_extractor/extractor.py:221-271 | the new record is the old one after the eight charge searches in source order |
| Extractor.InvoiceExtractor.ExtractAmount | src/invoice_extractor/extractor.py:225-228 | one single-amount search block: on a match, the rule's one field gets its group's text |
| Extractor.InvoiceExtractor.CalculateTotalUsageUnits | src/invoice_extractor/extractor.py:273-283 | on success, the record becomes `TotalUsage`'s record; an escaping exception is returned and the record is unchanged |
| Extractor.FloatOfDecimal | src/invoice_extractor/extractor.py:276-278 | a units string written in decimal digits converts back to the number it was written from |
| Extractor.TotalUsage | src/invoice_extractor/extractor.py:273-283 | a successful total keeps the record well formed; the only exception that escapes is `TypeError`; when some tier fails to convert and none raises `TypeError`, the `ValueError` handler leaves the record exactly as it was |
| Extractor.UnitsFieldsOfTable | src/invoice_extractor/extractor.py:276-278 | the three fields the total reads are the units fields of the three rows of `traffic_matches` |
| Extractor.HeaderApplied | src/invoice_extractor/extractor.py:115-122 | the eight rules before the tiers, applied one after another, make their assignments in call order |
| Extractor.HeaderKeysAre | src/invoice_extractor/extractor.py:115-122 | the rules before the tiers fill the header, meter and reading fields, in the record's own order |
| Extractor.AllWithin | src/invoice_extractor/extractor.py:115-124 | every rule of `extract_data` assigns only fields of the fresh record |
| Extractor.TotalUsageKeeps | src/invoice_extractor/extractor.py:280 | storing the total keeps the record's keys and their order |
| Extractor.ExtractKeepsFields | src/invoice_extractor/extractor.py:109-128 | whatever the text, the record left behind has exactly the 37 fields of a fresh record, in the same order |
| Extractor.TierSetsUnits | src/invoice_extractor/extractor.py:213-216 | a tier whose line is found sets its units field to the captured digits; otherwise the field is unchanged |
| Extractor.TiersSetUnits | src/invoice_extractor/extractor.py:205-219 | after the tier loop, each units field holds its own tier's captured units, or what it held before |
| Extractor.UnitsAfterRules | src/invoice_extractor/extractor.py:115-124 | on a fresh record, after every rule, each units field holds its tier's units, or still `None` when the tier line is missing |
| Extractor.TotalOfTiers | src/invoice_extractor/extractor.py:273-283 | the total is the sum of the three tiers' units when every tier line occurs, and `TypeError` when any is missing |
| Extractor.ExtractOutcome | src/invoice_extractor/extractor.py:109-128 | on an invoice text, `extract_data` yields the record after every rule with the sum of the tiers when all three tier lines occur, and raises `TypeError` otherwise |
| Extractor.ExtractRejects | src/invoice_extractor/extractor.py:111-113 | a text that is not an invoice yields `None` and leaves the record as it was |
| Extractor.MissingTierRaises | src/invoice_extractor/extractor.py:276-283 | tiers `"100"` and `"20"` with the third still `None`: the code raises `TypeError`, where the intended total is 120 |
| Extractor.MissingTierExample | src/invoice_extractor/extractor.py:276-283 | such a record exists, and the code raises `TypeError` on it |
| Extractor.IntendedTotalUsage | src/invoice_extractor/extractor.py:273-283 | the intended total keeps the record well formed |
| Extractor.IntendedFloatOfTier | src/invoice_extractor/extractor.py:276-278 | with the intended conversion, the value the rules leave in a tier's units field converts to the units its line reports, or to 0 when the line is missing |
| Extractor.IntendedTotalOfTiers | src/invoice_extractor/extractor.py:273-283 | the intended total is the sum of the tiers that are found, and it never raises |
| Extractor.IntendedExtractOutcome | src/invoice_extractor/extractor.py:109-128 | with the intended total, every invoice yields its record with the sum of the tiers that are found |
| Dates.ParseDate | src/invoice_extractor/extractor.py:301 | a parsed date is a valid calendar date |
| Dates.FormatDate | src/invoice_extractor/extractor.py:328 | a rendered date has ten characters, with dashes at positions 2 and 5 |
| Dates.ParseFormat | src/invoice_extractor/extractor.py:328 | parsing a date rendered by `strftime("%d-%m-%Y")` gives the same date |
| Dates.FormatParse | src/invoice_extractor/extractor.py:328 | a ten-character date text that parses renders back to the same text, so a zero-padded `printed_date` reaches the file unchanged |
| Dates.NotAfterTotal | src/invoice_extractor/extractor.py:303 | any two dates compare, and dates that are each not after the other are equal |
| Dates.NotAfterTransitive | src/invoice_extractor/extractor.py:303 | date order is transitive |
| Dates.SortingExampleDates | tests/test_extractor.py:24-31 | `01-08-2023` and `01-09-2023` parse to those dates, and August comes first |
| StableSort.KeySortSorted | src/invoice_extractor/extractor.py:303 | the sort's result is ascending by key |
| StableSort.KeySortStable | src/invoice_extractor/extractor.py:303 | elements with equal keys come out in the order they went in |
| StableSort.UndecoratePerm | src/invoice_extractor/extractor.py:303 | dropping the keys from a permutation gives a permutation |
| CsvExport.DateFieldSpec | src/invoice_extractor/extractor.py:301 | a missing `printed_date` raises `KeyError`, a non-string raises `TypeError`, and a string that is not a date raises `ValueError`; otherwise the date value replaces the string in the same place among the keys, and every other field keeps its value |
| CsvExport.TryMapSpec | src/invoice_extractor/extractor.py:299-301 | the loop gets through exactly when every element converts, and then each element is replaced by its own image |
| CsvExport.TryMapFirstFailure | src/invoice_extractor/extractor.py:299-301 | when the loop stops, it raises what the first failing element raised |
| CsvExport.SortByDateSpec | src/invoice_extractor/extractor.py:303 | the sorted records are ascending by date and are a permutation of the input |
| CsvExport.SortStable | src/invoice_extractor/extractor.py:303 | records with the same date keep their input order |
| CsvExport.SortExample | tests/test_extractor.py:24-31 | a record dated August 2023 comes out before one dated September 2023, whichever order they came in |
| CsvExport.Remove | src/invoice_extractor/extractor.py:308 | `list.remove` fails exactly when the value is not in the list |
| CsvExport.RemoveSpec | src/invoice_extractor/extractor.py:308-310 | on distinct keys, removing a key that is present leaves the other keys in order |
| CsvExport.ColumnsSpec | src/invoice_extractor/extractor.py:306-310 | the columns fail to exist exactly when a hidden column is missing; otherwise they are the first record's keys in their order with the hidden ones filtered out, still distinct |
| CsvExport.FillSpec | src/invoice_extractor/extractor.py:313-316 | after blank-filling, a column that was missing or `None` holds `""`, and every other key holds what it held |
| CsvExport.FillKeys | src/invoice_extractor/extractor.py:313-316 | blank-filling keeps every key the record had |
| CsvExport.RenderSpec | src/invoice_extractor/extractor.py:322-328 | a rendered row holds its date as text that parses back to the same date, holds no hidden field, and keeps every other field as it was |
| CsvExport.Save | src/invoice_extractor/extractor.py:294-296 | the export does nothing and raises nothing exactly when the list is empty |
| CsvExport.ParseAll | src/invoice_extractor/extractor.py:299-301 | the date-parsing loop gives exactly the specification's result, including which exception stops it |
| CsvExport.FillRow | src/invoice_extractor/extractor.py:314-316 | the inner blank-filling loop gives the specification's filled record |
| CsvExport.FillAll | src/invoice_extractor/extractor.py:313-316 | the nested blank-filling loops give the specification's filled records |
| CsvExport.RenderRow | src/invoice_extractor/extractor.py:323-328 | the writer loop's body gives the specification's rendered row |
| CsvExport.WriteRows | src/invoice_extractor/extractor.py:322-329 | the writer loop gives every rendered row, in order |
| CsvExport.SaveToCsv | src/invoice_extractor/extractor.py:286-329 | the whole export gives exactly the specification's outcome: nothing for an empty list, or the exception raised, or the header columns and rows |
| CsvExport.WriteRow | src/invoice_extractor/extractor.py:322-329 | each written row holds its record's date, no hidden field, only column keys, and every other field from its filled record |
| CsvExport.SaveDateError | src/invoice_extractor/extractor.py:299-301 | a record whose date fails raises, and the first such record decides the exception |
| CsvExport.SortedFirst | src/invoice_extractor/extractor.py:303-306 | the record that supplies the columns is one of the records and is dated no later than any of them |
| CsvExport.SaveColumns | src/invoice_extractor/extractor.py:306-310 | a hidden column missing from the earliest record raises `ValueError`; on success the header is that record's keys in their order with the hidden ones filtered out, without repeats |
| CsvExport.SaveRow | src/invoice_extractor/extractor.py:313-329 | row `i` is sorted record `i`: its date reads back as the record's, every column holds its value or `""`, and no other key is present |
| CsvExport.SaveAscending | src/invoice_extractor/extractor.py:303-329 | the rows reach the writer in ascending date order |

## Left out

- I/O is not modelled. This covers reading the PDF (`extract_text` with
  `pdfplumber`), logging, creating the output directory, opening the file,
  and `get_pdf_files_from_directory` and `main` with their argument parsing.
  `ExtractData` takes the PDF text as a parameter, and `SaveToCsv` stops at
  the header and rows it would hand to the writer.
- `src/plot/visualizations.py` and `setup.py` are not part of this model.
- Python's `sorted` is modelled by an insertion sort, proved sorted, a
  permutation and stable. This gives the same list as Python's stable sort.
- CsvExport.SaveToCsv works on values, not on the caller's dictionaries, which
  `save_to_csv` changes in place. The model therefore does not capture three
  things:
  - aliasing: callers see their records with parsed dates, blank-filled
    columns and popped fields;
  - a record that appears twice in the list being changed twice;
  - fields already changed on records before an exception is raised.
- CsvExport.Write decides on the whole list of rows when a row holds a key
  that is not a column. It then raises `ValueError`, as `DictWriter.writerow`
  does, but the model does not capture the rows already written to the file
  before it. CSV quoting and the file's byte layout are not modelled.
- Extractor.Float models `float(s)` only on digit strings, the only strings
  the tier patterns `(\d+)` capture:
  - its numbers are integers, so the sum is exact, where Python sums floats
    and stores a float such as `150.0`;
  - any other string raises `ValueError`.
- Dates.FormatDate zero-pads the year to four digits. CPython's `strftime("%Y")`
  on Linux, before Python 3.13, writes a year below 1000 without padding. The
  model does not capture that difference for such years.
- `\d` is modelled as the ASCII digits only. Python also matches the other
  Unicode decimal digits, which invoices are taken not to contain.
- Python's regular-expression engine is modelled only as far as the patterns
  of `extractor.py` need it: concatenations of literals and repeated character
  classes, with groups over consecutive atoms. There is no alternation, no
  nesting and no back-references.
- Extractor.InvoiceExtractor.ExtractServiceChargeAndTotals runs seven of its
  eight searches through one helper method, `ExtractAmount`, where the source
  repeats an inline block seven times. Each block still fills exactly one
  field, in the same order.
- The total of the usage tiers follows the code as written. The `get(k, 0)`
  default and the `except ValueError` handler show that a missing or
  unparseable tier was meant to count as 0. The code does not do that:
  - a tier whose line is missing is still `None`, and `float(None)` raises a
    `TypeError` that the `except ValueError` clause does not catch;
  - an unparseable tier raises `ValueError`, which is caught, so
    `total_usage_units` is left unset rather than summed.

  The corrected behaviour is stated under Findings.

## Findings

| source | as written | input that shows it | evidently intended | confidence | as-written member | corrected member |
|---|---|---|---|---|---|---|
| src/invoice_extractor/extractor.py:276-283 | `self.data.get("usage_..._units", 0)` never uses its default, because `_initialize_data` creates every tier field as `None`; a tier whose line is missing therefore reaches `float(None)`, whose `TypeError` escapes the `except ValueError` and aborts `extract_data` | an invoice whose text has the 1-150 and 151-400 tier lines (units `100` and `20`) but no "401 เป็นต้นไป" line | a missing tier counts as 0, so the total is 120 | medium, not executed | Extractor.MissingTierRaises | Extractor.IntendedExtractOutcome |

The class `Extractor.InvoiceExtractor` keeps the code as written, so its
`ExtractData` raises `TypeError` here (`Extractor.ExtractOutcome`). The
corrected definitions stand beside it: `Extractor.IntendedFloat`,
`Extractor.IntendedTotalUsage` and `Extractor.IntendedExtract`.
`Extractor.IntendedTotalOfTiers` and `Extractor.IntendedExtractOutcome` prove
that with them every invoice yields its record, with the sum of the tiers that
are found. No other part of the model reads the total.
