# BOSCH three-sheet reconciliation, modelled in Dafny

This project models the BOSCH page of a stock-reconciliation tool. The page
takes three uploaded spreadsheets:

- a balance report (open order lines of the supplier, one row per item);
- an inbound-goods report (deliveries, of any supplier);
- an order-lines report.

From them it builds one list of order records (the `son.json` rows). The run
goes step by step, the same way the model does:

1. Check that each sheet has its required columns. A missing sheet or column aborts the run.
2. Clean every Bosch number of the balance report: strip it, delete its spaces, and put `3E-` in front unless it is already there.
3. Select the inbound rows of Bosch. A strict legal-name test decides; only when it selects nothing does a case-insensitive `BOSCH` substring test take over. Append each selected row to the balance table as a `DEPO` row.
4. Build the composite key of every row (note and number, as text, without spaces). Re-tag every row that is not `DEPO` as `TEDARİKÇİ`.
5. Join every row to the first order line with an equal key. A row with no matching line gets `''`, `''`, `0`, `0`.
6. Emit a record for every row whose stripped order note starts with a whitelisted depot code (`aas`, `das`, `mas`, `bas`, `eas`, in any case). Count the rows dropped.

Modules:

- `Sequences` (sequences.dfy) holds the order-preserving filter and the map the page applies to rows, with their lemmas proved once for any test.
- `Strings` (strings.dfy) covers the Python string operations the page uses: `strip()`, `replace(' ', '')`, ASCII `lower()`, `startswith` and a case-insensitive substring test.
- `Cells` (cells.dfy) models a spreadsheet cell that is present or missing. It has two renderings. `astype(str)` turns a missing cell into `"nan"`; the `str(x) if notna(x) else ""` idiom turns it into `""`.
- `BoschCodes` (bosch_codes.dfy) holds the three pure helpers `process_bosch_codes`, `determine_depot_code` and `create_sutun1`, and the composite key.
- `Records` (records.dfy) holds the sheets, their rows, the output record and the column checks.
- `Reconciliation` (reconciliation.dfy) has every stage of `process_bosch_three_excel` as a function. The run itself is the method `Reconcile`: it appends rows in a loop, updates the working table in place in an array (keys, re-tag, join), and builds the output in a loop. `Reconcile` is proved equal to the function `Run`.
- `ReconciliationLemmas` (reconciliation_lemmas.dfy) holds the properties that span several stages.

Notes on the page's behaviour:

- The depot code is read from the order note with its surrounding whitespace stripped: the first three characters of the stripped note are lowercased and looked up in the lower-case whitelist, so notes in any case are accepted.
- The join takes the first matching order line.
- A failed run returns `None`.
- `process_bosch_codes` keeps case and hyphens. It only strips the code, deletes its spaces and adds the prefix.

## Model

| member | source | states |
|---|---|---|
| BoschCodes.ProcessBoschCodeSpec | pages/bosch_islemleri.py:25-39 | A missing reference gives `""`. A present one gives a space-free code starting with `3E-`: the stripped, space-deleted reference itself when it already carries the prefix, the prefix followed by it otherwise. |
| BoschCodes.CleanCode | pages/bosch_islemleri.py:30-33 | The stripped, space-deleted reference contains no space and is no longer than the input. |
| BoschCodes.PrefixedCode | pages/bosch_islemleri.py:36-37 | Putting `3E-` in front of a space-free code gives a space-free code starting with `3E-`. |
| BoschCodes.CleanCodeTrimmed | pages/bosch_islemleri.py:30-33 | The stripped, space-deleted reference has no whitespace at either end. |
| BoschCodes.ProcessBoschCodeIdempotent | pages/bosch_islemleri.py:25-39 | Cleaning a present reference twice gives the same code as cleaning it once. |
| BoschCodes.ProcessBoschCodeMissingTwice | pages/bosch_islemleri.py:27-37 | Applied to its own output, a missing reference becomes `3E-`. Cleaning twice therefore differs from cleaning once exactly for a missing cell. |
| BoschCodes.PrefixedIsTrimmed | pages/bosch_islemleri.py:30-37 | The cleaned code has no whitespace at either end. |
| BoschCodes.DepotCode | pages/bosch_islemleri.py:41-61 | The depot code is `""` or one of the five whitelisted codes. |
| BoschCodes.WhitelistedHead | pages/bosch_islemleri.py:49-59 | The code read off a stripped note is `""` or one of the five whitelisted codes. |
| BoschCodes.WhitelistedPrefix | pages/bosch_islemleri.py:49-56 | For a whitelisted `d`, the code read off a stripped note is `d` exactly when the lower-cased note starts with `d`. |
| BoschCodes.DepotCodeIsWhitelistedPrefix | pages/bosch_islemleri.py:46-56 | For each whitelisted code `d`, the depot code is `d` exactly when the note is present and its stripped, lower-cased text starts with `d` (both directions). |
| BoschCodes.DepotCodeEmpty | pages/bosch_islemleri.py:41-61 | The depot code is `""` exactly when no whitelisted code starts the stripped, lower-cased note. |
| BoschCodes.DepotCodeMissingOrShort | pages/bosch_islemleri.py:43-61 | A missing note, and a note shorter than three characters once stripped, give `""`. |
| BoschCodes.DepotCodeUpperCaseExample | pages/bosch_islemleri.py:49-56 | `"AAS123"` gives `aas`. |
| BoschCodes.DepotCodeUnknownExample | pages/bosch_islemleri.py:55-59 | `"ZZZ999"` gives `""`. |
| BoschCodes.DepotCodeLowerCaseExample | pages/bosch_islemleri.py:49-56 | `"das-x"` gives `das`. |
| BoschCodes.DepotCodeShortNoteExample | pages/bosch_islemleri.py:49-61 | `"ma"` gives `""`. |
| BoschCodes.Sutun1 | pages/bosch_islemleri.py:63-72 | The display key contains no space. |
| BoschCodes.Sutun1IsConcatenationWithoutSpaces | pages/bosch_islemleri.py:63-72 | The display key is note and number, a missing one as `""`, concatenated with every space deleted. |
| BoschCodes.CompositeKey | pages/bosch_islemleri.py:145-148 | The join key contains no space. |
| BoschCodes.KeysAgreeOnPresentNote | pages/bosch_islemleri.py:145-148 | For a present note, the join key and the display key are equal. |
| BoschCodes.KeysDifferOnMissingNote | pages/bosch_islemleri.py:145-148 | For a missing note, the join key is `"nan"` followed by the display key, so the two differ. |
| Strings.Strip | pages/bosch_islemleri.py:30 | The result has no whitespace at either end. |
| Strings.StripIsSlice | pages/bosch_islemleri.py:30 | The result is a slice of the input with only whitespace before and after it. |
| Strings.TrimStartRemovesSpace | pages/bosch_islemleri.py:30 | What the left strip removes is whitespace. |
| Strings.TrimEndRemovesSpace | pages/bosch_islemleri.py:30 | What the right strip removes is whitespace. |
| Strings.RemoveSpacesIdempotent | pages/bosch_islemleri.py:33 | Deleting spaces twice is deleting them once. |
| Strings.StripIdempotent | pages/bosch_islemleri.py:46 | Stripping twice is stripping once. |
| Strings.RemoveSpaces | pages/bosch_islemleri.py:33 | No space remains, and the result is no longer than the input. |
| Strings.RemoveSpacesNoSpace | pages/bosch_islemleri.py:33 | A string without spaces is left as it is. |
| Strings.RemoveSpacesConcat | pages/bosch_islemleri.py:69-72 | Deleting spaces from a concatenation deletes them from each part. |
| Strings.ContainsIgnoringCase | pages/bosch_islemleri.py:120 | The test holds exactly when the needle occurs at some index, ignoring ASCII case. |
| Records.MissingColumns | pages/bosch_islemleri.py:87-91 | The missing list holds exactly the required columns absent from the header. It is empty exactly when every required column is present. |
| Sequences.FilterSnoc | pages/bosch_islemleri.py:210-229 | One more element at the end is kept at the end, or dropped. |
| Sequences.FilterMembers | pages/bosch_islemleri.py:116 | An element is kept exactly when it is in the input and passes the test. |
| Sequences.FilterConcat | pages/bosch_islemleri.py:116 | Filtering a concatenation filters each part, the first part's elements first. |
| Sequences.FilterAll | pages/bosch_islemleri.py:33 | When every element passes, all are kept. |
| Sequences.FilterKeepsFirst | pages/bosch_islemleri.py:33 | A first element that passes stays first. |
| Sequences.FilterKeepsLast | pages/bosch_islemleri.py:33 | A last element that passes stays last. |
| Sequences.FilterEmpty | pages/bosch_islemleri.py:119 | Nothing is kept exactly when no element passes the test. |
| Sequences.FilterDropsMiddle | pages/bosch_islemleri.py:210-229 | Of three elements where only the middle one fails, the first and last are kept, in order. |
| Sequences.MapFilterPointwise | pages/bosch_islemleri.py:210-227 | Two inputs that agree pointwise on the test and the image give the same output. |
| Reconciliation.RowsWhereMembers | pages/bosch_islemleri.py:116 | A row is selected exactly when it is an inbound row whose party, as text, passes the test. |
| Reconciliation.SelectBoschRowsMembers | pages/bosch_islemleri.py:115-120 | Only inbound rows are selected. When some row passes the strict test, exactly those rows are selected. Otherwise exactly the rows whose party mentions `BOSCH` in any case are selected. |
| ReconciliationLemmas.RowsWhereConcat | pages/bosch_islemleri.py:116 | Selection keeps input order: it distributes over concatenation. |
| Reconciliation.AppendInbound | pages/bosch_islemleri.py:127-136 | The loop yields the table followed by one new row per selected row, in order. |
| Reconciliation.AttachKeys | pages/bosch_islemleri.py:145-148 | The in-place update leaves the array equal to the keyed table. |
| Reconciliation.Retag | pages/bosch_islemleri.py:151 | The result is `DEPO` or `TEDARİKÇİ`. A `DEPO` row is unchanged; any other row, a missing tag included, becomes `TEDARİKÇİ` with nothing else changed. |
| Reconciliation.TagGroups | pages/bosch_islemleri.py:151 | The in-place update leaves the array equal to the re-tagged table. |
| Reconciliation.LineKeyIsJoinedText | pages/bosch_islemleri.py:172-175 | An order line's key is its order number and stock code, each as text (a missing cell as `nan`), joined, with every space deleted. |
| Reconciliation.FirstIndexOf | pages/bosch_islemleri.py:186-190 | The result is the first position holding the key. `None` means exactly that the key is absent. |
| Reconciliation.FirstIndexOfAt | pages/bosch_islemleri.py:186-190 | The search returns `i` when position `i` is the earliest holding the key. |
| Reconciliation.LookupOrderFirstMatch | pages/bosch_islemleri.py:186-194 | A row receives the fields of the first order line with its key. |
| Reconciliation.LookupOrderNoMatch | pages/bosch_islemleri.py:195-200 | A row whose key no order line has receives `''`, `''`, 0, 0. |
| Reconciliation.JoinOrders | pages/bosch_islemleri.py:182-200 | The matching loop leaves the array equal to the table with every row joined. |
| ReconciliationLemmas.JoinFirstMatch | pages/bosch_islemleri.py:182-200 | A joined row has the fields of the first order line with its key, or the no-match defaults. Its other columns are unchanged. |
| Reconciliation.KeptMembers | pages/bosch_islemleri.py:210-229 | A row is kept exactly when it is in the table and has a non-empty depot code. |
| Reconciliation.ReportSnoc | pages/bosch_islemleri.py:210-229 | One more row at the end adds its record at the end when it has a depot code, and nothing otherwise. |
| Reconciliation.ToRecordFields | pages/bosch_islemleri.py:217-225 | A kept row's record has a whitelisted depot code and the row's note, group and number (missing as `""`). It also has the display key, an empty delivery date, and the total, 0.0 when blank. |
| Reconciliation.Report | pages/bosch_islemleri.py:207-229 | The output has exactly as many records as there are kept rows. |
| Reconciliation.ReportStep | pages/bosch_islemleri.py:210-229 | One iteration of the output loop extends the output of the rows seen so far by the current row's record, or by nothing. |
| Reconciliation.EmitRecords | pages/bosch_islemleri.py:207-229 | The loop produces exactly those records. Records plus dropped rows equal the row count. |
| ReconciliationLemmas.KeptEmpty | pages/bosch_islemleri.py:210-229 | No row is kept exactly when no row has a depot code. |
| ReconciliationLemmas.KeptFirstAndLast | pages/bosch_islemleri.py:210-229 | Of three rows where only the middle one lacks a depot code, the first and last are kept, in order. |
| ReconciliationLemmas.DepotFilterExample | pages/bosch_islemleri.py:210-229 | Notes `"AAS123"`, `"ZZZ999"`, `"das-x"`: two records, `aas` then `das`; one row dropped. |
| ReconciliationLemmas.ReportRecordsShape | pages/bosch_islemleri.py:217-225 | Over a re-tagged table, every record has a whitelisted depot code, an empty delivery date, and the group `DEPO` or `TEDARİKÇİ`. |
| ReconciliationLemmas.RecordTotals | pages/bosch_islemleri.py:224 | A record's total is its row's total, 0.0 when that cell is blank. |
| Reconciliation.WorkingTable | pages/bosch_islemleri.py:94-151 | The working table has one row per balance row and per selected inbound row, each with a key. |
| ReconciliationLemmas.BalanceRowsInWorkingTable | pages/bosch_islemleri.py:94-151 | The working table starts with the balance rows, in order. Each keeps its note and total, its number is cleaned, and a `DEPO` tag survives. |
| ReconciliationLemmas.InboundRowsInWorkingTable | pages/bosch_islemleri.py:127-136 | After them come the selected inbound rows, in order, each as its `DEPO` row. |
| ReconciliationLemmas.WorkingTableKeyedAndTagged | pages/bosch_islemleri.py:145-151 | Every row carries its own composite key and the tag `DEPO` or `TEDARİKÇİ`. |
| Reconciliation.Reconcile | pages/bosch_islemleri.py:74-245 | The step-by-step run, on an array updated in place, computes exactly `Run`. |
| ReconciliationLemmas.AbortsExactlyOnSchemaError | pages/bosch_islemleri.py:78-169 | A run aborts exactly when a sheet or a required column is missing. The intended result is `None` exactly then. |
| ReconciliationLemmas.FailureNamesMissingColumns | pages/bosch_islemleri.py:87-91 | A balance report lacking a required column aborts the run. The failure names that sheet and lists the column. |
| ReconciliationLemmas.JoinKeepsOutputColumns | pages/bosch_islemleri.py:191-200 | The join changes none of the columns the output reads. |
| ReconciliationLemmas.SameOutputColumnsSameRecord | pages/bosch_islemleri.py:212-225 | Two rows that agree on note, group, number and total have the same depot test and the same record. |
| ReconciliationLemmas.ReportIgnoresJoinColumns | pages/bosch_islemleri.py:217-225 | Two tables that agree on note, group, number and total give the same output. |
| ReconciliationLemmas.JoinIgnoredByReport | pages/bosch_islemleri.py:191-225 | The output and the drop count are the same before and after the join. |
| ReconciliationLemmas.RunOnWellFormedSheets | pages/bosch_islemleri.py:78-229 | On well-formed sheets the run completes with the records and drop count of the joined working table. |
| ReconciliationLemmas.CompletedRun | pages/bosch_islemleri.py:179-229 | A run on well-formed sheets completes with the records and drop count of the working table. |
| ReconciliationLemmas.OrderLinesDoNotReachOutput | pages/bosch_islemleri.py:160-229 | Any two order-line sheets that pass the column check give the same outcome. |
| ReconciliationLemmas.CompletedRunRecords | pages/bosch_islemleri.py:207-229 | In a completed run, records plus dropped rows equal balance rows plus selected inbound rows, and every record is well formed. |
| ReconciliationLemmas.EmptyReportIsDiscardedAsWritten | pages/bosch_islemleri.py:232-249 | Well-formed sheets whose only row has no depot code: the run completes with no records and one drop. As written it returns `None`; the intended result is the empty list. |
| ReconciliationLemmas.AsWrittenResult | pages/bosch_islemleri.py:232-249 | As written, a well-formed run returns `None` exactly when no working-table row has a depot code. The intended result returns a table for every well-formed run. |

## Left out

- Streamlit calls are left out: spinners, messages, the debug `value_counts` displays and the session-state flag. They are presentation only.
- `pd.read_excel` and spreadsheet parsing are left out; the three sheets are given as a header plus rows. A cell `Text(s)` stands for a value whose `str()` is `s`. Effects of numeric column types on that text (an integer read as `123.0`) are not modelled.
- The regular expression engine is not modelled. The strict legal-name test is the parameter `strict`; only the fallback order is modelled.
- Case folding is ASCII-only. It covers both the `BOSCH` substring test and the depot code's `lower()`. No non-ASCII character lowercases to one of the letters of the whitelisted codes, so the depot whitelist is unaffected.
- The `float(...)` conversion of the total is not modelled. Quantities are `Option<real>`, and text that fails to parse is not modelled.
- Exceptions raised by parsing or by pandas internals are not modelled. The one exception that decides an outcome (the empty result) is modelled under Findings.
- The join modifies the working table through `.at` column creation; pandas fills the new column with `NaN` for rows not yet visited. The model records each row's joined fields as `Some` once written; the intermediate `NaN` state is not observable in the output.
- `create_excel_file` and `create_son_json` are left out: openpyxl styling, `json.dumps`, byte encoding and file names are file I/O and library serialisation.
- `create_analysis_report` is left out; it only displays counts and sums.
- main.py (navigation, styling) is not part of this model. Neither is the Excel-conversion page pages/SiparişOluşturma.py.
- BoschCodes.ProcessBoschCodeIdempotent: stated for present cells only, because on a missing cell the function is not idempotent (see ProcessBoschCodeMissingTwice).

## Findings

| source | as written | input that shows it | evidently intended | confidence | as-written member | corrected member |
|---|---|---|---|---|---|---|
| pages/bosch_islemleri.py:232-249 | When no row survives the depot filter, `final_output` is empty. Then `pd.DataFrame([])` has no `Ürün Grubu` column, and indexing it at line 242 raises `KeyError`. The handler at 247-249 turns that into `None`, as if the run had failed. | A balance report with all its columns and one row noted `ZZZ999`; an empty inbound sheet and an empty order-lines sheet, each with their columns. | Return the empty table and report the dropped row. | medium; not executed | ReconciliationLemmas.EmptyReportIsDiscardedAsWritten (on Reconciliation.ReturnedAsWritten) | Reconciliation.Returned |
