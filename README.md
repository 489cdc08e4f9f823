# Demand plan automation, modelled in Dafny

This project models the core of a weekly demand-planning application for an
online retailer. The application keeps one table, `Plan_Demanda`: one row per
week number (`YYYYWW`), sales channel (`Nodo`), account (`Cuenta`) and seller
SKU (`Sku_Seller`). Each row holds the planned demand, the real sales, the
starting stock and the metrics derived from them. The model covers:

- **Sales upload** (`SalesUpload`): the `calculateMetrics` formula (error,
  absolute error and valued loss from floored sales, ceiled plan and the
  average-or-list price). It also covers the reconciliation of one
  (week, channel) cohort with a sales CSV: updates, inserts in batches of 50,
  "no sale" marking and the final recompute.
- **Stock update** (`StockUpdate`, `Calendar`): the Monday of an ISO week,
  computed the way the route does it with a mutable date (`Calendar.JsDate`)
  over proleptic-Gregorian day numbers. It also covers both date formats, the
  SKU→stock map, the starting-stock writes, the stock-only inserts, the NULL
  sweeps and the lost-sale-by-stock rule.
- **Plan upload** (`PlanUpload`) and **scenario upload** (`ScenarioUpload`):
  header checks, the three line scanners, number clean-up, row validation and
  the upsert loops.
- **Plan report and save** (`PlanReport`, `PlanSave`): the `GET` week check,
  the scenario catalogue and "last applied" indexes, and the channel and
  account lists. It also covers the `POST` that writes the edited weeks and
  their audit history rows.
- **Edit session** (`EditSession`): the planning page's state. That is three
  maps keyed by SKU key and week column, the pending keys, the selected weeks
  and SKUs, the projected value of a cell, the bulk scenario action, the
  change list sent on save and the CSV export.
- **Relative errors** (`ErrorRates`): the `calculate-errors` route.

`Base` and `Csv` hold the shared helpers: JS rounding, trimming, lower-casing,
number parsing, line splitting and header matching. `DemandTable` holds the
table. `Plan_Demanda` is a `DemandTable.Store` object whose `rows` field the
route methods update. A write fails when the store's given failure sets say so:
rejected ids for updates by id, and failing write numbers for bulk writes. The
batch loops are sequential.

Numbers are `real` (the columns are `NUMERIC(12,2)`); nullable columns are
`Option<real>`. JavaScript's `Number(x) || 0` is modelled as "null or NaN gives
0", `Math.round` as half-up (`(x + 0.5).Floor`), and `%` on negative operands
as truncating.

## Model

| member | source | states |
|---|---|---|
| Base.Floor | src/app/api/upload-sales-csv/route.ts:44 | `Math.floor`: the result is the greatest integer not above the argument |
| Base.Ceil | src/app/api/upload-sales-csv/route.ts:45 | `Math.ceil`: the result is the least integer not below the argument |
| Base.Round | src/app/api/upload-sales-csv/route.ts:58 | `Math.round`: the result lies within half a unit of the argument, halves going up |
| Base.Abs | src/app/api/upload-sales-csv/route.ts:53 | `Math.abs` on an integer: a natural number equal to the argument or its negation |
| Base.AbsReal | src/app/api/calculate-errors/route.ts:62 | `Math.abs` on a number: not negative, equal to the argument or its negation |
| Base.FirstN | src/app/api/update-stock/route.ts:134 | `slice(0, n)`: a prefix of the list, of length `n` when the list is that long and the whole list otherwise |
| Base.RoundOfInteger | src/app/api/update-stock/route.ts:425 | rounding a whole number gives it back, so `parseInt(String(Math.round(x)))` only rounds |
| Base.Trim | src/app/api/upload-sales-csv/route.ts:144 | `trim`: the result has no white space (the ECMAScript white-space and line-terminator characters, Unicode spaces included) at either end and is the argument with only white space cut from its two ends |
| Base.TrimIdempotent | src/app/api/upload-sales-csv/route.ts:144 | trimming a trimmed text changes nothing |
| Base.ToLower | src/app/api/upload-sales-csv/route.ts:144 | `toLowerCase`: same length, each character lower-cased in place |
| Base.NatToString | src/app/modulos/plan-demanda/page.tsx:77 | `String(n)` for a natural number: a non-empty run of digits without a leading zero |
| Base.NatToStringValue | src/app/modulos/plan-demanda/page.tsx:77 | the numeral `String(n)` denotes `n` |
| Base.ParseIntOfString | src/app/api/plan-demanda/route.ts:80 | `parseInt(String(n))` gives back `n`, negative numbers included |
| Base.ParseFloatOfNat | src/app/api/upload-sales-csv/route.ts:485-488 | `parseFloat(String(n))` gives back `n` for a whole number |
| Base.Pad2Shape | src/app/api/update-stock/route.ts:27-28 | `padStart(2, '0')` of a number below 100 is two digits that denote it |
| Base.IndexOf | src/app/api/upload-sales-csv/route.ts:243 | the first position of a character, -1 exactly when it does not occur |
| Base.ReplaceFirst | src/app/api/upload-sales-csv/route.ts:243 | `replace(',', '.')`: only the first occurrence changes, every other character stays |
| Base.Dedup | src/app/api/update-stock/route.ts:134 | `[...new Set(xs)]`: the same members, each once |
| Base.DedupFirstOccurrence | src/app/api/update-stock/route.ts:134 | `[...new Set(xs)]` keeps the order in which members first occur |
| Csv.NonBlankLines | src/app/api/upload-sales-csv/route.ts:129 | the kept lines are exactly the lines of the file whose trimmed text is not empty |
| Csv.DetectSeparator | src/app/api/upload-sales-csv/route.ts:141 | `;` exactly when the first line holds a `;`, `,` otherwise |
| Csv.HeaderNames | src/app/api/upload-sales-csv/route.ts:144 | one name per piece of the split first line, each trimmed and lower-cased |
| Csv.ParseCsvLine | src/app/api/upload-sales-csv/route.ts:564-584 | the loop computes the scanner's fields: one more field than separators outside quotes, each trimmed and free of quote characters |
| Csv.ScanCount | src/app/api/upload-sales-csv/route.ts:564-584 | the number of fields is one more than the separators met outside quotes |
| Csv.ScanFieldsClean | src/app/api/upload-sales-csv/route.ts:564-584 | every field is trimmed and holds no `"` |
| Csv.ScanWithoutQuotes | src/app/api/upload-sales-csv/route.ts:564-584 | on a line without quotes the scanner is `split` followed by `trim` of every piece |
| Csv.ParsedHeaderAlignment | src/app/api/upload-sales-csv/route.ts:144 | on a quote-free line the header split and the row scanner cut at the same places, so column indices line up |
| Csv.ParseEscapedCsvLine | src/app/api/upload-escenarios-csv/route.ts:33-58 | the loop computes the escape-aware scanner's fields, one more than the separators outside quotes |
| Csv.ScanEscCount | src/app/api/upload-escenarios-csv/route.ts:33-58 | the escape-aware scanner yields one more field than separators outside quotes |
| Csv.ScannersAgreeWithoutQuotes | src/app/api/upload-escenarios-csv/route.ts:33-58 | without quote characters the escape-aware scanner and the plain one read the same fields |
| Csv.ScanEscapedText | src/app/modulos/plan-demanda/page.tsx:865 | inside quotes, a text with its quotes doubled followed by the closing quote reads back as the text |
| Csv.QuotedLineRoundTrip | src/app/modulos/plan-demanda/page.tsx:865 | a line of quoted, quote-doubled values joined by `,` reads back with the scenario scanner as the values, trimmed |
| Csv.RemoveSepChars | src/app/api/upload-sales-csv/route.ts:64 | `replace(/[_\s]+/g, '')`: no underscore or white space remains and every other character is kept |
| Csv.NormalizeAll | src/app/api/upload-sales-csv/route.ts:64 | each header trimmed, lower-cased and stripped of underscores and white space |
| Csv.ValidateHeaders | src/app/api/upload-sales-csv/route.ts:63-93 | every required column lands in `found` or `missing`, in order; valid exactly when nothing is missing, and a suggestion is given exactly when invalid |
| Csv.PartitionSizes | src/app/api/upload-sales-csv/route.ts:63-93 | found and missing together account for every required column |
| Csv.MissingExactly | src/app/api/upload-sales-csv/route.ts:66-72 | a column is missing exactly when no header contains any of its patterns, and found exactly otherwise |
| Csv.MoreHeadersStillFound | src/app/api/upload-sales-csv/route.ts:66-72 | extra header columns never make more columns missing, and a valid header stays valid |
| Csv.FindColumn | src/app/api/upload-sales-csv/route.ts:164-171 | `findIndex`: the first header holding one of the fragments, -1 when none does |
| Csv.Cell | src/app/api/upload-sales-csv/route.ts:240-245 | `values[k]`: a value exactly when the index is inside the row |
| Csv.CellText | src/app/api/upload-plan-csv/route.ts:159-160 | `values[k]?.trim()` as the emptiness test reads it: the trimmed cell inside the row, the empty text outside |
| Csv.OptionalText | src/app/api/upload-plan-csv/route.ts:164-166 | `values[k]?.trim()`: undefined outside the row, the trimmed cell inside |
| Csv.CellNumber | src/app/api/upload-sales-csv/route.ts:243 | `parseFloat(values[k]?.replace(',', '.')) \|\| 0`: 0 outside the row, the decimal-comma reading of the cell inside |
| DemandTable.Apply | scripts/create-table-supabase.js:33-69 | an update sets the columns of its patch and never touches a row's id, week, channel, account or SKU |
| DemandTable.ApplyIdempotent | src/app/api/upload-sales-csv/route.ts:338-340 | applying the same patch twice leaves the row as applying it once, so a repeated write is harmless |
| DemandTable.Select | src/app/api/update-stock/route.ts:176-179 | a filtered query returns exactly the rows the filter accepts, in table order |
| DemandTable.SelectDistinct | src/app/api/update-stock/route.ts:176-179 | a query over a table with distinct ids returns rows with distinct ids |
| DemandTable.Cohort | src/app/api/upload-sales-csv/route.ts:188-200 | `.eq('Semana', w).eq('Nodo', n)`: exactly the rows of that week and channel |
| DemandTable.PatchById | src/app/api/upload-sales-csv/route.ts:337-340 | `update(patch).eq('id', id)`: the rows with that id receive the patch, all other rows stay, the length stays |
| DemandTable.ApplyWritesIdentity | src/app/api/upload-sales-csv/route.ts:330-362 | a run of updates keeps every row in place with its identity, and distinct ids stay distinct |
| DemandTable.WriteFor | src/app/api/upload-sales-csv/route.ts:330-362 | the patch addressed to an id is absent exactly when no write names it |
| DemandTable.PerRow | src/app/api/update-stock/route.ts:215-237 | one write per selected row, row `k` receiving the patch computed from it |
| DemandTable.WriteForPerRow | src/app/api/update-stock/route.ts:215-237 | with distinct ids, the patch addressed to a row's id is the one computed from that row |
| DemandTable.ApplyWritesPointwise | src/app/api/upload-sales-csv/route.ts:330-362 | with one write per id, each row ends with the patch addressed to it unless its write was rejected; rows nobody addresses are unchanged |
| DemandTable.PerRowWrites | src/app/api/update-stock/route.ts:397-458 | writing a computed patch to every row of a selection patches exactly the accepted selected rows and leaves every other row as it was |
| DemandTable.Batches | src/app/api/upload-sales-csv/route.ts:332-333 | `slice(i, i + 50)` for `i` stepping by 50: every batch is non-empty and at most the batch size |
| DemandTable.BatchesCover | src/app/api/upload-sales-csv/route.ts:332-333 | the batches, laid end to end, are the work list: each item once, in order |
| DemandTable.CapAppend | src/app/api/upload-sales-csv/route.ts:354-358 | details are appended only up to the cap: the result is a prefix of list plus items, of length `min(cap, total)` |
| DemandTable.CapAppendTwice | src/app/api/upload-sales-csv/route.ts:354-358 | two capped appends equal one capped append of both batches, so the details keep the first 50 overall |
| DemandTable.ErrorList | src/app/api/upload-sales-csv/route.ts:549 | `errors.slice(0, 10)` or undefined: absent exactly when there are no errors, otherwise the first (at most ten) errors |
| DemandTable.DetailList | src/app/api/upload-sales-csv/route.ts:550 | `details.slice(0, 50)`: a prefix of at most 50 details, all of them when there are fewer |
| DemandTable.ConflictFilter | src/app/api/upload-plan-csv/route.ts:185-189 | the upsert key (Semana, Nodo, Cuenta, Sku_Seller) exists exactly when week and channel are not null, and the row matches its own key |
| DemandTable.PatchWhere | src/app/api/update-stock/route.ts:322-330 | a filtered update patches exactly the matching rows, in place |
| DemandTable.Stamp | scripts/create-table-supabase.js:33 | inserted rows receive consecutive fresh ids and keep every other column |
| DemandTable.StampAppend | scripts/create-table-supabase.js:33 | stamping two runs one after the other is stamping their concatenation |
| DemandTable.KeptAll | src/app/api/upload-sales-csv/route.ts:367-392 | when every batch is stored, the stored rows are all the rows sent, in order |
| DemandTable.KeptBound | src/app/api/upload-sales-csv/route.ts:367-392 | never more rows are stored than were sent |
| DemandTable.Store.constructor | scripts/create-table-supabase.js:33-69 | the table starts with the given rows, no writes made, and the given rejected ids and failing writes |
| DemandTable.Store.UpdateById | src/app/api/upload-sales-csv/route.ts:337-340 | an update by id succeeds exactly when the id is not rejected, and then patches that id's rows; a failed update changes nothing |
| DemandTable.Store.Insert | src/app/api/upload-sales-csv/route.ts:369-371 | an insert stores the whole batch with fresh ids or nothing; it fails on a failing write or a row without a week (Semana is NOT NULL) |
| DemandTable.Store.Upsert | src/app/api/upload-plan-csv/route.ts:185-189 | an accepted upsert patches the rows with the row's key, or adds the row under a fresh id when none has it; a refused one changes nothing |
| DemandTable.Store.UpdateWhere | src/app/api/update-stock/route.ts:322-330 | a filtered update patches the matching rows; matching nothing is not an error |
| DemandTable.UpsertSingleRow | src/app/api/upload-plan-csv/route.ts:185-189 | with at most one row per key before, an accepted upsert leaves exactly one row with the key (the old one patched or the new one) and no other row changes |
| DemandTable.MaxId | scripts/create-table-supabase.js:33 | an id bound for every row of the table |
| DemandTable.Succeeded | src/app/api/upload-sales-csv/route.ts:349-351 | the accepted writes never outnumber the writes sent |
| DemandTable.DetailListAppend | src/app/api/upload-sales-csv/route.ts:354-358 | a capped append to a list already cut to fifty keeps the first fifty of the whole |
| DemandTable.SucceededPerRow | src/app/api/update-stock/route.ts:448-451 | one write per row succeeds exactly for the rows whose ids the store accepts, whatever the patches |
| DemandTable.SucceededAppend | src/app/api/upload-sales-csv/route.ts:349-351 | accepted writes of two runs add up |
| DemandTable.CountAccepted | src/app/api/upload-sales-csv/route.ts:349-351 | `results.filter(r => r).length` counts exactly the writes the store accepted |
| DemandTable.ApplyWritesAppend | src/app/api/upload-sales-csv/route.ts:330-362 | the writes of two runs act as the first run followed by the second |
| DemandTable.UpdateBatch | src/app/api/upload-sales-csv/route.ts:336-349 | one batch of updates by id, each reporting whether it was accepted; the table ends as those writes applied in order |
| DemandTable.UpdateInBatches | src/app/api/upload-sales-csv/route.ts:330-362 | all update batches in turn: the reported successes match the accepted writes and the table ends as all writes applied in order |
| DemandTable.InsertStep | src/app/api/upload-sales-csv/route.ts:367-392 | one insert batch: stored whole after the existing rows with fresh ids, or refused and nothing stored |
| DemandTable.InsertInBatches | src/app/api/upload-sales-csv/route.ts:367-392 | all insert batches in turn: one write per batch; the table ends with the rows of the stored batches appended in order under consecutive fresh ids |
| SalesUpload.CalculateMetrics | src/app/api/upload-sales-csv/route.ts:40-61 | calculateMetrics: the error is the floored sale minus the ceiled plan (missing values as 0), within two units below the exact difference; the absolute error is its size; the loss is within half a unit of the error times the price used |
| SalesUpload.WholeQuantities | src/app/api/upload-sales-csv/route.ts:44-50 | with whole quantities the error is exactly sale minus plan |
| SalesUpload.ListPriceFallbackExample | src/app/api/upload-sales-csv/route.ts:57-58 | three units over a zero plan with no average price and list price 9990 give error 3, absolute error 3 and a loss of 29970 |
| SalesUpload.AveragePriceFirst | src/app/api/upload-sales-csv/route.ts:57 | a positive average price is the price the loss is valued at, whatever the list price |
| SalesUpload.ParseSalesRecord | src/app/api/upload-sales-csv/route.ts:238-248 | a line gives a record exactly when it is wide enough for the required columns and its account and SKU are not empty; the record carries those trimmed cells and the file's week or the form's |
| SalesUpload.SalesRows | src/app/api/upload-sales-csv/route.ts:234-252 | never more records than data lines, each with a non-empty account and SKU |
| SalesUpload.SaleKeys | src/app/api/upload-sales-csv/route.ts:250 | `skusConVenta`: exactly the `cuenta\|sku` keys of the records read |
| SalesUpload.ParseSalesRows | src/app/api/upload-sales-csv/route.ts:234-252 | the parsing loop returns the records of the data lines in order and exactly their keys |
| SalesUpload.ExistingMapKeys | src/app/api/upload-sales-csv/route.ts:206-215 | the map of existing rows has exactly the keys of the cohort's rows |
| SalesUpload.ExistingLastWins | src/app/api/upload-sales-csv/route.ts:206-215 | `Map.set` in a loop: for a key, the last row that has it is the one kept |
| SalesUpload.BuildExistingMap | src/app/api/upload-sales-csv/route.ts:204-215 | the map-building loop computes the keyed map of the cohort |
| SalesUpload.UpdateFor | src/app/api/upload-sales-csv/route.ts:265-292 | the update of a matched key is addressed to the existing row's id and carries the error of the file's sale against that row's plan |
| SalesUpload.InsertFor | src/app/api/upload-sales-csv/route.ts:293-322 | a new row for an unmatched key: the record's week, the form's channel, plan 0, list price = average price, and the error of the sale against a zero plan |
| SalesUpload.PartitionByKey | src/app/api/upload-sales-csv/route.ts:261-323 | every record becomes an update when its key has an existing row and an insert otherwise, nothing else is in either list, and the two lists together are as long as the records |
| SalesUpload.PartitionSales | src/app/api/upload-sales-csv/route.ts:258-323 | the splitting loop returns exactly the updates and inserts `PartitionByKey` describes, in record order |
| SalesUpload.FailuresAreRejections | src/app/api/upload-sales-csv/route.ts:342-345 | the errors the dispatcher collects are exactly the updates the store refused |
| SalesUpload.ApplyUpdates | src/app/api/upload-sales-csv/route.ts:330-362 | step 4: the table ends as every update applied in order; `updated` counts the accepted ones, every refused one leaves an error, and details are appended up to fifty |
| SalesUpload.UpdateFailuresCount | src/app/api/upload-sales-csv/route.ts:337-351 | every update is either accepted or leaves exactly one error |
| SalesUpload.SalesErrorsCount | src/app/api/upload-sales-csv/route.ts:337-375 | the response's errors before the cut are one per refused update plus one per refused insert batch |
| SalesUpload.InsertFailures | src/app/api/upload-sales-csv/route.ts:373-374 | one error per refused insert batch and none for a stored one |
| SalesUpload.InsertNewRows | src/app/api/upload-sales-csv/route.ts:367-392 | step 5: the rows of the stored batches are appended with fresh ids, `inserted` counts them, one error per refused batch, details of stored rows appended up to fifty |
| SalesUpload.NoSaleCandidates | src/app/api/upload-sales-csv/route.ts:405-428 | `toMarkZero`: exactly the cohort's rows whose key the file does not mention |
| SalesUpload.NoSalePatch | src/app/api/upload-sales-csv/route.ts:436-448 | the no-sale write: zero sales, and the error of a zero sale against the row's own plan |
| SalesUpload.CollectNoSale | src/app/api/upload-sales-csv/route.ts:405-428 | the collecting loop returns the candidates in cohort order and lists their details while fewer than fifty are listed |
| SalesUpload.NoSaleWriteFor | src/app/api/upload-sales-csv/route.ts:431-458 | a row whose key the file mentions receives no no-sale write; a candidate receives its own one |
| SalesUpload.NoSaleFields | src/app/api/upload-sales-csv/route.ts:440-448 | a no-sale write sets sales, average price and the three metrics and nothing else |
| SalesUpload.NoSaleMarking | src/app/api/upload-sales-csv/route.ts:431-458 | after step 6 a row whose key the file did not mention has zero sales and the error of a zero sale, every other column as before; a mentioned row is unchanged |
| SalesUpload.RecomputePatch | src/app/api/upload-sales-csv/route.ts:483-512 | the recomputed write sets the three metric columns only |
| SalesUpload.RecomputeFixpoint | src/app/api/upload-sales-csv/route.ts:483-512 | a recomputed row is consistent (its metrics are calculateMetrics of its own sale, plan and prices), and recomputing a consistent row changes nothing |
| SalesUpload.RecomputeSettles | src/app/api/upload-sales-csv/route.ts:466-537 | after step 7 every accepted cohort row is consistent and every other row is as it was |
| SalesUpload.MergeSales | src/app/api/upload-sales-csv/route.ts:184-392 | steps 1 to 5: the cohort is the week's and channel's rows, the keys are the file's, `updated` counts the accepted updates of matched keys, `inserted` the stored new rows, and the table becomes `Merged`: the updates applied in order, then the stored insert batches under fresh ids; `errors` is `SalesErrors` (a refused update's SKU, then one entry per refused insert batch) and `details` the first fifty of every update and then the stored insert rows |
| SalesUpload.LastSaleIndex | src/app/api/upload-sales-csv/route.ts:261-292 | the position of the file's last record with a key: it has the key and no later record has it |
| SalesUpload.LastSale | src/app/api/upload-sales-csv/route.ts:261-292 | the file's last record with a key is a record of the file with that key |
| SalesUpload.UpdateTargets | src/app/api/upload-sales-csv/route.ts:261-292 | every update is addressed to an existing cohort row whose key the file has, and carries sales figures |
| SalesUpload.LastUpdate | src/app/api/upload-sales-csv/route.ts:261-362 | the last update addressed to a matched row comes from the file's last record with its key, so duplicate lines are last-wins |
| SalesUpload.SalesWritten | src/app/api/upload-sales-csv/route.ts:330-362 | an accepted row ends with the sales and average price of the last sales write addressed to it |
| SalesUpload.MergedShape | src/app/api/upload-sales-csv/route.ts:330-392 | steps 1 to 5 keep the old rows in place, follow them with the stored inserts under consecutive fresh ids, and keep ids distinct |
| SalesUpload.ReconciledElsewhere | src/app/api/upload-sales-csv/route.ts:184-537 | after the whole reconciliation, a row of another week or channel, or one whose writes the store refuses, is as it was |
| SalesUpload.ReconciledNoSale | src/app/api/upload-sales-csv/route.ts:396-537 | an existing cohort row whose key the file lacks ends with zero sales and average price, metrics consistent with them (error minus the rounded-up plan), and every other column as it was |
| SalesUpload.ReconciledMatched | src/app/api/upload-sales-csv/route.ts:261-537 | an existing cohort row whose key the file has ends with the sales and average price of the file's last record with that key, its own plan and list price, and consistent metrics |
| SalesUpload.ReconciledInserted | src/app/api/upload-sales-csv/route.ts:293-537 | after the old rows come exactly the stored inserts, as built |

| SalesUpload.MarkAndRecompute | src/app/api/upload-sales-csv/route.ts:396-537 | steps 6 and 7: `noSales` counts the accepted no-sale writes, the details gain the no-sale rows while fewer than fifty are listed; the table becomes `Recomputed` of `Marked`, the no-sale writes then the metric writes applied, and every accepted cohort row carries metrics consistent with its own values |
| SalesUpload.UploadSales | src/app/api/upload-sales-csv/route.ts:95-552 | each error response happens exactly in its case (no file; a name without `.csv`; fewer than two non-blank lines; a missing column, listed) and changes nothing; otherwise the table becomes `Reconciled` of the file's records, `updated`, `inserted` and `noSales` are the accepted updates, stored inserts and accepted no-sale writes, the total is their sum, `errors` is the first ten of `SalesErrors` (undefined when there are none), `details` the first fifty of the updates, stored inserts and no-sale rows in that order, and the cohort ends consistent |
| SalesUpload.ReconcileFile | src/app/api/upload-sales-csv/route.ts:184-552 | the same success response, error and detail lists and final table for a file that passed the checks |
| StockUpdate.SnapshotOn | src/app/api/update-stock/route.ts:84-97 | the StockMeli query of a date: exactly the Chile rows of that date, in table order |
| StockUpdate.AvailableDates | src/app/api/update-stock/route.ts:122-135 | the dates offered when nothing is found: distinct, at most five, a prefix of the query's dates in their first-occurrence order, and a date is left out only when five are already listed |
| StockUpdate.Skus | src/app/api/update-stock/route.ts:161-169 | the snapshot's non-empty SKUs |
| StockUpdate.StockMapShape | src/app/api/update-stock/route.ts:161-169 | `stockMap` holds exactly the non-empty SKUs, iterated in the order of their first occurrence |
| StockUpdate.StockLastWins | src/app/api/update-stock/route.ts:161-169 | the last snapshot row of a SKU gives its entry: its stock (0 when null) and account |
| StockUpdate.BuildStockMap | src/app/api/update-stock/route.ts:161-169 | the map-filling loop computes that map |
| StockUpdate.PlanSkus | src/app/api/update-stock/route.ts:189-197 | `existingSkus`: exactly the non-empty SKUs of the plan rows, whatever their account |
| StockUpdate.CollectPlanSkus | src/app/api/update-stock/route.ts:189-197 | the collecting loop computes that set |
| StockUpdate.TallySplit | src/app/api/update-stock/route.ts:229-237 | every accepted starting-stock write is counted once, as `updated` (SKU in the snapshot) or as `notFound` |
| StockUpdate.StartingStockWritten | src/app/api/update-stock/route.ts:209-241 | after step 4 each accepted plan row holds its SKU's stock (0 when the snapshot lacks it); every other row is unchanged |
| StockUpdate.WriteStartingStock | src/app/api/update-stock/route.ts:209-241 | step 4: one write per plan row in batches; the table ends as those writes applied, and the two counts are the accepted writes with and without a snapshot entry |
| StockUpdate.StockRow | src/app/api/update-stock/route.ts:267-286 | the row inserted for a stock-only SKU: this week and channel, the snapshot's stock and account, zero plan and error, no lost sale |
| StockUpdate.StockOnlyRowsExact | src/app/api/update-stock/route.ts:248-258 | the rows to insert are exactly the SKUs of the map with positive stock and no plan row, one each, in map order, with distinct SKUs |
| StockUpdate.StockOnlyRowsSound | src/app/api/update-stock/route.ts:248-258 | every row to insert is the row built for a stock-only SKU of the map from that SKU's entry |
| StockUpdate.StockOnlyRowsComplete | src/app/api/update-stock/route.ts:248-258 | every stock-only SKU of the map has a row to insert |
| StockUpdate.StockOnlyRowsDistinct | src/app/api/update-stock/route.ts:248-258 | with distinct map keys, no SKU is inserted twice |
| StockUpdate.CollectStockOnly | src/app/api/update-stock/route.ts:248-258 | the collecting loop computes those rows |
| StockUpdate.InsertStockOnly | src/app/api/update-stock/route.ts:262-300 | step 5: the stock-only rows in batches, a batch stored exactly when its insert is accepted; the table gains `Inserted` of those rows, `inserted` counts the stored rows, all of them when every batch is stored |
| StockUpdate.NullStockRows | src/app/api/update-stock/route.ts:339-346 | the cohort rows whose starting stock is null |
| StockUpdate.NullFallbackWritten | src/app/api/update-stock/route.ts:345-367 | the one-by-one fallback writes 0 into each accepted null starting stock and changes nothing else |
| StockUpdate.NullFallbackClears | src/app/api/update-stock/route.ts:345-367 | after the fallback no accepted cohort row has a null starting stock |
| StockUpdate.NullFilterClears | src/app/api/update-stock/route.ts:322-331 | after the filtered update no cohort row has a null starting stock |
| StockUpdate.ZeroNullStocks | src/app/api/update-stock/route.ts:336-368 | the fallback loop: the table ends as the zero writes applied, and the count is the accepted ones |
| StockUpdate.SweepNullStock | src/app/api/update-stock/route.ts:308-375 | step 6: with no null starting stock nothing is written; otherwise one filtered update zeroes them all, and when it fails they are zeroed one by one; afterwards no accepted cohort row keeps a null starting stock |
| StockUpdate.UnitsLost | src/app/api/update-stock/route.ts:402-425 | the lost sale is never positive: 0 unless the error is negative, stock is below plan and the sale reached the stock; then it is stock minus plan, rounded |
| StockUpdate.ValueLost | src/app/api/update-stock/route.ts:427-430 | the valued loss is within half a unit of units times price, 0 for no loss, never positive at a non-negative price |
| StockUpdate.LossSettles | src/app/api/update-stock/route.ts:383-458 | after step 7 each accepted cohort row records the loss the rule gives for its own values; every other row is unchanged |
| StockUpdate.WriteLosses | src/app/api/update-stock/route.ts:383-458 | step 7: the table ends as the loss writes applied; `calculated` counts the accepted ones |
| StockUpdate.NullColumns | src/app/api/update-stock/route.ts:494-504 | the columns the sweep writes for a row are exactly its null derived columns |
| StockUpdate.SweepCandidates | src/app/api/update-stock/route.ts:478-485 | the cohort rows with some null derived column |
| StockUpdate.SweepFills | src/app/api/update-stock/route.ts:494-504 | the sweep writes 0 into the null columns only: afterwards none is null, others keep their values, and the loss the rule computes is unchanged |
| StockUpdate.FillKeepsLoss | src/app/api/update-stock/route.ts:494-504 | filling a row whose loss is recorded keeps it recorded and leaves no null column |
| StockUpdate.FillSettles | src/app/api/update-stock/route.ts:466-524 | after step 8 each accepted selected row is filled and every other row is unchanged |
| StockUpdate.FillNulls | src/app/api/update-stock/route.ts:466-524 | step 8: the table ends as the fill writes applied; `cleanedUp` counts the accepted ones |
| StockUpdate.LossThenFill | src/app/api/update-stock/route.ts:383-524 | steps 7 and 8 together keep every row's identity and leave every accepted cohort row with no null derived column and its loss recorded |
| StockUpdate.StockAndInserts | src/app/api/update-stock/route.ts:176-300 | steps 3 to 5: the starting-stock counts are the tallies of the cohort, `inserted` is the number of stored stock-only rows, and the table becomes `Stocked`: the starting stocks written, then the stored stock-only batches appended |
| StockUpdate.NullSweep | src/app/api/update-stock/route.ts:308-375 | step 6: the table becomes `Swept` and the count `NullCount`: unchanged with no null stock, the filtered update when it succeeds, the one-by-one fallback otherwise; at most one count per null row |
| StockUpdate.ValueCohort | src/app/api/update-stock/route.ts:383-524 | steps 7 and 8: the table becomes `Valued`, the loss writes then the fill writes applied; `calculated` counts the accepted loss writes, that is the cohort rows whose ids the store accepts, and every accepted cohort row ends valued and without nulls |
| StockUpdate.SweepAndValue | src/app/api/update-stock/route.ts:308-524 | steps 6 to 8: the table becomes `Valued` of `Swept`, the null count is `NullCount`, `calculated` is the number of accepted cohort rows of the swept table, and every accepted cohort row ends valued and without nulls |
| StockUpdate.ValuedAll | src/app/api/update-stock/route.ts:383-524 | the same for the two steps as a function of the table |
| StockUpdate.StockedIds | src/app/api/update-stock/route.ts:209-300 | steps 3 to 5 keep the old rows in place, follow them with the stored inserts and keep ids distinct |
| StockUpdate.SweptRow | src/app/api/update-stock/route.ts:308-375 | step 6 keeps ids distinct and a row's identity, plan and sales figures, and leaves alone a row of another cohort or with a starting stock |
| StockUpdate.ValuedRow | src/app/api/update-stock/route.ts:383-524 | steps 7 and 8 keep a row's identity and figures and a set starting stock, and leave a row of another cohort as it was |
| StockUpdate.StoredStockRow | src/app/api/update-stock/route.ts:248-300 | a stored stock-only row is the row built for a stock-only SKU, under its fresh id |
| StockUpdate.StockRowLoss | src/app/api/update-stock/route.ts:267-286 | a stock-only row loses nothing: step 7 records zero lost units and value and leaves no null column |
| StockUpdate.StockTablePlanRow | src/app/api/update-stock/route.ts:176-524 | after the route, a plan row of the cohort whose id the store accepts holds its SKU's stock (0 when the snapshot lacks it), its loss recorded, no null column, and its identity, plan and sales as they were |
| StockUpdate.StockTableElsewhere | src/app/api/update-stock/route.ts:176-524 | after the route, a row of another week or channel is as it was |
| StockUpdate.StockedInsertedRow | src/app/api/update-stock/route.ts:248-300 | after step 5 the rows past the old ones are the stored stock-only rows, each built for a stock-only SKU under its fresh id, with ids still distinct |
| StockUpdate.StockTableInserted | src/app/api/update-stock/route.ts:248-524 | after the old rows come the stored stock-only rows, each built for a stock-only SKU, with zero lost units and value when accepted |
| StockUpdate.ReconcileStock | src/app/api/update-stock/route.ts:161-524 | steps 3 to 8 for a found snapshot: the table becomes `StockTable`; `updated` and `notFound` are the starting-stock tallies, `inserted` the stored stock-only rows, `nullUpdated` is `NullCount`, and `calculated` the accepted cohort rows after the inserts and the sweep |
| StockUpdate.UpdateStock | src/app/api/update-stock/route.ts:40-540 | POST update-stock: a missing or empty week string is refused; a week `parseInt` cannot read gives the no-data error with `NaN-NaN-NaN` dates; otherwise the Monday of the week is looked up in ISO and then in DMY form, no snapshot on either gives the no-data error with both and the available dates and changes nothing; with a snapshot, `mondayDate` is the ISO Monday, or the DMY Monday when the ISO one has no rows, the table becomes `StockTable`, and the counts are the tallies, stored inserts, null count and the accepted cohort rows valued in step 7 |
| Calendar.DaysInMonth | src/app/api/update-stock/route.ts:10 | a month of the Gregorian calendar has 28 to 31 days |
| Calendar.IsoWeekday | src/app/api/update-stock/route.ts:13 | the ISO weekday of a day number lies between Monday (1) and Sunday (7) |
| Calendar.JsWeekday | src/app/api/update-stock/route.ts:13 | `getDay`: Sunday 0 and the ISO weekday for every other day, so `getDay() \|\| 7` is the ISO weekday |
| Calendar.YearLength | src/app/api/update-stock/route.ts:10 | a year is the days before December plus December's 31 days |
| Calendar.LeapDays | src/app/api/update-stock/route.ts:10 | the leap-day count grows by one exactly across a Gregorian leap year |
| Calendar.NextMonthStart | src/app/api/update-stock/route.ts:15 | the first day of the next month is the days left in this month away |
| Calendar.PrevMonthEnd | src/app/api/update-stock/route.ts:15 | the last day of the previous month is the day before the first of this one |
| Calendar.AddDays | src/app/api/update-stock/route.ts:15 | the date `k` days away is a valid date whose number is `k` more |
| Calendar.DayNumberInjective | src/app/api/update-stock/route.ts:15 | two valid dates with the same day number are the same date, so the day number identifies the date |
| Calendar.YearStartBound | src/app/api/update-stock/route.ts:10 | every day of a year numbers below the first day of any later year |
| Calendar.JsDate.constructor | src/app/api/update-stock/route.ts:10 | `new Date(y, m, d)`: the day number of day 1 of that month plus `d - 1`, years 0 to 99 read as 1900 to 1999, an out-of-month day rolling over |
| Calendar.JsDate.Copy | src/app/api/update-stock/route.ts:14 | `new Date(other)` is the same date |
| Calendar.JsDate.SetDate | src/app/api/update-stock/route.ts:15 | `setDate(d)`: day `d` of the current month, rolling over into the neighbouring months |
| Calendar.JsRem100 | src/app/api/update-stock/route.ts:7 | JavaScript's `%`: the remainder takes the sign of the dividend, differs from the dividend by a multiple of 100, and is below 100 in size |
| Calendar.MondayOfWeek | src/app/api/update-stock/route.ts:5-22 | getMondayOfWeek: a valid date whose number is the Monday of week `WW` counted from the Monday on or before 4 January of year `YYYY`, and it is a Monday |
| Calendar.MonthDay | src/app/api/update-stock/route.ts:15 | a date's number is the number of its month's first day plus the days after it |
| Calendar.MondayIsMonday | src/app/api/update-stock/route.ts:5-22 | the computed day is always a Monday, for any week number |
| Calendar.WeekOneStart | src/app/api/update-stock/route.ts:9-15 | week 1 starts between 29 December of the year before and 4 January |
| Calendar.NextWeek | src/app/api/update-stock/route.ts:18-19 | consecutive week numbers of a year start seven days apart |
| Calendar.WeekOf2026Example | src/app/api/update-stock/route.ts:5-22 | week 202601 starts on Monday 29 December 2025 |
| Calendar.FormatsAgree | src/app/api/update-stock/route.ts:25-38 | formatDateISO and formatDateDMY carry the same year, month and day, month and day as two digits that denote them, in opposite orders |
| PlanUpload.PlanHeadersNeeded | src/app/api/upload-plan-csv/route.ts:15-31 | a plan header is valid exactly when both the account and the SKU column are found; only those two are required |
| PlanUpload.PlanRecordOf | src/app/api/upload-plan-csv/route.ts:154-168 | a line gives a record exactly when it has at least two fields and a non-empty account and SKU; week and channel come from their columns when present and from the form otherwise; numbers that are missing or do not parse are 0 |
| PlanUpload.PlanRecords | src/app/api/upload-plan-csv/route.ts:151-168 | never more records than data lines, each with a non-empty account and SKU and its file line number (2 onwards) |
| PlanUpload.LineRecords | src/app/api/upload-plan-csv/route.ts:152-168 | a data line gives at most one record, numbered by its file line |
| PlanUpload.DecimalCommaSplits | src/app/api/upload-plan-csv/route.ts:229-249 | the plan scanner splits on both `,` and `;`: `a;1,5` reads as three fields |
| PlanUpload.RowOf | src/app/api/upload-plan-csv/route.ts:171-183 | `insertData` carries the record's week, channel, account and SKU |
| PlanUpload.UpsertLandsOnce | src/app/api/upload-plan-csv/route.ts:185-189 | after an accepted upsert of a record with week and channel, exactly one row has its key, that row carries the record, and every other row is as it was |
| PlanUpload.StoreRecord | src/app/api/upload-plan-csv/route.ts:185-203 | one record: one write when the upsert is accepted, otherwise a plain insert as second write; refused exactly when it has no week or both writes fail, and then nothing changes |
| PlanUpload.StoreAll | src/app/api/upload-plan-csv/route.ts:151-207 | one outcome per record |
| PlanUpload.ErrorsOf | src/app/api/upload-plan-csv/route.ts:197-198 | one error per refused record: errors and stored records account for every record |
| PlanUpload.DetailsOf | src/app/api/upload-plan-csv/route.ts:199-205 | one detail per stored record |
| PlanUpload.StoreRecordKeeps | src/app/api/upload-plan-csv/route.ts:185-203 | one record's writes keep every old row's identity, and its values unless it has the record's key |
| PlanUpload.StoreAllKeepsOthers | src/app/api/upload-plan-csv/route.ts:151-207 | the whole load keeps every old row's identity, and the values of every row whose key no record has |
| PlanUpload.ProgressSnoc | src/app/api/upload-plan-csv/route.ts:151-207 | one more record extends the table, the outcomes, the count, the errors and the details by that record's own |
| PlanUpload.WriteRecord | src/app/api/upload-plan-csv/route.ts:185-203 | the store's upsert-then-insert computes `StoreRecord` |
| PlanUpload.LoadLine | src/app/api/upload-plan-csv/route.ts:151-207 | one data line: its record, when it has one, written and reported |
| PlanUpload.LoadNext | src/app/api/upload-plan-csv/route.ts:151-207 | data line `i` extends the records and the loop state by its own |
| PlanUpload.LoadRecords | src/app/api/upload-plan-csv/route.ts:151-207 | the loop over the data lines ends in the state `StoreAll` gives for all the records |
| PlanUpload.UploadPlan | src/app/api/upload-plan-csv/route.ts:64-217 | no file, a name without `.csv`, fewer than two non-blank lines or a missing required column each give their error exactly in that case and change nothing; otherwise the table is `StoreAll` of the records, `inserted` counts the stored ones, `updated` is 0, and the errors (first ten) and details (first fifty) are reported |
| ScenarioUpload.RemoveDots | src/app/api/upload-escenarios-csv/route.ts:63 | `replace(/\./g, '')`: every `.` removed and every other character kept; a text without dots is unchanged |
| ScenarioUpload.RemoveDotsAppend | src/app/api/upload-escenarios-csv/route.ts:63 | removing dots works piece by piece |
| ScenarioUpload.CleanedPoints | src/app/api/upload-escenarios-csv/route.ts:63 | the cleaned text holds one `.` when the cell held a `,` and none otherwise, whatever dots the cell held |
| ScenarioUpload.DotsIgnored | src/app/api/upload-escenarios-csv/route.ts:60-66 | parseNumber: a `.` inside a cell is a thousands separator, the value is that of the cell without it |
| ScenarioUpload.EmptyCleaned | src/app/api/upload-escenarios-csv/route.ts:61 | an empty cell reads as 0 |
| ScenarioUpload.ParseNumberOfNat | src/app/api/upload-escenarios-csv/route.ts:60-66 | a plain numeral reads as its value |
| ScenarioUpload.DropCr | src/app/api/upload-escenarios-csv/route.ts:90 | a line loses at most one final carriage return |
| ScenarioUpload.CrLfLines | src/app/api/upload-escenarios-csv/route.ts:90 | `split(/\r?\n/)`: one piece per line feed plus one |
| ScenarioUpload.ScenarioLines | src/app/api/upload-escenarios-csv/route.ts:90 | the kept lines are all non-blank |
| ScenarioUpload.MissingNames | src/app/api/upload-escenarios-csv/route.ts:104-106 | the missing columns are exactly the required names no header equals, ignoring case |
| ScenarioUpload.MissingNamesAppend | src/app/api/upload-escenarios-csv/route.ts:104-106 | missing names keep the declared order |
| ScenarioUpload.FindExact | src/app/api/upload-escenarios-csv/route.ts:119-123 | the first header equal to the column ignoring case, -1 when none is |
| ScenarioUpload.FoundUnlessMissing | src/app/api/upload-escenarios-csv/route.ts:104-123 | a required column gets an index exactly when it is not reported missing |
| ScenarioUpload.CheckRow | src/app/api/upload-escenarios-csv/route.ts:131-164 | a line is accepted exactly when its key cells are non-empty, its scenario is one of the six known names, and both figures are not negative; otherwise the first failing check is its one error, with the file line number |
| ScenarioUpload.Reading | src/app/api/upload-escenarios-csv/route.ts:129-166 | every accepted record is valid, every error carries a data line's number, and together they are no more than the lines |
| ScenarioUpload.EachLineOnce | src/app/api/upload-escenarios-csv/route.ts:129-166 | every non-blank data line gives exactly one record or one error |
| ScenarioUpload.ReadRows | src/app/api/upload-escenarios-csv/route.ts:129-166 | the row loop sorts the lines into records and errors as `Reading` says, in file order |
| ScenarioUpload.UpsertScenario | src/app/api/upload-escenarios-csv/route.ts:187-199 | an upsert on (Nodo, Cuenta, Sku_Seller, Escenario) replaces the row with the key or appends one, keeping every key in place |
| ScenarioUpload.UpsertOnKey | src/app/api/upload-escenarios-csv/route.ts:187-199 | after an upsert exactly one row has the key and carries the new values, every other row is as it was, and keys stay unique |
| ScenarioUpload.ScenarioStore.constructor | src/app/api/upload-escenarios-csv/route.ts:179 | the scenario table starts with unique keys and no writes |
| ScenarioUpload.ScenarioStore.Upsert | src/app/api/upload-escenarios-csv/route.ts:187-199 | one upsert: accepted unless that write fails, then the table is `UpsertScenario` of the row |
| ScenarioUpload.UpsertAllUnique | src/app/api/upload-escenarios-csv/route.ts:184-207 | the write loop keeps the keys unique |
| ScenarioUpload.StoredKeyPresent | src/app/api/upload-escenarios-csv/route.ts:184-207 | every record whose write succeeded has its key in the final table |
| ScenarioUpload.DbErrorsOf | src/app/api/upload-escenarios-csv/route.ts:201-202 | one error per failed write: errors and successes account for every record |
| ScenarioUpload.ProgressedStep | src/app/api/upload-escenarios-csv/route.ts:184-207 | one record more advances the loop state by its own outcome |
| ScenarioUpload.StoreOne | src/app/api/upload-escenarios-csv/route.ts:186-206 | one record upserted and counted |
| ScenarioUpload.StoreBatch | src/app/api/upload-escenarios-csv/route.ts:185-207 | one slice of records, in order |
| ScenarioUpload.StoreRecords | src/app/api/upload-escenarios-csv/route.ts:179-209 | the write loop ends with the table, the count and the errors of all the records upserted in order |
| ScenarioUpload.UploadScenarios | src/app/api/upload-escenarios-csv/route.ts:74-221 | no file, a name not ending in `.csv` (with case), fewer than two non-blank lines, a missing column (listed, with the headers) or no acceptable row (first ten errors) each give their error exactly in that case and change nothing; otherwise every accepted record is upserted in order, `inserted` counts the successes and with the failures makes the total, and the first five line errors are reported |
| ScenarioUpload.ExtensionCaseMatters | src/app/api/upload-escenarios-csv/route.ts:82 | `P.CSV` passes the other uploads' lower-cased check but not this one |
| PlanReport.CheckWeek | src/app/api/plan-demanda/route.ts:73-86 | a week is missing exactly when the parameter is absent or empty, and accepted exactly when it parses as an integer from 202001 to 209953, which is then the week |
| PlanReport.WeekRoundTrip | src/app/api/plan-demanda/route.ts:80-81 | every week of the range written as a numeral is accepted as itself |
| PlanReport.FilterReport | src/app/api/plan-demanda/route.ts:105-110 | filtering never adds rows |
| PlanReport.FilterReportMembers | src/app/api/plan-demanda/route.ts:105-110 | the filtered report holds exactly the rows that pass the channel and the account filters (`Todos` or absent passing everything) |
| PlanReport.NoFilterKeepsAll | src/app/api/plan-demanda/route.ts:105-110 | without a narrowing channel or account the report is returned whole |
| PlanReport.FilterReportAppend | src/app/api/plan-demanda/route.ts:105-110 | filtering keeps the report's order |
| PlanReport.AddScenarioAt | src/app/api/plan-demanda/route.ts:126-134 | adding one catalogue row adds its key and under it its scenario with its figures; every other entry stays |
| PlanReport.ScenarioIndexKeys | src/app/api/plan-demanda/route.ts:123-135 | `escenariosPorSku` has a key exactly when some catalogue row has it |
| PlanReport.ScenarioIndexHas | src/app/api/plan-demanda/route.ts:123-135 | a scenario is under a key exactly when some catalogue row has both |
| PlanReport.ScenarioIndexLastWins | src/app/api/plan-demanda/route.ts:130-133 | a scenario under a key holds the figures of the last row with both |
| PlanReport.BuildScenarioIndex | src/app/api/plan-demanda/route.ts:123-135 | the `forEach` computes that index |
| PlanReport.AppliedFirstWins | src/app/api/plan-demanda/route.ts:145-156 | `escenarioAplicadoPorSku` has exactly the keys of the history and holds, for each, the first (newest) entry |
| PlanReport.BuildAppliedIndex | src/app/api/plan-demanda/route.ts:145-156 | the `forEach` computes that index |
| PlanReport.LexTotal | src/app/api/plan-demanda/route.ts:160 | the default sort order compares any two names |
| PlanReport.LexTransitive | src/app/api/plan-demanda/route.ts:160 | the default sort order is transitive |
| PlanReport.InsertName | src/app/api/plan-demanda/route.ts:160 | inserting into a sorted list keeps it sorted and adds exactly that element |
| PlanReport.SortNames | src/app/api/plan-demanda/route.ts:160 | `sort()`: sorted, and the same elements as often |
| PlanReport.NonEmptyNames | src/app/api/plan-demanda/route.ts:160 | `filter(Boolean)`: exactly the non-empty names |
| PlanReport.FilterListShape | src/app/api/plan-demanda/route.ts:160-161 | the channel and account lists hold each non-empty value of the report once, nothing else, sorted |
| PlanReport.GetPlan | src/app/api/plan-demanda/route.ts:66-182 | week missing or invalid give their errors; otherwise the filtered report, the scenario and applied indices, the six scenario names, the sorted filter lists and the counts |
| PlanSave.Matching | src/app/api/plan-demanda/route.ts:244-251 | the lookup's rows are rows of the table with the change's key |
| PlanSave.Current | src/app/api/plan-demanda/route.ts:244-256 | `.single()`: the current row exists exactly when one row has the key, and is that row; none or several give PGRST116 and a null current row |
| PlanSave.MatchingOnlyAt | src/app/api/plan-demanda/route.ts:244-251 | when row `k` is the only one with the key, the lookup finds exactly it |
| PlanSave.CurrentOnlyAt | src/app/api/plan-demanda/route.ts:244-256 | then the current row is row `k` |
| PlanSave.FieldChanges | src/app/api/plan-demanda/route.ts:259-284 | `cambiosDetalle`: at most three entries, none exactly when no field is defined |
| PlanSave.FieldChangesShape | src/app/api/plan-demanda/route.ts:259-284 | one entry for each defined field and for no other, in the order plan, list price, action, each with the current row's value and the new one |
| PlanSave.EditSetsDefined | src/app/api/plan-demanda/route.ts:259-307 | the update sets each defined field to its new value and keeps every other column |
| PlanSave.OrNull | src/app/api/plan-demanda/route.ts:326-327 | `x \|\| null`: a value exactly when `x` is a non-empty text, and then `x` |
| PlanSave.HistoryOf | src/app/api/plan-demanda/route.ts:310-328 | the history row: the one field's name, old and new value when one field changed, `multiple` and the detail otherwise; the applied scenario or `Carga_Manual`; the key, the user, IP and agent or null |
| PlanSave.CampoMultiple | src/app/api/plan-demanda/route.ts:316 | `Campo_Modificado` is `multiple` exactly when more than one field changed |
| PlanSave.NoWriteWithoutKeyOrFields | src/app/api/plan-demanda/route.ts:238-291 | a change without its complete key (reported as invalid) or without any defined field writes nothing and counts nothing |
| PlanSave.SavedChange | src/app/api/plan-demanda/route.ts:294-328 | a change counted as updated had its key, its write was accepted, the rows with its key hold the defined values, every other row and column is as before, and one history row records it against the row looked up |
| PlanSave.SaveAllCounts | src/app/api/plan-demanda/route.ts:235-329 | over all changes the updates and errors together are at most the changes, each update has one history row, each change writes at most once, and the invalid-record errors are exactly the changes without a complete key |
| PlanSave.SaveStep | src/app/api/plan-demanda/route.ts:235-329 | one pass of the loop over the changes, as `SaveOne` says |
| PlanSave.SaveChanges | src/app/api/plan-demanda/route.ts:200-339 | no change list or an empty one, then a missing user, are refused before any write; otherwise the changes are applied in order as `SaveAll` says, `success` exactly when there is no error, with the counts above |
| EditSession.PutAll | src/app/modulos/plan-demanda/page.tsx:560-572 | writing one value into several weeks of a key changes exactly those entries, creating the key when missing and keeping every other key |
| EditSession.Put | src/app/modulos/plan-demanda/page.tsx:404-412 | writing one week of a key changes exactly that entry |
| EditSession.DropWeeks | src/app/modulos/plan-demanda/page.tsx:383-392 | deleting weeks of a key removes exactly those entries, and the key itself when nothing is left, so no empty entry remains |
| EditSession.RemoveKey | src/app/modulos/plan-demanda/page.tsx:492-523 | deleting a key removes all of its weeks and nothing else |
| EditSession.AddPending | src/app/modulos/plan-demanda/page.tsx:413 | adding a pending key keeps the old keys in order, adds the key once, and keeps the set free of repeats |
| EditSession.RemovePending | src/app/modulos/plan-demanda/page.tsx:515-519 | removing a pending key keeps exactly the other keys, still without repeats |
| EditSession.Toggle | src/app/modulos/plan-demanda/page.tsx:526-536 | the toggled week changes membership and every other week keeps it |
| EditSession.ToggleTwice | src/app/modulos/plan-demanda/page.tsx:526-536 | toggling the same week twice restores the selection |
| EditSession.Project | src/app/modulos/plan-demanda/page.tsx:319-359 | the cell's value: a manual value of an editable week (7..9) wins and is rounded; else the applied non-manual scenario's quantity when the catalogue holds it; else the rounded plan of weeks 5..9; else 0; editable exactly for weeks 7..9 |
| EditSession.ReadOnlyShowsPlan | src/app/modulos/plan-demanda/page.tsx:319-359 | weeks 5 and 6 always show the plan, whatever the session holds |
| EditSession.ManualValueShown | src/app/modulos/plan-demanda/page.tsx:469-489 | after a manual value is set on an editable week, that cell shows it rounded, as a manual value |
| EditSession.ChosenScenarioShown | src/app/modulos/plan-demanda/page.tsx:370-414 | after a non-manual scenario is chosen for an editable week, the cell shows its rounded quantity when the catalogue has it, and the plan otherwise |
| EditSession.RemovedShowsPlan | src/app/modulos/plan-demanda/page.tsx:492-523 | after a SKU's scenario is removed, every week shows the plan again |
| EditSession.SkuScenario | src/app/modulos/plan-demanda/page.tsx:291-300 | the row's scenario is the first truthy choice among weeks 7, 8, 9, and `Venta` when there is none |
| EditSession.WeekLabels | src/app/modulos/plan-demanda/page.tsx:72-88 | ten labels, each the week number of its column when the row has one and the default `S-5`..`S+4` label otherwise |
| EditSession.WeekLabelReadsBack | src/app/modulos/plan-demanda/page.tsx:72-88 | a label reads back as its week number, and a default label as no number |
| EditSession.HeatClass | src/app/modulos/plan-demanda/page.tsx:362-366 | `heat2` exactly from 18, `heat1` exactly from 10 below 18, `heat0` otherwise |
| EditSession.HeatMonotone | src/app/modulos/plan-demanda/page.tsx:362-366 | a larger value is never coloured cooler |
| EditSession.FilteredData | src/app/modulos/plan-demanda/page.tsx:254-277 | the filtered table never has more rows than the table |
| EditSession.FilteredMembers | src/app/modulos/plan-demanda/page.tsx:254-277 | a row is shown exactly when it is in the table and passes the lower-cased search on SKU, name or account and both selectors |
| EditSession.NothingFiltered | src/app/modulos/plan-demanda/page.tsx:254-277 | with no search and both selectors on `Todos`, the whole table is shown in its order |
| EditSession.ApplyRowsEffect | src/app/modulos/plan-demanda/page.tsx:539-582 | the bulk action sets the scenario and the mark of every selected week of exactly the touched keys, adds exactly those keys to the pending ones without repeats, and leaves every other entry as it was |
| EditSession.TouchedRows | src/app/modulos/plan-demanda/page.tsx:545-557 | a shown row is touched exactly when it has scenarios and either the scope is all rows or its key or its SKU is selected |
| EditSession.FindRow | src/app/modulos/plan-demanda/page.tsx:607 | `data.find`: the first row with the key, or none exactly when no row has it |
| EditSession.WeekScenario | src/app/modulos/plan-demanda/page.tsx:285-288 | a week's scenario is its truthy choice, else `Venta` |
| EditSession.WeekChange | src/app/modulos/plan-demanda/page.tsx:611-658 | a week yields a change exactly when it has a week number and a manual value or a mark; a manual value goes with price 0 and `Carga_Manual`, otherwise the scenario's quantity and price (0 when missing) with the scenario as action; key pieces come from splitting the key on `\|` |
| EditSession.WeeksUpToFrom | src/app/modulos/plan-demanda/page.tsx:618-648 | every change of a key comes from one of its editable weeks |
| EditSession.SaveListFrom | src/app/modulos/plan-demanda/page.tsx:605-649 | every change sent comes from a pending key that has a row in the table and from one of its weeks 7..9 |
| EditSession.SplitSkuKey | src/app/modulos/plan-demanda/page.tsx:280-282 | splitting a key on `\|` gives back channel, account and SKU when none of them holds a `\|` |
| EditSession.SentChangeAccepted | src/app/modulos/plan-demanda/page.tsx:606 | a change built for a row with non-empty, `\|`-free channel, account and SKU passes the save route's key check with that row's key and week number, and writes all three fields |
| EditSession.ExportValues | src/app/modulos/plan-demanda/page.tsx:845-864 | an exported row has sixteen values |
| EditSession.ExportReadsBack | src/app/modulos/plan-demanda/page.tsx:845-865 | an exported line, each value quoted with inner quotes doubled, reads back with a quote-aware scanner as exactly its sixteen values |
| EditSession.Session.constructor | src/app/modulos/plan-demanda/page.tsx:94-144 | a new session has no choices, marks, manual values or pending keys, weeks 7, 8, 9 selected and no SKU selected |
| EditSession.Session.ChangeWeekScenario | src/app/modulos/plan-demanda/page.tsx:370-414 | the week's choice and mark are set, a non-manual scenario drops that week's manual value, the key becomes pending, nothing else changes |
| EditSession.Session.ChangeSkuScenario | src/app/modulos/plan-demanda/page.tsx:418-465 | the choice of every selected week is set; a non-manual scenario also marks them and drops their manual values; the key becomes pending |
| EditSession.Session.SetManualValue | src/app/modulos/plan-demanda/page.tsx:469-489 | only that week's manual value and mark change, and the key becomes pending |
| EditSession.Session.ClickCell | src/app/modulos/plan-demanda/page.tsx:709-722 | a click on an editable cell (weeks 7..9) marks that week of the row's key and makes the key pending; any other cell changes no edit state |
| EditSession.Session.RemoveSkuScenario | src/app/modulos/plan-demanda/page.tsx:492-523 | the key leaves the three maps and the pending keys |
| EditSession.Session.ToggleWeek | src/app/modulos/plan-demanda/page.tsx:526-536 | the selected weeks are toggled at that week |
| EditSession.Session.ToggleSku | src/app/modulos/plan-demanda/page.tsx:687-697 | the SKU changes selection and every other SKU keeps it |
| EditSession.Session.ApplyStep | src/app/modulos/plan-demanda/page.tsx:550-574 | one shown row of the bulk action, with its touched test |
| EditSession.Session.ApplyGlobalScenario | src/app/modulos/plan-demanda/page.tsx:539-582 | without a selected week nothing changes and the action reports so; otherwise the new choices, marks and pending keys are those of the bulk action over the shown rows; manual values are untouched |
| EditSession.Session.KeyStep | src/app/modulos/plan-demanda/page.tsx:605-649 | the changes of one pending key |
| EditSession.Session.BuildChanges | src/app/modulos/plan-demanda/page.tsx:605-649 | the change list built key by key is the save list of the pending keys |
| EditSession.Session.Save | src/app/modulos/plan-demanda/page.tsx:585-659 | nothing is sent and nothing stored without pending keys; otherwise the save list goes to the save route under the user's name or `Desconocido`, the table becomes what that route makes of it, and the pending keys are cleared only on success |
| ErrorRates.RelativeError | src/app/api/calculate-errors/route.ts:52-66 | with a positive plan the error is the sale's deviation relative to the plan; with no plan a sale is a full error (1, 1) and no sale none (0, 0); the absolute error is the error's magnitude |
| ErrorRates.RelativeErrorSign | src/app/api/calculate-errors/route.ts:59-62 | with a positive plan the error is positive, zero or negative exactly as the sale is above, at or below the plan |
| ErrorRates.RelativeErrorFloor | src/app/api/calculate-errors/route.ts:59-62 | a sale that is not negative is never more than 100 % below a positive plan |
| ErrorRates.Records | src/app/api/calculate-errors/route.ts:22-31 | the records are exactly the rows of that week with a sale, and of that channel when one is given |
| ErrorRates.RateWrites | src/app/api/calculate-errors/route.ts:51-78 | one write per record, in order, setting its two error columns |
| ErrorRates.RateWritesPerRow | src/app/api/calculate-errors/route.ts:67-78 | those writes are the per-row patches of the records |
| ErrorRates.TotalAbsNonNegative | src/app/api/calculate-errors/route.ts:79-83 | the total absolute error is never negative |
| ErrorRates.Average | src/app/api/calculate-errors/route.ts:86 | the average times the number processed is the total, 0 when nothing was processed, and never negative for a total that is not |
| ErrorRates.RatesWritten | src/app/api/calculate-errors/route.ts:51-84 | afterwards, every selected row whose write was accepted carries its relative errors and every other row is as it was |
| ErrorRates.RatesPatchSets | src/app/api/calculate-errors/route.ts:67-75 | the patch sets the two error columns and nothing else |
| ErrorRates.WriteRates | src/app/api/calculate-errors/route.ts:67-78 | one record's write: accepted unless the store rejects it, and then only that row's error columns change |
| ErrorRates.WriteAll | src/app/api/calculate-errors/route.ts:51-84 | the loop: the table becomes the records' writes applied in order, the count is the accepted writes, and the total is their absolute errors |
| ErrorRates.CalculateErrors | src/app/api/calculate-errors/route.ts:4-93 | no week fails first and writes nothing; no qualifying record fails and writes nothing; otherwise the accepted writes are made, the count is at most the records and the average is the mean absolute error, never negative |

## Left out

- Storage and HTTP. The Supabase client, the request parsing and the JSON
  responses are replaced by the `Store` objects and response datatypes. A
  query never fails. A write fails only as the store's `rejectedIds` and
  `failingWrites` say. Errors of `.single()` other than "no single row"
  (PGRST116) are not modelled. The result of the audit-history insert is
  ignored, as the route ignores it.
- The database functions `fn_reporte_plan` and the catalogue and history
  queries. Their results are parameters of `PlanReport.GetPlan`, and the
  `StockMeli` table and the recent-dates query are parameters of
  `StockUpdate.UpdateStock`. So are the uploaded file's name and text.
- Environment and credential checks, `try`/`catch` around unexpected
  exceptions, logging, `updated_at`/`created_at` timestamps, run durations,
  and the wording of messages.
- Concurrency. `Promise.all` inside a batch runs its writes sequentially
  here, in list order. The stock route's writes of a batch target distinct
  ids, so for them the order does not matter. The sales route's updates do
  not: two lines of the file with the same `Cuenta|Sku` update the same row.
  In the model the later line wins (`SalesUpload.LastUpdate`); with
  concurrent requests either may land last.
- The stock route's week is the string the planning page sends. A JSON
  number there (where `0` would be refused as falsy) is not modelled. The
  calculate-errors route's `parseInt` is `ErrorRates.WeekOf`, defined for
  digit strings. The sales and plan routes take the week already parsed.
- StockUpdate.UpdateStock: a week `parseInt` reads as NaN is answered with
  the no-data error at once. The route looks up the date text
  `NaN-NaN-NaN`; a `StockMeli` row dated with that text, and the failed
  `Semana = NaN` query that would follow, are not modelled.
- Number syntax. `parseInt` and `parseFloat` read the optionally signed
  decimal prefix after leading blanks. Text with no such prefix is NaN.
  Exponents, `Infinity` and `0x` forms are not modelled. `String(x)` of a non-integral number is
  the parameter `show` of `EditSession.ExportValues`.
- Case folding covers ASCII and the Latin-1 capitals (`À` to `Þ`) only.
  Unicode normalisation is not modelled.
- The JS `Date` runs in local time here with no DST shifts. Dates are day
  numbers of the proleptic Gregorian calendar.
- The page's clock-based current week, charts and linear regression, toasts,
  the selected-cell highlight that `handleCellClick` sets, the product-detail
  panel (`loadDetallePublicacion`),
  `toggleSelectAll`, the export's header line and the file download are not
  modelled; they are UI or floating point.
- `calculate-errors` also sums the signed errors (`totalError`) but never
  returns them; that sum is not modelled.
- StockUpdate.SweepNullStock: a filtered update that succeeds is counted as
  the number of rows it matches. That is what `count: 'exact'` reports.
- Reading of the source, modelled as written:
  - The scenario upload checks the `.csv` extension case-sensitively. The
    sales and plan uploads lower-case the name first.
  - The plan upload's scanner splits on both `,` and `;` outside quotes,
    whatever separator the header uses.
  - The `UNIQUE("Semana", "Cuenta", "Sku_Seller")` constraint of the table
    script leaves out `Nodo`, while the plan upload's upsert conflicts on
    four columns. The model uses the upsert's four-column key.
  - `calculate-errors` writes a relative error into `Error`, where the sales
    route writes an absolute difference of units.
  - The sales route's quantity column matches any header containing `total`.
  - The stock route reports `notFound + nullUpdated` as `notFound`.
  - With pending keys but an empty change list, saving sends the empty list.
    The save route rejects it (`NeedChanges`) and the pending keys stay.
  - The bulk scenario action does not clear manual values, so a manual
    value still wins over the scenario.
