# Batch tax-code lookup: a Dafny model

A single-page tool reads an Excel workbook, takes the `MST` (tax code)
column of its first sheet, and looks up each code in a public business
registry. It shows one result row per processed spreadsheet row, counts
successes and errors, and can export the results to a new workbook. This
project models the core of that tool and proves properties of the model:

- `processFile` (App.tsx), in modules `App` and `Driver`:
  - the guard against a second run;
  - the reader and parser outcomes;
  - the check for the identifier column, which looks at the first row only;
  - the batch loop: trim, skip blank rows, one registry request per
    non-blank row, two counters, the stop-on-error switch, and the
    two-second pause between requests;
  - the panel message left at the end.
- `handleFileChange` (App.tsx), in module `App`.
- `exportToExcel` (App.tsx), in module `Export`: the no-data case, the
  download, and the column-width rule.
- The file picker (components/FileUpload.tsx), in module `FileUpload`:
  - which files are accepted;
  - what the zone shows;
  - what it reports to the application on a drop or a change;
  - the drag highlight.

Supporting modules:

- `JsText`: the JavaScript string primitives the tool relies on. These are
  `trim`, `endsWith`, `length` in UTF-16 code units, and decimal printing.
- `Records`: the `ResultRow` and `StatusInfo` records of types.ts, and the
  panel messages as a `Notice` datatype. `Records.Render` gives each
  message's exact text.
- `Lookup`: a registry answer, and the way one answer becomes a result row.

The network is an oracle, `Driver.Oracle = nat -> Lookup`. It gives the
answer the registry returns for the request made on 0-based row `i`. A
blank row never consults it. The observable side effects of a run are a
list of events: `Query(code)` for each request and `Pause` for each
two-second delay. Contracts state which requests a run makes and where the
pauses fall.

The batch loop is given twice:

- `Driver.Loop` is a recursive fold.
- `Driver.ProcessRows` is a `while` loop that mirrors App.tsx:94-179.

Both are proved equal to a reference description of the whole run, which
is stated row by row: `ExpectedRow`, `SuccessesBefore`, `EventsBefore` and
`LookedUp`.

Column widths on export come from `Object.keys(results[0])`: one width
per key of the first result row. A first row built on an error path has no
`address` key, so the address column then gets no width, whatever the
later rows hold (`Export.WidthsFollowFirstRow`).

## Model

| member | source | states |
|---|---|---|
| JsText.TrimSpec | App.tsx:96 | `trim` yields the empty string exactly when the cell is all whitespace; otherwise its result neither starts nor ends with whitespace, and it sits in the cell with only whitespace on either side |
| JsText.TrimIdempotent | App.tsx:96 | trimming a trimmed identifier changes nothing |
| Driver.BlankIffMissingOrWhitespace | App.tsx:96 | a row is blank (`!taxCode`) exactly when its `MST` cell is missing or holds only whitespace |
| Driver.Step | App.tsx:104-178 | one row appends exactly one result (its expected row), bumps exactly one counter (the success counter iff the row succeeds), makes its request and pause, and breaks iff the switch is on and the row failed, naming that row |
| Driver.Loop | App.tsx:94-179 | the loop only appends results, never more than one per remaining row; every appended result bumps exactly one counter; with the switch off it finishes after one result per row |
| Driver.ProcessRows | App.tsx:94-179 | the imperative loop, with its `continue` and `break`s, computes exactly the run `Drive` describes; the counters add up to the number of results; with the switch off every row gets a result |
| Driver.ProcessRow | App.tsx:95-178 | the loop body on row `i` produces exactly the step of the fold on that row, halting exactly when the fold breaks |
| Driver.DriveMatches | App.tsx:94-179 | a whole run agrees with the row-by-row reference: results, counters and events of the processed rows, and an early stop only under the switch, right after the first failing row |
| Driver.RunFollowsRows | App.tsx:94-179 | result `k` is row `k`'s contribution, in order; successes plus errors equal the number of results; the success count is the number of successful rows; the requests are exactly the non-blank identifiers of the processed rows, in order; every pause directly follows a request |
| Driver.WithoutStopEveryRowIsProcessed | App.tsx:94-179 | with the switch off the run finishes with one result per row, in row order, and every non-blank identifier is requested |
| Driver.StopOnErrorHaltsAtFirstFailure | App.tsx:114-173 | with the switch on: every row before the last processed one succeeded; the run finishes iff every row succeeds, and a finished run processed every row; otherwise the last processed row failed, a blank stop names spreadsheet row `i + 2`, a failed lookup is the last event, and no later row is requested |
| Driver.LookedUpNonBlank | App.tsx:104-128 | a blank identifier is never requested, and every requested identifier comes from a processed row |
| Driver.EventsQueryLookedUp | App.tsx:104-128 | the requests made for the first `n` rows are exactly their non-blank identifiers, in row order |
| Driver.EventsPauseAfterQuery | App.tsx:175-178 | every pause directly follows a request: skipped blank rows never cause a pause |
| Driver.RequestsFollowPauses | App.tsx:175-178 | the throttle: in any run every request but the first comes directly after a two-second pause, so no two requests are sent back to back |
| Driver.LastLookupHasNoPause | App.tsx:176-178 | when the last row is looked up, the run ends with its request, with no pause after it |
| Driver.ExpectedRowShape | App.tsx:104-157 | a successful row carries the registry's `id/name/address/status`, not the cell; any other row's status starts with the cross mark; a blank row is the fixed skipped row; a failed lookup keeps the trimmed identifier |
| Driver.AllSucceedIffCount | App.tsx:132-142 | all of the first `n` rows succeeded exactly when the success counter reached `n` |
| Lookup.Classify | App.tsx:127-157 | a looked-up row counts as a success iff the answer has code `"00"` and data; a success copies the payload; any failure keeps the identifier, has no address key, and its status starts with the cross mark; a rejection is "Không tìm thấy" with the registry's description or the default text; a transport failure is the network-error row carrying its message; code `"00"` without data is the network-error row with the `undefined` dereference message |
| Lookup.RejectionText | App.tsx:146 | a rejection shows the registry's description when it is present and non-empty, and the fixed "unknown error" text otherwise |
| Lookup.ClassifyAsWritten | App.tsx:131-157 | as written, the success counter grows whenever the code is `"00"`, and the error counter whenever `errorOccurred` is set |
| Lookup.AsWrittenAgreesOutsideMissingData | App.tsx:127-157 | on every answer but "code `"00"` without data", the code as written and the corrected classification give the same row and bump exactly one counter |
| Lookup.AsWrittenDoubleCounts | App.tsx:131-139 | an answer with code `"00"` and no data bumps both counters for a single result row |
| Records.RenderMarks | App.tsx:181-189 | every panel message is non-empty; failures start with the cross mark, stops with the warning sign, and completions and exports with the check mark |
| Records.CompletedInjective | App.tsx:184 | the completion text determines both counters: different counts never print the same message |
| App.HandleFileChange | App.tsx:41-47 | a chosen file clears the results and the guard and names the file in the panel; `null` only forgets the file; the switch is kept |
| App.Started | App.tsx:52-62 | once past the guard, the tool is loading, the guard is set, the old results are gone and the panel reads "Reading" with every counter, the progress and the total at 0 |
| App.ProcessFile | App.tsx:49-197 | with no file or a run in progress nothing changes and nothing is requested; otherwise loading and the guard end cleared; the file and the switch are never changed |
| App.ProcessFileAsWritten | App.tsx:64-196 | apart from a reader error, which leaves the started state in place, it behaves as `App.ProcessFile` (which counts code "00" without `data` as one error only, see Left out) |
| App.GuardBlocksSecondRun | App.tsx:50 | a call while a run is in progress changes nothing and makes no request |
| App.FailuresMakeNoLookups | App.tsx:65-85 | a failed read, a parse error, an empty sheet or a first row without `MST` makes no request and keeps no result, the panel names the reason with a failure message, and its counters, progress and total read 0 |
| App.EmptyFirstCellRejectsSheet | App.tsx:80-85 | a sheet whose first row lacks the `MST` key is rejected as having no identifier column, though a later row has one |
| App.RunReportsItsRows | App.tsx:87-179 | after a run the panel's counters add up to the number of results and count the successes; progress names the last processed row; the total is the sheet's row count; the results and requests follow the rows in order |
| App.RunMessageMatchesHalt | App.tsx:181-186 | the completion message, with both counters, is shown exactly when the run was not stopped; with the switch off it is always shown, after one result per row |
| App.StopMessageNamesFirstFailure | App.tsx:114-173 | with the switch on, a stop message names the first failing row (spreadsheet row `k + 2` for a blank 0-based row `k`) or the identifier whose lookup failed, and every earlier row succeeded; a completed run has one result per row |
| App.GuardAlwaysCleared | App.tsx:64-196 | every exit of a started run clears loading and the guard, so a later run is never locked out |
| App.AsWrittenReadErrorLocksOut | App.tsx:64-196 | as written, a reader error leaves loading and the guard set: every later run is ignored, and the disabled picker ignores drops |
| App.FileChangeClearsGuard | App.tsx:41-47 | choosing a new file clears the guard |
| App.RejectedUploadForgetsFile | components/FileUpload.tsx:18-20 | a rejected upload reaches the application as `null`: the file is forgotten and a run is then ignored, while results and panel stay |
| App.WhitespaceIdentifierStops | App.tsx:96-121 | with the switch on, a one-row sheet whose identifier is a single space records the skipped row, requests nothing, and stops naming spreadsheet row 2 |
| App.BlankFirstRowStops | App.tsx:104-121 | with the switch on, an empty first identifier stops the run at once: one skipped row and no request, though the second row has an identifier |
| App.TwoAcceptedRows | App.tsx:94-186 | two accepted identifiers give two results, the completion message "2 successes, 0 errors", and two requests with one pause between them |
| App.NetworkFailureIsRecorded | App.tsx:149-157 | with the switch off, a request that fails in transport records the network-error row with the message, counts one error, and the run completes |
| Export.Keys | App.tsx:212 | a row from an error path has the three keys `taxCode`, `companyName`, `status`; a successful row has `address` as its third key, before `status` |
| Export.MaxOfIsMaximum | App.tsx:213-216 | the maximum bounds every cell length and is one of them (0 for no cells) |
| Export.ColumnWidthIsTight | App.tsx:212-217 | each column is exactly two wider than its widest text, the header included: no cell is wider, and the header or some cell reaches that width |
| Export.ColumnWidths | App.tsx:212-217 | there is one width per key of the first result row, in key order |
| Export.WidthsFollowFirstRow | App.tsx:212 | a first row from an error path yields three widths and no address column, whatever the later rows hold |
| Export.ExportToExcel | App.tsx:199-235 | only the panel message changes; no results gives the no-data message and no download; otherwise there is a download iff writing succeeds, and the message reports the export or the writer's error |
| Export.ExportWritesAllRows | App.tsx:205-231 | a successful export downloads every result row, in order, in sheet `KetQuaTraCuu` of `ket_qua_tra_cuu_mst.xlsx`, sized by the first row's columns |
| Export.ExportIsRepeatable | App.tsx:199-235 | exporting changes nothing a second export depends on: it downloads the same workbook |
| FileUpload.AcceptsIffMimeOrSuffix | components/FileUpload.tsx:15 | a file is accepted exactly when its MIME type is the spreadsheet type or its name is some text followed by `.xlsx` |
| FileUpload.SuffixIsCaseSensitive | components/FileUpload.tsx:15 | `REPORT.XLSX` without the MIME type is rejected; `report.xlsx` is accepted whatever its type; the spreadsheet MIME type is accepted whatever the name |
| FileUpload.HandleFile | components/FileUpload.tsx:14-25 | a file is reported iff it is accepted, and it is then the file shown; a rejected file shows the invalid-file message and reports `null`; no file clears the caption and reports `null` |
| FileUpload.HandleFileIdempotent | components/FileUpload.tsx:14-25 | handling the same file twice is the same as handling it once |
| FileUpload.HandleDrop | components/FileUpload.tsx:44-54 | a drop always clears the highlight; a disabled zone or an empty drop goes no further; otherwise the first file goes through `handleFile` |
| FileUpload.HandleChange | components/FileUpload.tsx:56-63 | the callback always fires: with the first chosen file it leaves exactly the caption and report of `handleFile` on that file; with nothing chosen it reports `null` and clears the caption |
| FileUpload.DragEnter | components/FileUpload.tsx:27-31 | the caption stays; the zone is highlighted afterwards iff it was already highlighted or is enabled |
| FileUpload.DragLeave | components/FileUpload.tsx:33-37 | leaving clears the highlight and keeps the caption, disabled or not |
| FileUpload.OnlyAcceptedFilesReported | components/FileUpload.tsx:14-63 | a drop or a change reports either nothing, `null`, or the first file, which is then accepted |
| FileUpload.FirstFileOnly | components/FileUpload.tsx:50-62 | the files after the first never change the outcome of a drop or a change |
| FileUpload.DisabledZoneIgnoresDrops | components/FileUpload.tsx:44-54 | a disabled zone ignores drops and drag-enters: the caption stays and the application hears nothing |
| FileUpload.EnterThenLeave | components/FileUpload.tsx:27-37 | entering then leaving restores the caption and leaves the zone unhighlighted |

## Left out

- Parsing and writing spreadsheets (`XLSX.read`, `sheet_to_json`, `json_to_sheet`, `XLSX.write`) are foreign library calls. The parsed rows, or the parser's error message, are an input. Whether the writer or the download threw, and with which message, is a parameter.
- Cells are modelled as strings. `toString()` of a numeric or boolean cell is not modelled.
- `fetch` and the JSON decoding are replaced by the oracle. The oracle always answers, so a request that never settles is not modelled.
- Payload fields are taken to be strings. A missing optional field and a JSON `null` are both `None`.
- Lookup.Classify: an answer whose `data` is JSON `null` is merged with a missing `data`. The code throws "Cannot read properties of null (reading 'id')" for it, while the model records the `undefined` wording.
- The file input is disabled while a run is loading (the `disabled` attribute of the hidden input); `FileUpload.HandleChange` has no `disabled` flag, because a disabled input fires no change event.
- `FileReader`, the `setTimeout` pause and the Blob/URL download are browser I/O. The pause appears only as a `Pause` event.
- The progress percentage is floating point. It is kept as the number of processed rows, `progressRows`, with progress equal to `100 * progressRows / total`.
- The messages shown while the loop runs ("🔎 [i/n] …") and during export ("📤 …") are not modelled. Every one is overwritten before the operation ends, so only the final message is.
- React's state batching, the intermediate `setState` snapshots, and a `handleFileChange` reset that lands while a reader callback is in flight are asynchronous UI concerns. Each operation is one step from state to state.
- The rendering components (StatusDisplay, ResultsTable, ExportButton, StopOnErrorSwitch, TemplateButton), `handleDragOver` and `handleClick` have no logic to prove.
- The `ProcessButton` component is not part of this model.
- App.ProcessFile: treats a reader `error` event like an empty read (the corrected behaviour, see Findings). The code as written is `App.ProcessFileAsWritten`.
- App.ProcessFileAsWritten: is the code as written only for the missing `onerror` handler. Its lookups use the corrected `Lookup.Classify`, so a `{code: "00"}` answer without `data` counts one error, where App.tsx:131-139 followed by 149-151 counts one success and one error; that double count is modelled at row level by `Lookup.ClassifyAsWritten` and `Lookup.AsWrittenDoubleCounts`.
- Lookup.Classify: counts an answer with code `"00"` but no data once, as an error (the corrected behaviour, see Findings). The code as written is `Lookup.ClassifyAsWritten`.

## Findings

| source | as written | input that shows it | evidently intended | confidence | as-written member | corrected member |
|---|---|---|---|---|---|---|
| App.tsx:131-139 | `currentSuccessCount++` runs before `json.data` is dereferenced. An answer with code `"00"` and no `data` then throws, and the `catch` adds an error as well. | registry answer `{"code": "00"}` with no `data` | one result row bumps exactly one counter, so `successCount + errorCount` equals the number of results | not executed | Lookup.AsWrittenDoubleCounts | Lookup.Classify |
| App.tsx:64-196 | Only `reader.onload` is installed. A read that fails fires `error`, never `onload`, so `isLoading` and `processingRef` stay set. | a file that cannot be read after it was chosen (e.g. removed from disk) | every exit of a run clears loading and the guard, as the other failure paths do | not executed | App.AsWrittenReadErrorLocksOut | App.GuardAlwaysCleared |
