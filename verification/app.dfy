/** The application state of App.tsx and its two long operations:
    `processFile` (read the chosen workbook, check it, run the batch lookup)
    and `handleFileChange` (a file chosen through the picker). The
    asynchronous callbacks are folded into one function per operation,
    taking as parameters what the browser and the registry produced. */
module App {
  import opened Wrappers
  import opened Records
  import opened Driver
  import opened Lookup
  import FileUpload

  /** The state App.tsx keeps: the chosen file, the result rows, the status
      panel, `isLoading`, the stop-on-error switch, and `processingRef`, the
      guard against a second run. */
  datatype AppState = AppState(
    file: Option<FileUpload.File>,
    results: seq<ResultRow>,
    status: StatusInfo,
    loading: bool,
    stopOnError: bool,
    processing: bool)

  const InitialApp: AppState := AppState(None, [], ResetStatus(ChooseFile), false, false, false)

  /** What the spreadsheet library made of the file's bytes: an exception
      with its message, or the rows of the first sheet. */
  datatype ParseOutcome = ParseError(message: string) | Rows(rows: seq<SheetRow>)

  /** How the `FileReader` finished: it failed (an `error` event), it loaded
      nothing (`e.target.result` is empty), or it loaded bytes that the
      spreadsheet library parsed into `parse`. */
  datatype ReadEvent = ErrorEvent | EmptyLoad | Loaded(parse: ParseOutcome)

  /** The application after an operation, and what went out to the
      registry meanwhile. */
  datatype Outcome = Outcome(app: AppState, events: seq<Event>)

  /** `handleFileChange`: a file resets the results and the status panel
      and names the file; `null` only forgets the file. */
  function HandleFileChange(app: AppState, selected: Option<FileUpload.File>): (a: AppState)
    ensures a.file == selected && a.stopOnError == app.stopOnError
    ensures selected.None? ==> a == app.(file := None)
    ensures selected.Some? ==>
              && a.results == [] && !a.loading && !a.processing
              && a.status == ResetStatus(FileChosen(selected.value.name))
  {
    match selected
    case Some(f) =>
      AppState(selected, [], ResetStatus(FileChosen(f.name)), false, app.stopOnError, false)
    case None => app.(file := None)
  }

  /** The guard at the top of `processFile`: no file, or a run in progress. */
  predicate Ignored(app: AppState) {
    app.file.None? || app.processing
  }

  /** The state once `processFile` has passed its guard and started reading
      (App.tsx:52-62). */
  function Started(app: AppState): (a: AppState)
    ensures a.loading && a.processing && a.results == []
    ensures a.status == ResetStatus(Reading)
    ensures a.file == app.file && a.stopOnError == app.stopOnError
  {
    app.(loading := true, processing := true, results := [], status := ResetStatus(Reading))
  }

  /** Leaves the operation with message `m`: the rest of the panel as it
      was, `isLoading` and the guard cleared. */
  function Abandon(a: AppState, m: Notice): AppState {
    a.(status := a.status.(message := m), loading := false, processing := false)
  }

  /** The column check before any lookup: there is a first row and it has
      an `MST` key. */
  predicate HasIdColumn(rows: seq<SheetRow>) {
    |rows| > 0 && IdColumn in rows[0]
  }

  /** The panel message a finished run leaves. */
  function RunMessage(r: Run): Notice {
    match r.halt
    case Finished => Completed(r.tally.successes, r.tally.errors)
    case StoppedOnBlank(row) => HaltedOnBlank(row)
    case StoppedOnLookup(code) => HaltedOnLookup(code)
  }

  /** `reader.onload` (App.tsx:65-194) on a started state. */
  function OnLoad(s: AppState, loaded: Option<ParseOutcome>, oracle: Oracle): Outcome {
    match loaded
    case None => Outcome(Abandon(s, ReadFailed), [])
    case Some(ParseError(msg)) => Outcome(Abandon(s, ParseFailed(msg)), [])
    case Some(Rows(rows)) =>
      if !HasIdColumn(rows) then Outcome(Abandon(s, MissingColumn), [])
      else
        var r := Drive(rows, s.stopOnError, oracle);
        var status := StatusInfo(RunMessage(r), |r.tally.results|, r.tally.successes, r.tally.errors, |rows|);
        Outcome(s.(results := r.tally.results, status := status, loading := false, processing := false),
                r.tally.events)
  }

  /** `processFile` with a reader `error` event treated as a failed read
      (see the findings in README.md: App.tsx installs no `onerror`). */
  function ProcessFile(app: AppState, ev: ReadEvent, oracle: Oracle): (o: Outcome)
    ensures Ignored(app) ==> o == Outcome(app, [])
    ensures !Ignored(app) ==> !o.app.loading && !o.app.processing
    ensures o.app.file == app.file && o.app.stopOnError == app.stopOnError
  {
    if Ignored(app) then Outcome(app, [])
    else
      var s := Started(app);
      match ev
      case ErrorEvent => OnLoad(s, None, oracle)
      case EmptyLoad => OnLoad(s, None, oracle)
      case Loaded(p) => OnLoad(s, Some(p), oracle)
  }

  /** `processFile` with App.tsx's missing `onerror` handler: a failed read
      never reaches `onload`, and the started state stays. Otherwise it is
      `ProcessFile`, whose lookups count an answer with code "00" but no
      `data` as one error only (the code as written also counts a success
      for it, see `Lookup.ClassifyAsWritten`). */
  function ProcessFileAsWritten(app: AppState, ev: ReadEvent, oracle: Oracle): (o: Outcome)
    ensures ev != ErrorEvent ==> o == ProcessFile(app, ev, oracle)
  {
    if Ignored(app) then Outcome(app, [])
    else
      var s := Started(app);
      match ev
      case ErrorEvent => Outcome(s, [])
      case EmptyLoad => OnLoad(s, None, oracle)
      case Loaded(p) => OnLoad(s, Some(p), oracle)
  }

  // ---------------------------------------------------------------------
  // Properties of a run.

  /** A second `processFile` while a run is in progress does nothing: no
      state change and no request. */
  lemma GuardBlocksSecondRun(app: AppState, ev: ReadEvent, oracle: Oracle)
    requires app.processing
    ensures ProcessFile(app, ev, oracle) == Outcome(app, [])
  {
  }

  /** When the reader fails, finds no data, the sheet cannot be parsed, or
      the identifier column is missing, nothing is looked up, no result is
      kept, and the panel names the reason with a cross mark. */
  lemma FailuresMakeNoLookups(app: AppState, ev: ReadEvent, oracle: Oracle)
    requires !Ignored(app)
    requires !(ev.Loaded? && ev.parse.Rows? && HasIdColumn(ev.parse.rows))
    ensures var o := ProcessFile(app, ev, oracle);
      && o.events == [] && o.app.results == []
      && o.app.status.message.IsFailure()
      && o.app.status == ResetStatus(o.app.status.message)
      && (ev.ErrorEvent? || ev.EmptyLoad? ==> o.app.status.message == ReadFailed)
      && (ev.Loaded? && ev.parse.ParseError? ==> o.app.status.message == ParseFailed(ev.parse.message))
      && (ev.Loaded? && ev.parse.Rows? ==> o.app.status.message == MissingColumn)
  {
  }

  /** A run over a sheet with the identifier column: the results are the
      rows' contributions in row order, the panel's counters add up to the
      number of results and count the successes, its progress names the
      last processed row, its total is the sheet's row count, and the
      registry saw exactly the non-blank identifiers of the processed rows,
      in order. */
  lemma RunReportsItsRows(app: AppState, rows: seq<SheetRow>, oracle: Oracle)
    requires !Ignored(app) && HasIdColumn(rows)
    ensures var o := ProcessFile(app, Loaded(Rows(rows)), oracle);
      var ids := Identifiers(rows);
      var n := |o.app.results|;
      && n <= |rows|
      && (forall k :: 0 <= k < n ==> o.app.results[k] == ExpectedRow(ids, oracle, k))
      && o.app.status.successCount + o.app.status.errorCount == n
      && o.app.status.successCount == SuccessesBefore(ids, oracle, n)
      && o.app.status.progressRows == n && o.app.status.total == |rows|
      && Queries(o.events) == LookedUp(ids, n)
      && PausesFollowQueries(o.events)
  {
    RunFollowsRows(rows, app.stopOnError, oracle);
    RunOutcome(app, rows, oracle);
  }

  /** A run's outcome carries the driver's results and events, and counters
      taken from its tally. */
  lemma RunOutcome(app: AppState, rows: seq<SheetRow>, oracle: Oracle)
    requires !Ignored(app) && HasIdColumn(rows)
    ensures var o := ProcessFile(app, Loaded(Rows(rows)), oracle);
      var r := Drive(rows, app.stopOnError, oracle);
      && o.app.results == r.tally.results && o.events == r.tally.events
      && o.app.status.successCount == r.tally.successes && o.app.status.errorCount == r.tally.errors
      && o.app.status.progressRows == |r.tally.results| && o.app.status.total == |rows|
  {
  }

  /** The final message of a run: it reports completion, with the two
      counters, exactly when the run was not stopped; with the switch off it
      always does, after one result per row. */
  lemma RunMessageMatchesHalt(app: AppState, rows: seq<SheetRow>, oracle: Oracle)
    requires !Ignored(app) && HasIdColumn(rows)
    ensures var o := ProcessFile(app, Loaded(Rows(rows)), oracle);
      var r := Drive(rows, app.stopOnError, oracle);
      && (o.app.status.message.Completed? <==> r.halt == Finished)
      && (o.app.status.message.Completed? ==>
            o.app.status.message == Completed(o.app.status.successCount, o.app.status.errorCount))
      && (o.app.status.message.IsHalt() <==> r.halt != Finished)
      && (!app.stopOnError ==> o.app.status.message.Completed? && |o.app.results| == |rows|)
  {
    if !app.stopOnError {
      WithoutStopEveryRowIsProcessed(rows, oracle);
    }
  }

  /** With the switch on, a run that does not complete stopped on its last
      result, which is the first failing row: the panel names spreadsheet
      row `k + 2` for a blank 0-based row `k`, or the identifier whose
      lookup failed, and every earlier row succeeded. */
  lemma StopMessageNamesFirstFailure(app: AppState, rows: seq<SheetRow>, oracle: Oracle)
    requires !Ignored(app) && HasIdColumn(rows) && app.stopOnError
    ensures var o := ProcessFile(app, Loaded(Rows(rows)), oracle);
      var ids := Identifiers(rows);
      var n := |o.app.results|;
      var m := o.app.status.message;
      && (m.IsHalt() ==> 0 < n && !Succeeds(ids, oracle, n - 1)
                         && (forall k :: 0 <= k < n - 1 ==> Succeeds(ids, oracle, k)))
      && (m.HaltedOnBlank? ==> IsBlank(rows[n - 1]) && m.sheetRow == n + 1)
      && (m.HaltedOnLookup? ==> m.taxCode == ids[n - 1] && m.taxCode != "")
      && (m.Completed? <==> AllSucceed(ids, oracle, |rows|))
      && (m.Completed? ==> n == |rows|)
  {
    var r := Drive(rows, true, oracle);
    StopOnErrorHaltsAtFirstFailure(rows, oracle);
    if r.halt.StoppedOnBlank? {
      BlankAt(rows, |r.tally.results| - 1);
    }
  }

  lemma BlankAt(rows: seq<SheetRow>, k: nat)
    requires k < |rows| && Identifiers(rows)[k] == ""
    ensures IsBlank(rows[k])
  {
  }

  // ---------------------------------------------------------------------
  // The guard, as written and as corrected.

  /** Every operation that passes the guard clears it again, whatever the
      reader did: a later `processFile` is never locked out. */
  lemma GuardAlwaysCleared(app: AppState, ev: ReadEvent, oracle: Oracle)
    requires !Ignored(app)
    ensures var a := ProcessFile(app, ev, oracle).app;
      !a.processing && !a.loading && !Ignored(a)
  {
  }

  /** As written, a reader error leaves the application loading with the
      guard set: every later `processFile` is ignored, and the picker,
      disabled while loading, ignores dropped files. (Its file input is
      disabled as well, which this model does not cover.) */
  lemma AsWrittenReadErrorLocksOut(app: AppState, oracle: Oracle, ev2: ReadEvent, oracle2: Oracle,
                                   up: FileUpload.UploadState, files: seq<FileUpload.File>)
    requires !Ignored(app)
    ensures var a := ProcessFileAsWritten(app, ErrorEvent, oracle).app;
      && a.loading && a.processing
      && a.status.message == Reading
      && ProcessFileAsWritten(a, ev2, oracle2) == Outcome(a, [])
      && FileUpload.HandleDrop(up, a.loading, files).callback.None?
  {
  }

  /** Choosing a new file clears the guard. */
  lemma FileChangeClearsGuard(app: AppState, f: FileUpload.File)
    ensures !Ignored(HandleFileChange(app, Some(f)))
  {
  }

  /** An upload the picker rejects reaches the application as `null`: the
      file is forgotten, so `processFile` is ignored, while the panel and
      the results stay as they were. */
  lemma RejectedUploadForgetsFile(app: AppState, up: FileUpload.UploadState, files: seq<FileUpload.File>,
                                  ev: ReadEvent, oracle: Oracle)
    requires files != [] && !FileUpload.Accepts(files[0])
    ensures var n := FileUpload.HandleChange(up, files);
      var a := HandleFileChange(app, n.callback.value);
      && a == app.(file := None)
      && ProcessFile(a, ev, oracle) == Outcome(a, [])
  {
  }

  // ---------------------------------------------------------------------
  // Concrete sheets.

  /** The column check looks at the first row's keys only, and the
      spreadsheet library leaves empty cells out: a sheet whose first row
      has an empty identifier cell is rejected as having no identifier
      column, even when later rows have identifiers. */
  lemma EmptyFirstCellRejectsSheet(app: AppState, oracle: Oracle)
    requires !Ignored(app)
    ensures var rows := [map[], map[IdColumn := "0101243150"]];
      var o := ProcessFile(app, Loaded(Rows(rows)), oracle);
      o.app.status.message == MissingColumn && o.events == [] && o.app.results == []
  {
  }

  /** A first row whose identifier is a single space is blank: with the
      switch on, the run records the skipped row, looks nothing up, and
      stops naming spreadsheet row 2. */
  lemma WhitespaceIdentifierStops(app: AppState, oracle: Oracle)
    requires !Ignored(app) && app.stopOnError
    ensures var rows := [map[IdColumn := " "]];
      var o := ProcessFile(app, Loaded(Rows(rows)), oracle);
      && o.app.status.message == HaltedOnBlank(2)
      && o.app.results == [SkippedRow]
      && o.events == []
      && o.app.status == StatusInfo(HaltedOnBlank(2), 1, 0, 1, 1)
  {
    var rows: seq<SheetRow> := [map[IdColumn := " "]];
    JsText.TrimSpec(" ");
    assert TaxCodeOf(rows[0]) == "";
    assert Identifiers(rows) == [""];
    LoopUnfold([""], true, oracle, 0, EmptyTally);
  }

  /** An answer accepting the looked-up identifier. */
  function Accepting(id: string): Lookup {
    Answered(Some(SuccessCode), None, Some(Payload(id, "Công ty", None, "Đang hoạt động")))
  }

  /** Two identifiers that the registry both accepts: two result rows, two
      successes, no error, a completion message, and two requests with one
      pause between them. */
  lemma TwoAcceptedRows(app: AppState)
    requires !Ignored(app)
    ensures var rows := [map[IdColumn := "0300588569"], map[IdColumn := "0100109106"]];
      var oracle := (i: nat) => Accepting(if i == 0 then "0300588569" else "0100109106");
      var o := ProcessFile(app, Loaded(Rows(rows)), oracle);
      && |o.app.results| == 2
      && o.app.status == StatusInfo(Completed(2, 0), 2, 2, 0, 2)
      && o.events == [Query("0300588569"), Pause, Query("0100109106")]
  {
    var rows: seq<SheetRow> := [map[IdColumn := "0300588569"], map[IdColumn := "0100109106"]];
    var oracle := (i: nat) => Accepting(if i == 0 then "0300588569" else "0100109106");
    TwoIdentifiers();
    assert oracle(0) == Accepting("0300588569") && oracle(1) == Accepting("0100109106");
    TwoSuccesses(["0300588569", "0100109106"], app.stopOnError, oracle);
    DriveMatches(rows, app.stopOnError, oracle);
  }

  lemma TwoIdentifiers()
    ensures Identifiers([map[IdColumn := "0300588569"], map[IdColumn := "0100109106"]])
         == ["0300588569", "0100109106"]
  {
    JsText.TrimKeeps("0300588569");
    JsText.TrimKeeps("0100109106");
  }

  /** Two non-blank identifiers that both succeed: two successes, and the
      requests of both rows with the pause between them. */
  lemma TwoSuccesses(ids: seq<string>, stopOnError: bool, oracle: Oracle)
    requires |ids| == 2 && Succeeds(ids, oracle, 0) && Succeeds(ids, oracle, 1)
    ensures SuccessesBefore(ids, oracle, 2) == 2
    ensures EventsBefore(ids, stopOnError, oracle, 2) == [Query(ids[0]), Pause, Query(ids[1])]
  {
    assert EventsBefore(ids, stopOnError, oracle, 1) == [Query(ids[0]), Pause];
  }

  /** A sheet whose first identifier cell holds the empty string, with the
      switch on: one result row, a stop naming spreadsheet row 2, and no
      request at all, though the second row has an identifier. */
  lemma BlankFirstRowStops(app: AppState, oracle: Oracle)
    requires !Ignored(app) && app.stopOnError
    ensures var rows := [map[IdColumn := ""], map[IdColumn := "0100109106"]];
      var o := ProcessFile(app, Loaded(Rows(rows)), oracle);
      && o.app.results == [SkippedRow]
      && o.app.status.message == HaltedOnBlank(2)
      && o.events == []
  {
    var rows: seq<SheetRow> := [map[IdColumn := ""], map[IdColumn := "0100109106"]];
    var ids := Identifiers(rows);
    assert ids[0] == "";
    LoopUnfold(ids, true, oracle, 0, EmptyTally);
  }

  /** A request that fails in transport, with the switch off: the row is
      recorded as a network error carrying the message, counted as an
      error, and the run completes. */
  lemma NetworkFailureIsRecorded(app: AppState, message: string)
    requires !Ignored(app) && !app.stopOnError
    ensures var rows := [map[IdColumn := "0300588569"]];
      var o := ProcessFile(app, Loaded(Rows(rows)), (i: nat) => Failed(message));
      && o.app.results == [NetworkErrorRow("0300588569", message)]
      && o.app.status == StatusInfo(Completed(0, 1), 1, 0, 1, 1)
      && o.events == [Query("0300588569")]
  {
    var rows: seq<SheetRow> := [map[IdColumn := "0300588569"]];
    var oracle := (i: nat) => Failed(message);
    JsText.TrimKeeps("0300588569");
    var ids := Identifiers(rows);
    assert ids == ["0300588569"];
    LoopUnfold(ids, false, oracle, 0, EmptyTally);
  }
}
