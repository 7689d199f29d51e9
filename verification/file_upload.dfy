/** The file picker (components/FileUpload.tsx): which files it accepts,
    what it shows, and what it reports to the application on a drop, on a
    change of the hidden `<input type="file">`, and on drag enter/leave. */
module FileUpload {
  import opened Wrappers
  import opened JsText

  /** A browser `File`: its name and its MIME type (`file.type`, "" when
      the browser does not know it). */
  datatype File = File(name: string, mime: string)

  const XlsxMime: string := "application/vnd.openxmlformats-officedocument.spreadsheetml.sheet"
  const XlsxSuffix: string := ".xlsx"
  const InvalidFileMessage: string := "File không hợp lệ. Vui lòng chọn file .xlsx"

  /** The component accepts a file whose MIME type is the spreadsheet type or
      whose name ends in ".xlsx", compared case-sensitively. */
  predicate Accepts(f: File) {
    f.mime == XlsxMime || EndsWith(f.name, XlsxSuffix)
  }

  /** The component's own state: the caption under the drop zone (`fileName`:
      a file name, the invalid-file message, or nothing) and whether a drag
      is over the zone. */
  datatype UploadState = UploadState(caption: Option<string>, dragging: bool)

  const InitialUpload: UploadState := UploadState(None, false)

  /** The state after `handleFile`, and the argument it passes to
      `onFileChange`. */
  datatype Handled = Handled(state: UploadState, reported: Option<File>)

  /** `handleFile`: an accepted file is shown and reported; a rejected file
      shows the invalid-file message and reports `null`; no file clears the
      caption and reports `null`. */
  function HandleFile(st: UploadState, file: Option<File>): (h: Handled)
    ensures h.state.dragging == st.dragging
    ensures h.reported.Some? ==> file.Some? && h.reported.value == file.value
    ensures file.Some? ==> (h.reported.Some? <==> Accepts(file.value))
    ensures h.reported.Some? ==> h.state.caption == Some(h.reported.value.name)
    ensures file.Some? && !Accepts(file.value) ==> h.state.caption == Some(InvalidFileMessage)
    ensures file.None? ==> h == Handled(st.(caption := None), None)
  {
    match file
    case Some(f) =>
      if Accepts(f) then Handled(st.(caption := Some(f.name)), Some(f))
      else Handled(st.(caption := Some(InvalidFileMessage)), None)
    case None => Handled(st.(caption := None), None)
  }

  /** What a drop or a change event leaves: the component's state, and the
      argument `onFileChange` was called with, if it was called at all. */
  datatype Notified = Notified(state: UploadState, callback: Option<Option<File>>)

  /** `handleDrop`: the drag highlight is cleared in every case; a drop on a
      disabled zone goes no further; otherwise the first dropped file, if
      any, goes through `handleFile`, and the other files are ignored. */
  function HandleDrop(st: UploadState, disabled: bool, files: seq<File>): (n: Notified)
    ensures !n.state.dragging
    ensures disabled || files == [] ==> n == Notified(st.(dragging := false), None)
    ensures !disabled && files != [] ==>
              var h := HandleFile(st, Some(files[0]));
              n == Notified(h.state.(dragging := false), Some(h.reported))
  {
    var cleared := st.(dragging := false);
    if disabled then Notified(cleared, None)
    else if |files| > 0 then
      var h := HandleFile(cleared, Some(files[0]));
      Notified(h.state, Some(h.reported))
    else Notified(cleared, None)
  }

  /** `handleChange`: the first chosen file goes through `handleFile`; a
      change with no file (the dialog was cancelled) reports `null`. The
      callback always fires. */
  function HandleChange(st: UploadState, files: seq<File>): (n: Notified)
    ensures n.callback.Some?
    ensures n.state.dragging == st.dragging
    ensures files == [] ==> n == Notified(st.(caption := None), Some(None))
    ensures files != [] ==>
              var h := HandleFile(st, Some(files[0]));
              n == Notified(h.state, Some(h.reported))
  {
    var h := HandleFile(st, if |files| > 0 then Some(files[0]) else None);
    Notified(h.state, Some(h.reported))
  }

  /** `handleDragEnter`: highlights the zone unless it is disabled. */
  function DragEnter(st: UploadState, disabled: bool): (st': UploadState)
    ensures st'.caption == st.caption
    ensures st'.dragging <==> st.dragging || !disabled
  {
    if disabled then st else st.(dragging := true)
  }

  /** `handleDragLeave`: removes the highlight, disabled or not. */
  function DragLeave(st: UploadState): (st': UploadState)
    ensures st' == UploadState(st.caption, false)
  {
    st.(dragging := false)
  }

  // ---------------------------------------------------------------------
  // Properties.

  /** A file is accepted exactly when it carries the spreadsheet MIME type
      or its name is some text followed by ".xlsx". */
  lemma AcceptsIffMimeOrSuffix(f: File)
    ensures Accepts(f) <==> f.mime == XlsxMime || exists p: string :: f.name == p + XlsxSuffix
  {
    EndsWithIffConcat(f.name, XlsxSuffix);
  }

  /** The suffix test is case-sensitive: "REPORT.XLSX" without the MIME type
      is rejected, while "report.xlsx" is accepted whatever its MIME type,
      and a file with the spreadsheet MIME type is accepted whatever its
      name. */
  lemma SuffixIsCaseSensitive(mime: string, name: string)
    ensures mime != XlsxMime ==> !Accepts(File("REPORT.XLSX", mime))
    ensures Accepts(File("report.xlsx", mime))
    ensures Accepts(File(name, XlsxMime))
  {
    assert "report.xlsx"[|"report.xlsx"| - |XlsxSuffix|..] == XlsxSuffix;
    assert "REPORT.XLSX"[|"REPORT.XLSX"| - |XlsxSuffix|..][1] == 'X';
  }

  /** Whatever event reaches `onFileChange`, the application is told either
      nothing or an accepted file: a rejected file is never reported. */
  lemma OnlyAcceptedFilesReported(st: UploadState, disabled: bool, files: seq<File>)
    ensures var d := HandleDrop(st, disabled, files);
      d.callback.Some? && d.callback.value.Some? ==>
        Accepts(d.callback.value.value) && d.callback.value.value == files[0]
    ensures var c := HandleChange(st, files);
      c.callback.value.Some? ==> Accepts(c.callback.value.value) && c.callback.value.value == files[0]
  {
  }

  /** Only the first file of a drop or a change matters: the files after it
      never change the outcome. */
  lemma FirstFileOnly(st: UploadState, disabled: bool, f: File, rest1: seq<File>, rest2: seq<File>)
    ensures HandleDrop(st, disabled, [f] + rest1) == HandleDrop(st, disabled, [f] + rest2)
    ensures HandleChange(st, [f] + rest1) == HandleChange(st, [f] + rest2)
  {
    assert ([f] + rest1)[0] == f && ([f] + rest2)[0] == f;
  }

  /** A disabled zone ignores drops and drag-enters: the caption stays and the
      application hears nothing. */
  lemma DisabledZoneIgnoresDrops(st: UploadState, files: seq<File>)
    ensures HandleDrop(st, true, files).callback.None?
    ensures HandleDrop(st, true, files).state.caption == st.caption
    ensures DragEnter(st, true) == st
  {
  }

  /** Entering then leaving leaves the zone unhighlighted and its caption as
      it was, whether or not it is disabled. */
  lemma EnterThenLeave(st: UploadState, disabled: bool)
    ensures DragLeave(DragEnter(st, disabled)) == st.(dragging := false)
  {
  }

  /** Handling the same file twice is the same as handling it once. */
  lemma HandleFileIdempotent(st: UploadState, file: Option<File>)
    ensures HandleFile(HandleFile(st, file).state, file) == HandleFile(st, file)
  {
  }
}
