/** The records the lookup tool keeps: one `ResultRow` per processed
    spreadsheet row and the `StatusInfo` panel shown to the user
    (types.ts), together with every status message the tool can leave
    on screen at the end of an operation. */
module Records {
  import JsText

  /** The `address` property of a result row. Rows built on an error path
      have no `address` key at all; a success row always has the key, whose
      value is whatever the registry sent (possibly `undefined`). The
      difference matters to `Object.keys` in the export. */
  datatype AddressField = NoKey | Undefined | Given(text: string)

  datatype ResultRow = ResultRow(
    taxCode: string,
    companyName: string,
    address: AddressField,
    status: string)

  const Blank: string := "(trống)"

  /** The fixed row recorded for a spreadsheet row without an identifier. */
  const SkippedRow: ResultRow := ResultRow(Blank, "Không có MST", NoKey, CrossMark + "Bỏ qua")

  /** The messages the status panel can show once an operation is over. */
  datatype Notice =
    | ChooseFile
    | FileChosen(fileName: string)
    | Reading
    | ReadFailed
    | MissingColumn
    | HaltedOnBlank(sheetRow: nat)
    | HaltedOnLookup(taxCode: string)
    | Completed(successes: nat, errors: nat)
    | ParseFailed(reason: string)
    | NoData
    | Exported
    | ExportFailed(reason: string)
  {
    /** The message reports that something went wrong. */
    predicate IsFailure() {
      ReadFailed? || MissingColumn? || ParseFailed? || ExportFailed?
    }

    /** The message reports that a run was stopped by the stop-on-error policy. */
    predicate IsHalt() {
      HaltedOnBlank? || HaltedOnLookup?
    }
  }

  /** The leading symbols of the messages: a cross mark for a failure, a
      warning sign (with its emoji presentation selector) for a stop on
      error, a check mark for a success. */
  const CrossMark: string := "\U{274C} "
  const WarningMark: string := "\U{26A0}\U{FE0F} "
  const CheckMark: string := "\U{2705} "

  /** The panel's text for each notice, with the tool's exact wording. */
  function Render(n: Notice): string {
    match n
    case ChooseFile => "Vui lòng chọn một file Excel để bắt đầu."
    case FileChosen(name) => "File đã chọn: " + name
    case Reading => "\U{1F504} Đang đọc file Excel..."
    case ReadFailed => CrossMark + "Lỗi đọc file."
    case MissingColumn => CrossMark + "Không tìm thấy cột 'MST' hoặc file trống."
    case HaltedOnBlank(row) => WarningMark + ("Đã dừng do dòng " + JsText.Show(row) + " không có MST.")
    case HaltedOnLookup(code) => WarningMark + ("Đã dừng do lỗi ở MST: " + code + ".")
    case Completed(s, e) => CheckMark + CompletedBody(s, e)
    case ParseFailed(reason) => CrossMark + ("Lỗi xử lý file Excel: " + reason)
    case NoData => "\U{2139}\U{FE0F} Không có dữ liệu để xuất."
    case Exported => CheckMark + "File Excel đã được tải xuống."
    case ExportFailed(reason) => CrossMark + ("Lỗi khi xuất Excel: " + reason)
  }

  /** The completion message after its check mark. */
  function CompletedBody(s: nat, e: nat): string {
    CompletedLead + (JsText.Show(s) + (CompletedMid + (JsText.Show(e) + CompletedTail)))
  }

  const CompletedLead: string := "Hoàn thành: "
  const CompletedMid: string := " thành công, "
  const CompletedTail: string := " lỗi."

  /** Every message is non-empty, and its first character tells the kind of
      outcome: a cross mark for a failure, a warning sign for a stop on
      error, a check mark for a completed run or export. */
  lemma RenderMarks(n: Notice)
    ensures Render(n) != []
    ensures n.IsFailure() ==> Render(n)[0] == '\U{274C}'
    ensures n.IsHalt() ==> Render(n)[0] == '\U{26A0}'
    ensures (n.Completed? || n.Exported?) ==> Render(n)[0] == '\U{2705}'
  {
    match n
    case ChooseFile =>
    case FileChosen(name) =>
    case Reading =>
    case ReadFailed => LeadingMark(CrossMark, "Lỗi đọc file.");
    case MissingColumn => LeadingMark(CrossMark, "Không tìm thấy cột 'MST' hoặc file trống.");
    case HaltedOnBlank(row) => LeadingMark(WarningMark, "Đã dừng do dòng " + JsText.Show(row) + " không có MST.");
    case HaltedOnLookup(code) => LeadingMark(WarningMark, "Đã dừng do lỗi ở MST: " + code + ".");
    case Completed(s, e) => LeadingMark(CheckMark, CompletedBody(s, e));
    case ParseFailed(reason) => LeadingMark(CrossMark, "Lỗi xử lý file Excel: " + reason);
    case NoData =>
    case Exported => LeadingMark(CheckMark, "File Excel đã được tải xuống.");
    case ExportFailed(reason) => LeadingMark(CrossMark, "Lỗi khi xuất Excel: " + reason);
  }

  lemma LeadingMark(mark: string, rest: string)
    requires mark != []
    ensures (mark + rest)[0] == mark[0]
  {
  }

  /** Different run outcomes show different completion messages: both
      counters can be read back from the text. */
  lemma CompletedInjective(s1: nat, e1: nat, s2: nat, e2: nat)
    requires Render(Completed(s1, e1)) == Render(Completed(s2, e2))
    ensures s1 == s2 && e1 == e2
  {
    var a1, b1 := JsText.Show(s1), JsText.Show(e1);
    var a2, b2 := JsText.Show(s2), JsText.Show(e2);
    DropPrefix(CheckMark, CompletedBody(s1, e1), CompletedBody(s2, e2));
    DropPrefix(CompletedLead, a1 + (CompletedMid + (b1 + CompletedTail)), a2 + (CompletedMid + (b2 + CompletedTail)));
    assert CompletedMid[0] == ' ';
    DigitsSplit(a1, CompletedMid + (b1 + CompletedTail), a2, CompletedMid + (b2 + CompletedTail));
    JsText.ShowInjective(s1, s2);
    DropPrefix(CompletedMid, b1 + CompletedTail, b2 + CompletedTail);
    assert CompletedTail[0] == ' ';
    DigitsSplit(b1, CompletedTail, b2, CompletedTail);
    JsText.ShowInjective(e1, e2);
  }

  lemma DropPrefix(p: string, x: string, y: string)
    requires p + x == p + y
    ensures x == y
  {
    assert x == (p + x)[|p|..];
    assert y == (p + y)[|p|..];
  }

  predicate IsDigit(c: char) {
    '0' <= c <= '9'
  }

  /** A run of digits followed by a non-digit is determined by the text it
      starts: the digits can be read back off the front. */
  lemma DigitsSplit(a1: string, r1: string, a2: string, r2: string)
    requires forall k :: 0 <= k < |a1| ==> IsDigit(a1[k])
    requires forall k :: 0 <= k < |a2| ==> IsDigit(a2[k])
    requires r1 != [] && !IsDigit(r1[0]) && r2 != [] && !IsDigit(r2[0])
    requires a1 + r1 == a2 + r2
    ensures a1 == a2 && r1 == r2
  {
    var k := if |a1| < |a2| then |a1| else |a2|;
    assert IsDigit((a1 + r1)[k]) <==> k < |a1|;
    assert IsDigit((a2 + r2)[k]) <==> k < |a2|;
    assert |a1| == |a2|;
    assert a1 == (a1 + r1)[..|a1|];
    assert a2 == (a2 + r2)[..|a2|];
    assert r1 == (a1 + r1)[|a1|..];
    assert r2 == (a2 + r2)[|a2|..];
  }

  /** The status panel. The source keeps a floating-point percentage; the
      model keeps the row it was computed from: the percentage shown is
      `100 * progressRows / total`. */
  datatype StatusInfo = StatusInfo(
    message: Notice,
    progressRows: nat,
    successCount: nat,
    errorCount: nat,
    total: nat)

  /** The panel as it is reset before a file is chosen and before a run. */
  function ResetStatus(message: Notice): StatusInfo {
    StatusInfo(message, 0, 0, 0, 0)
  }
}
