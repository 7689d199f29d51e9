/** `exportToExcel` (App.tsx:199-235): the result rows written to a
    one-sheet workbook whose columns are sized to their contents. The
    workbook writer and the download are not modelled; whether writing
    threw, and with which message, is a parameter. */
module Export {
  import opened Wrappers
  import opened JsText
  import opened Records
  import App

  const SheetName: string := "KetQuaTraCuu"
  const DownloadName: string := "ket_qua_tra_cuu_mst.xlsx"

  /** `Object.keys(row)`, in the order the row's object literal lists them:
      rows built on an error path have no `address` key. */
  function Keys(row: ResultRow): (keys: seq<string>)
    ensures |keys| == (if row.address.NoKey? then 3 else 4)
    ensures keys[0] == "taxCode" && keys[1] == "companyName" && keys[|keys| - 1] == "status"
    ensures !row.address.NoKey? ==> keys[2] == "address"
  {
    if row.address.NoKey? then ["taxCode", "companyName", "status"]
    else ["taxCode", "companyName", "address", "status"]
  }

  /** `(row[key] || '').toString()`: the cell's text, or "" when the key is
      absent, the value `undefined`, or the empty string. */
  function CellText(row: ResultRow, key: string): string {
    if key == "taxCode" then row.taxCode
    else if key == "companyName" then row.companyName
    else if key == "status" then row.status
    else if key == "address" then (if row.address.Given? then row.address.text else "")
    else ""
  }

  /** The length, in UTF-16 code units, of each cell of column `key`. */
  function CellLengths(results: seq<ResultRow>, key: string): (ls: seq<nat>)
    ensures |ls| == |results|
    ensures forall k :: 0 <= k < |results| ==> ls[k] == Utf16Length(CellText(results[k], key))
  {
    seq(|results|, k requires 0 <= k < |results| => Utf16Length(CellText(results[k], key)))
  }

  /** The largest of `xs`; 0 for none. */
  function MaxOf(xs: seq<nat>): nat {
    if xs == [] then 0
    else
      var rest := MaxOf(xs[..|xs| - 1]);
      if xs[|xs| - 1] > rest then xs[|xs| - 1] else rest
  }

  /** The widest cell of column `key`. */
  function WidestCell(results: seq<ResultRow>, key: string): nat {
    MaxOf(CellLengths(results, key))
  }

  /** The width of column `key`: `Math.max(key.length, ...cell lengths) + 2`. */
  function ColumnWidth(results: seq<ResultRow>, key: string): nat {
    var k := Utf16Length(key);
    var c := WidestCell(results, key);
    (if k > c then k else c) + 2
  }

  /** One width per key of the first row, in key order. */
  function ColumnWidths(results: seq<ResultRow>): (widths: seq<nat>)
    requires results != []
    ensures |widths| == |Keys(results[0])|
    ensures forall j :: 0 <= j < |widths| ==> widths[j] == ColumnWidth(results, Keys(results[0])[j])
  {
    var keys := Keys(results[0]);
    seq(|keys|, j requires 0 <= j < |keys| => ColumnWidth(results, keys[j]))
  }

  /** The file handed to the browser for download. */
  datatype Workbook = Workbook(sheet: string, rows: seq<ResultRow>, widths: seq<nat>, fileName: string)

  datatype ExportOutcome = ExportOutcome(app: App.AppState, download: Option<Workbook>)

  /** `exportToExcel`. `writeError` is the message of the exception the
      workbook writer or the download threw, if any. */
  function ExportToExcel(app: App.AppState, writeError: Option<string>): (o: ExportOutcome)
    ensures o.app == app.(status := o.app.status)
    ensures o.app.status == app.status.(message := o.app.status.message)
    ensures app.results == [] ==> o.app.status.message == NoData && o.download.None?
    ensures app.results != [] ==> (o.download.Some? <==> writeError.None?)
    ensures app.results != [] && writeError.Some? ==> o.app.status.message == ExportFailed(writeError.value)
    ensures o.download.Some? ==> o.app.status.message == Exported
  {
    if |app.results| == 0 then
      ExportOutcome(app.(status := app.status.(message := NoData)), None)
    else
      match writeError
      case Some(msg) => ExportOutcome(app.(status := app.status.(message := ExportFailed(msg))), None)
      case None =>
        var book := Workbook(SheetName, app.results, ColumnWidths(app.results), DownloadName);
        ExportOutcome(app.(status := app.status.(message := Exported)), Some(book))
  }

  // ---------------------------------------------------------------------
  // Properties.

  /** `MaxOf` bounds every element and, for a non-empty sequence, is one of
      them. */
  lemma {:induction false} MaxOfIsMaximum(xs: seq<nat>)
    ensures forall k :: 0 <= k < |xs| ==> xs[k] <= MaxOf(xs)
    ensures xs != [] ==> exists k :: 0 <= k < |xs| && xs[k] == MaxOf(xs)
    ensures xs == [] ==> MaxOf(xs) == 0
  {
    if xs != [] {
      var init := xs[..|xs| - 1];
      MaxOfIsMaximum(init);
      assert forall k :: 0 <= k < |init| ==> xs[k] == init[k];
      if init != [] && xs[|xs| - 1] <= MaxOf(init) {
        var k0 :| 0 <= k0 < |init| && init[k0] == MaxOf(init);
        assert xs[k0] == init[k0] == MaxOf(xs);
      } else {
        assert xs[|xs| - 1] == MaxOf(xs);
      }
    }
  }

  /** A column is two characters wider than its widest text, the header
      included: no cell is wider than the width minus two, and the header
      or some cell is exactly that wide. */
  lemma ColumnWidthIsTight(results: seq<ResultRow>, key: string)
    ensures Utf16Length(key) + 2 <= ColumnWidth(results, key)
    ensures forall k :: 0 <= k < |results| ==>
              Utf16Length(CellText(results[k], key)) + 2 <= ColumnWidth(results, key)
    ensures Utf16Length(key) + 2 == ColumnWidth(results, key)
            || exists k :: 0 <= k < |results| && Utf16Length(CellText(results[k], key)) + 2 == ColumnWidth(results, key)
  {
    MaxOfIsMaximum(CellLengths(results, key));
  }

  /** The column widths follow the keys of the first result row only: when
      that row came from an error path the address column gets no width,
      even if later rows have addresses. */
  lemma WidthsFollowFirstRow(results: seq<ResultRow>)
    requires results != []
    ensures results[0].address.NoKey? ==> |ColumnWidths(results)| == 3
    ensures !results[0].address.NoKey? ==>
              |ColumnWidths(results)| == 4 && ColumnWidths(results)[2] == ColumnWidth(results, "address")
  {
  }

  /** A successful export downloads every result row, in order, into the
      sheet and file the tool names, with the widths of the first row's
      columns. */
  lemma ExportWritesAllRows(app: App.AppState)
    requires app.results != []
    ensures var o := ExportToExcel(app, None);
      && o.download == Some(Workbook(SheetName, app.results, ColumnWidths(app.results), DownloadName))
      && o.app.results == app.results
  {
  }

  /** Exporting changes nothing but the panel's message, and exporting
      twice downloads the same workbook. */
  lemma ExportIsRepeatable(app: App.AppState, e1: Option<string>, e2: Option<string>)
    ensures var o := ExportToExcel(app, e1);
      ExportToExcel(o.app, e2).download == ExportToExcel(app, e2).download
  {
  }
}
