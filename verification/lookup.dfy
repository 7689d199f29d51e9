/** Turning one registry answer into one result row (App.tsx, the body of
    the `try`/`catch` around the `fetch` call). The network itself is not
    modelled: a `Lookup` is what the request produced. */
module Lookup {
  import opened Wrappers
  import opened Records

  /** The `data` object of a successful registry answer. */
  datatype Payload = Payload(id: string, name: string, address: Option<string>, status: string)

  /** What one lookup request produced.
      `Answered`: the body parsed as JSON; `code` is `None` when the field is
      absent or not a string, `desc` is `None` when absent or null, `data`
      is `None` when absent.
      `Failed`: `fetch` or `res.json()` threw; `message` is the error's
      `message` text. */
  datatype Lookup =
    | Answered(code: Option<string>, desc: Option<string>, data: Option<Payload>)
    | Failed(message: string)

  const SuccessCode: string := "00"

  /** The text of the `TypeError` a JavaScript engine (V8 wording) throws for
      `d.id` when `d` is `undefined`. */
  const UndefinedDataError: string := "Cannot read properties of undefined (reading 'id')"

  const UnknownError: string := "Lỗi không xác định"

  /** The registry accepted the identifier and sent the company record. */
  predicate Accepted(l: Lookup) {
    l.Answered? && l.code == Some(SuccessCode) && l.data.Some?
  }

  /** The registry's own description of a rejection, or the default text
      when the description is missing or empty (`json.desc || …`). */
  function RejectionText(desc: Option<string>): (t: string)
    ensures desc.Some? && desc.value != [] ==> t == desc.value
    ensures desc.None? || desc.value == [] ==> t == UnknownError
  {
    match desc
    case Some(d) => if d != [] then d else UnknownError
    case None => UnknownError
  }

  function AddressOf(a: Option<string>): AddressField {
    match a
    case Some(t) => Given(t)
    case None => Undefined
  }

  /** A network or decoding failure row. */
  function NetworkErrorRow(taxCode: string, message: string): ResultRow {
    ResultRow(taxCode, "Lỗi", NoKey, CrossMark + ("Lỗi mạng: " + message))
  }

  /** The row a looked-up identifier contributes, and whether it counts as a
      success. */
  datatype RowOutcome = RowOutcome(row: ResultRow, ok: bool)

  /** One looked-up row. Success is decided by the code `"00"` alone in the
      source; an answer with that code but no `data` is routed to the error
      path here, counted once (see `ClassifyAsWritten` for the source's
      double count). */
  function Classify(taxCode: string, l: Lookup): (o: RowOutcome)
    ensures o.ok <==> Accepted(l)
    ensures o.ok ==> o.row == ResultRow(l.data.value.id, l.data.value.name,
                                        AddressOf(l.data.value.address), l.data.value.status)
    ensures !o.ok ==> o.row.taxCode == taxCode && o.row.address == NoKey
    ensures !o.ok ==> CrossMark <= o.row.status
    ensures l.Failed? ==> o.row == NetworkErrorRow(taxCode, l.message)
    ensures l.Answered? && l.code != Some(SuccessCode) ==>
              o.row.companyName == "Không tìm thấy" && o.row.status == CrossMark + RejectionText(l.desc)
    ensures l.Answered? && l.code == Some(SuccessCode) && l.data.None? ==>
              o.row == NetworkErrorRow(taxCode, UndefinedDataError)
  {
    match l
    case Failed(msg) => RowOutcome(NetworkErrorRow(taxCode, msg), false)
    case Answered(code, desc, data) =>
      if code == Some(SuccessCode) then
        match data
        case Some(d) => RowOutcome(ResultRow(d.id, d.name, AddressOf(d.address), d.status), true)
        case None => RowOutcome(NetworkErrorRow(taxCode, UndefinedDataError), false)
      else
        RowOutcome(ResultRow(taxCode, "Không tìm thấy", NoKey, CrossMark + RejectionText(desc)), false)
  }

  /** One looked-up row exactly as App.tsx:131-157 runs it: how much each
      counter grows, the row pushed, and whether `errorOccurred` is set.
      `currentSuccessCount++` runs before `json.data` is dereferenced, so an
      answer with code `"00"` and no `data` bumps the success counter, then
      throws, and the `catch` bumps the error counter as well. */
  datatype RowEffect = RowEffect(successInc: nat, errorInc: nat, row: ResultRow, errorOccurred: bool)

  function ClassifyAsWritten(taxCode: string, l: Lookup): (e: RowEffect)
    ensures e.errorInc == (if e.errorOccurred then 1 else 0)
    ensures e.successInc == (if l.Answered? && l.code == Some(SuccessCode) then 1 else 0)
  {
    match l
    case Failed(msg) => RowEffect(0, 1, NetworkErrorRow(taxCode, msg), true)
    case Answered(code, desc, data) =>
      if code == Some(SuccessCode) then
        match data
        case Some(d) => RowEffect(1, 0, ResultRow(d.id, d.name, AddressOf(d.address), d.status), false)
        case None => RowEffect(1, 1, NetworkErrorRow(taxCode, UndefinedDataError), true)
      else
        RowEffect(0, 1, ResultRow(taxCode, "Không tìm thấy", NoKey, CrossMark + RejectionText(desc)), true)
  }

  /** On every answer except "code 00 without data" the source and the
      corrected classification agree: same row, and exactly one counter
      grows, the success counter precisely when the row is a success. */
  lemma AsWrittenAgreesOutsideMissingData(taxCode: string, l: Lookup)
    requires !(l.Answered? && l.code == Some(SuccessCode) && l.data.None?)
    ensures ClassifyAsWritten(taxCode, l).row == Classify(taxCode, l).row
    ensures ClassifyAsWritten(taxCode, l).successInc == (if Classify(taxCode, l).ok then 1 else 0)
    ensures ClassifyAsWritten(taxCode, l).errorInc == (if Classify(taxCode, l).ok then 0 else 1)
  {
  }

  /** The counterexample: an answer `{code: "00"}` without `data` adds one
      result row but grows both counters, so `successCount + errorCount`
      overtakes the number of rows. */
  lemma AsWrittenDoubleCounts(taxCode: string)
    ensures var e := ClassifyAsWritten(taxCode, Answered(Some(SuccessCode), None, None));
      e.successInc + e.errorInc == 2
  {
  }
}
