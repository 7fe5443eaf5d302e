/**
 * The request body the Google Sheets adapter sends to create a spreadsheet:
 * one sheet entry per sheet, each with a single grid whose rows and cells
 * mirror the sheet's rows, an empty cell carrying no value. Also the reading
 * of an error response body.
 */
module SheetsPayload {
  import opened Results
  import opened Text
  import opened Converter

  /** `extendedValue`: a cell's entered value, always a string here. */
  datatype ExtendedValue = ExtendedValue(stringValue: string)

  /** `cellData`: `None` is a cell without `userEnteredValue`. */
  datatype CellData = CellData(userEnteredValue: Option<ExtendedValue>)

  datatype RowData = RowData(values: seq<CellData>)

  datatype GridData = GridData(rowData: seq<RowData>)

  /** `sheetPayload`: the sheet's title and its grid data. */
  datatype SheetPayload = SheetPayload(title: string, data: seq<GridData>)

  /** `spreadsheetPayload`: the spreadsheet's title and its sheets. */
  datatype SpreadsheetPayload = SpreadsheetPayload(title: string, sheets: seq<SheetPayload>)

  datatype PayloadError = MissingTitle

  // ---------------------------------------------------------------------------
  // The payload as a function of the spreadsheet
  // ---------------------------------------------------------------------------

  function CellOf(value: string): CellData {
    if value == "" then CellData(None) else CellData(Some(ExtendedValue(value)))
  }

  function RowOf(row: seq<string>): RowData {
    RowData(seq(|row|, k requires 0 <= k < |row| => CellOf(row[k])))
  }

  function GridOf(rows: seq<seq<string>>): GridData {
    GridData(seq(|rows|, k requires 0 <= k < |rows| => RowOf(rows[k])))
  }

  function SheetOf(sheet: RemoteSheet): SheetPayload {
    SheetPayload(sheet.title, [GridOf(sheet.rows)])
  }

  function PayloadOf(spreadsheet: RemoteSpreadsheet): SpreadsheetPayload {
    SpreadsheetPayload(spreadsheet.title, seq(|spreadsheet.sheets|, k requires 0 <= k < |spreadsheet.sheets| => SheetOf(spreadsheet.sheets[k])))
  }

  // ---------------------------------------------------------------------------
  // Reading a payload back
  // ---------------------------------------------------------------------------

  /** The text a cell shows: its string value, or "" when it has none. */
  function CellText(cell: CellData): string {
    if cell.userEnteredValue.None? then "" else cell.userEnteredValue.value.stringValue
  }

  function RowText(row: RowData): seq<string> {
    seq(|row.values|, k requires 0 <= k < |row.values| => CellText(row.values[k]))
  }

  /** The rows of a sheet entry: those of its first grid. */
  function SheetText(sheet: SheetPayload): RemoteSheet {
    var rows := if sheet.data == [] then [] else sheet.data[0].rowData;
    RemoteSheet(sheet.title, seq(|rows|, k requires 0 <= k < |rows| => RowText(rows[k])))
  }

  function ReadBack(payload: SpreadsheetPayload): RemoteSpreadsheet {
    RemoteSpreadsheet(payload.title, seq(|payload.sheets|, k requires 0 <= k < |payload.sheets| => SheetText(payload.sheets[k])))
  }

  /** Reading the payload back gives the spreadsheet it was built from. */
  lemma PayloadReadsBack(spreadsheet: RemoteSpreadsheet)
    ensures ReadBack(PayloadOf(spreadsheet)) == spreadsheet
  {
    var back := ReadBack(PayloadOf(spreadsheet));
    assert |back.sheets| == |spreadsheet.sheets|;
    forall k | 0 <= k < |spreadsheet.sheets|
      ensures back.sheets[k] == spreadsheet.sheets[k]
    {
      SheetReadsBack(spreadsheet.sheets[k]);
    }
  }

  lemma SheetReadsBack(sheet: RemoteSheet)
    ensures SheetText(SheetOf(sheet)) == sheet
  {
    var back := SheetText(SheetOf(sheet));
    assert |back.rows| == |sheet.rows|;
    forall i | 0 <= i < |sheet.rows|
      ensures back.rows[i] == sheet.rows[i]
    {
      RowReadsBack(sheet.rows[i]);
    }
  }

  lemma RowReadsBack(row: seq<string>)
    ensures RowText(RowOf(row)) == row
  {
    var back := RowText(RowOf(row));
    assert |back| == |row|;
    forall j | 0 <= j < |row|
      ensures back[j] == row[j]
    {
      assert back[j] == CellText(CellOf(row[j]));
    }
  }

  /** Different spreadsheets give different payloads. */
  lemma PayloadInjective(s1: RemoteSpreadsheet, s2: RemoteSpreadsheet)
    requires PayloadOf(s1) == PayloadOf(s2)
    ensures s1 == s2
  {
    PayloadReadsBack(s1);
    PayloadReadsBack(s2);
  }

  /**
   * The payload's shape: one sheet entry per sheet with its title, each with
   * exactly one grid holding as many rows as the sheet and as many cells per
   * row as the row has values; a cell has no value exactly when its text is
   * empty, and otherwise carries that text.
   */
  lemma PayloadShape(spreadsheet: RemoteSpreadsheet, k: nat, i: nat, j: nat)
    requires k < |spreadsheet.sheets|
    ensures var p := PayloadOf(spreadsheet); var sheet := spreadsheet.sheets[k];
      && p.title == spreadsheet.title && |p.sheets| == |spreadsheet.sheets|
      && p.sheets[k].title == sheet.title && |p.sheets[k].data| == 1
      && |p.sheets[k].data[0].rowData| == |sheet.rows|
      && (i < |sheet.rows| ==>
            && |p.sheets[k].data[0].rowData[i].values| == |sheet.rows[i]|
            && (j < |sheet.rows[i]| ==>
                  var cell := p.sheets[k].data[0].rowData[i].values[j];
                  && (cell.userEnteredValue.None? <==> sheet.rows[i][j] == "")
                  && (cell.userEnteredValue.Some? ==> cell.userEnteredValue.value.stringValue == sheet.rows[i][j])))
  {
  }

  // ---------------------------------------------------------------------------
  // buildSpreadsheetPayload
  // ---------------------------------------------------------------------------

  /** The cell loop: one cell per value, a value only for non-empty text. */
  method BuildRow(row: seq<string>) returns (r: RowData)
    ensures r == RowOf(row)
  {
    var cells: seq<CellData> := [];
    for j := 0 to |row|
      invariant |cells| == j
      invariant forall m :: 0 <= m < j ==> cells[m] == CellOf(row[m])
    {
      var cell := CellData(None);
      if row[j] != "" {
        cell := CellData(Some(ExtendedValue(row[j])));
      }
      cells := cells + [cell];
    }
    return RowData(cells);
  }

  /** The row loop of one sheet. */
  method BuildGrid(rows: seq<seq<string>>) returns (g: GridData)
    ensures g == GridOf(rows)
  {
    var data: seq<RowData> := [];
    for i := 0 to |rows|
      invariant |data| == i
      invariant forall m :: 0 <= m < i ==> data[m] == RowOf(rows[m])
    {
      var row := BuildRow(rows[i]);
      data := data + [row];
    }
    return GridData(data);
  }

  /**
   * `buildSpreadsheetPayload`: an empty title is refused; otherwise the
   * payload holds one sheet entry per sheet, in order.
   */
  method BuildSpreadsheetPayload(spreadsheet: RemoteSpreadsheet) returns (r: Result<SpreadsheetPayload, PayloadError>)
    ensures spreadsheet.title == "" ==> r == Err(MissingTitle)
    ensures spreadsheet.title != "" ==> r == Ok(PayloadOf(spreadsheet))
  {
    if spreadsheet.title == "" {
      return Err(MissingTitle);
    }
    var sheets: seq<SheetPayload> := [];
    for k := 0 to |spreadsheet.sheets|
      invariant |sheets| == k
      invariant forall m :: 0 <= m < k ==> sheets[m] == SheetOf(spreadsheet.sheets[m])
    {
      var sheet := spreadsheet.sheets[k];
      var grid := BuildGrid(sheet.rows);
      sheets := sheets + [SheetPayload(sheet.title, [grid])];
    }
    assert sheets == PayloadOf(spreadsheet).sheets;
    return Ok(SpreadsheetPayload(spreadsheet.title, sheets));
  }

  /**
   * The request a successful `Create` sends reads back as the collected
   * sheets: each sheet's first row is the header and each further row the
   * columns of one case.
   */
  lemma CreatedPayloadReadsBack(parse: Parser, title: string, sources: seq<Source>)
    requires AllParse(parse, sources)
    ensures var back := ReadBack(PayloadOf(RemoteSpreadsheet(title, RemoteSheets(SheetsFor(parse, sources)))));
      && back.title == title && |back.sheets| == |sources|
      && forall k :: 0 <= k < |sources| ==>
           back.sheets[k].rows == [Header] + CaseRows(parse(sources[k].input).value)
  {
    var spreadsheet := RemoteSpreadsheet(title, RemoteSheets(SheetsFor(parse, sources)));
    PayloadReadsBack(spreadsheet);
  }

  // ---------------------------------------------------------------------------
  // readErrorMessage
  // ---------------------------------------------------------------------------

  /** At most this much of an error body is read. */
  const ErrorBodyLimit: nat := 4096

  datatype MessageError = ReadFailed | EmptyBody

  /** The part of a body `readErrorMessage` reads: all of it, or its first `ErrorBodyLimit` characters. */
  function BodyRead(body: string): (data: string)
    ensures |data| == if |body| <= ErrorBodyLimit then |body| else ErrorBodyLimit
    ensures data == body[..|data|]
  {
    if |body| <= ErrorBodyLimit then body else body[..ErrorBodyLimit]
  }

  /**
   * `readErrorMessage`: the first `ErrorBodyLimit` characters of the body,
   * trimmed of surrounding whitespace; a failed read, or a body that is all
   * whitespace, is an error.
   */
  function ReadErrorMessage(body: string, readFails: bool): (r: Result<string, MessageError>)
    ensures readFails ==> r == Err(ReadFailed)
    ensures !readFails ==>
      var data := BodyRead(body);
      (r.Ok? <==> exists k :: 0 <= k < |data| && !IsSpace(data[k]))
    ensures r.Err? ==> r.error == ReadFailed || r.error == EmptyBody
    ensures r.Ok? ==> r.value != [] && Trimmed(r.value)
  {
    if readFails then Err(ReadFailed)
    else
      var data := BodyRead(body);
      var trimmed := TrimSpace(data);
      TrimSpaceEmpty(data);
      if trimmed == "" then Err(EmptyBody) else Ok(trimmed)
  }

  /**
   * The message is the slice of the body between the first and last
   * non-whitespace characters of the part read; whatever lies past the
   * limit plays no part.
   */
  lemma ErrorMessageIsSlice(body: string, i: nat, j: nat)
    requires i < j <= |BodyRead(body)| && !IsSpace(body[i]) && !IsSpace(body[j - 1])
    requires forall k :: 0 <= k < i ==> IsSpace(body[k])
    requires forall k :: j <= k < |BodyRead(body)| ==> IsSpace(body[k])
    ensures ReadErrorMessage(body, false) == Ok(body[i..j])
  {
    var data := BodyRead(body);
    assert data[i..j] == body[i..j];
    TrimSpaceBetween(data, i, j);
  }
}
