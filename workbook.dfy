/**
 * The workbook writer: the SpreadsheetML parts of an Office Open XML
 * package (ECMA-376 Part 1, sections 18.2 and 18.3; the content types and
 * relationships of Part 2), each built by appending to a string builder,
 * and the sequence in which they are written into the zip archive.
 *
 * Sheet `i` (0-based) is wired through three parts: `xl/workbook.xml` lists
 * it with `sheetId` i+1 and relationship `rId{i+1}`, `xl/_rels/workbook.xml.rels`
 * sends `rId{i+1}` to `worksheets/sheet{i+1}.xml`, and `[Content_Types].xml`
 * declares `/xl/worksheets/sheet{i+1}.xml` a worksheet.
 */
module Workbook {
  import opened Results
  import opened Text
  import opened Columns
  import opened XmlText

  /** A sheet to write: its name and its rows of cell values. */
  datatype Sheet = Sheet(name: string, rows: seq<seq<string>>)

  /** `s` occurs somewhere in `t`. */
  ghost predicate Occurs(s: string, t: string) {
    exists k :: 0 <= k <= |t| && HasPrefix(t[k..], s)
  }

  lemma OccursWithin(pre: string, s: string, post: string)
    ensures Occurs(s, pre + s + post)
  {
    var t := pre + s + post;
    assert t[|pre|..] == s + post;
  }

  lemma AppendAssoc(a: string, b: string, c: string)
    ensures a + (b + c) == a + b + c
  {
  }

  /** The texts `f(0) .. f(n-1)`, one after the other. */
  function Repeat(n: nat, f: nat -> string): string {
    if n == 0 then "" else Repeat(n - 1, f) + f(n - 1)
  }

  /** One more repetition appends the next text. */
  lemma RepeatNext(head: string, n: nat, f: nat -> string)
    ensures head + Repeat(n + 1, f) == head + Repeat(n, f) + f(n)
  {
    AppendAssoc(head, Repeat(n, f), f(n));
  }

  /** Each of the repeated texts occurs in the whole. */
  lemma {:induction false} RepeatListed(n: nat, f: nat -> string, i: nat)
    requires i < n
    ensures Occurs(f(i), Repeat(n, f))
  {
    if i == n - 1 {
      OccursWithin(Repeat(n - 1, f), f(i), "");
      assert Repeat(n - 1, f) + f(i) + "" == Repeat(n, f);
    } else {
      RepeatListed(n - 1, f, i);
      OccursWithin("", Repeat(n - 1, f), f(n - 1));
      assert "" + Repeat(n - 1, f) + f(n - 1) == Repeat(n, f);
      OccursTrans(f(i), Repeat(n - 1, f), Repeat(n, f));
    }
  }

  lemma OccursTrans(s: string, m: string, t: string)
    requires Occurs(s, m) && Occurs(m, t)
    ensures Occurs(s, t)
  {
    var j :| 0 <= j <= |m| && HasPrefix(m[j..], s);
    var i :| 0 <= i <= |t| && HasPrefix(t[i..], m);
    assert HasPrefix(t[i + j..], s) by {
      forall k | 0 <= k < |s|
        ensures t[i + j..][k] == s[k]
      {
        assert t[i..][j + k] == m[j + k];
        assert m[j..][k] == s[k];
      }
    }
  }

  // ---------------------------------------------------------------------------
  // Fixed parts
  // ---------------------------------------------------------------------------

  /** The schema root of the Office Open XML namespaces. */
  const OpenXmlSchemas := "http://schemas.openxmlformats.org/"
  const PackageNs := OpenXmlSchemas + "package/2006/"
  const OfficeDocumentNs := OpenXmlSchemas + "officeDocument/2006/"
  const PackageRelationshipsNs := PackageNs + "relationships"
  const OfficeRelationshipsNs := OfficeDocumentNs + "relationships"
  const SpreadsheetMlNs := OpenXmlSchemas + "spreadsheetml/2006/main"

  /** `xml.Header`: the XML declaration and a line feed. */
  const XmlHeader := "<?xml version=\"1.0\" encoding=\"UTF-8\"?>" + "\n"

  /** `_rels/.rels`: the package points at the workbook and the two property parts. */
  const RootRelationships := XmlHeader
    + "<Relationships xmlns=\"" + PackageRelationshipsNs + "\">\n"
    + "  <Relationship Id=\"rId1\" Type=\"" + OfficeRelationshipsNs + "/officeDocument\" Target=\"xl/workbook.xml\"/>\n"
    + "  <Relationship Id=\"rId2\" Type=\"" + PackageNs + "relationships/metadata/core-properties\" Target=\"docProps/core.xml\"/>\n"
    + "  <Relationship Id=\"rId3\" Type=\"" + OfficeRelationshipsNs + "/extended-properties\" Target=\"docProps/app.xml\"/>\n"
    + "</Relationships>"

  /** `docProps/app.xml`. */
  const AppProperties := XmlHeader
    + "<Properties xmlns=\"" + OfficeDocumentNs + "extended-properties\" xmlns:vt=\"" + OfficeDocumentNs + "docPropsVTypes\">\n"
    + "  <Application>casemd</Application>\n"
    + "</Properties>"

  /** `docProps/core.xml`. */
  const CoreProperties := XmlHeader
    + "<cp:coreProperties xmlns:cp=\"" + PackageNs + "metadata/core-properties\""
    + " xmlns:dc=\"http://purl.org/dc/elements/1.1/\" xmlns:dcterms=\"http://purl.org/dc/terms/\""
    + " xmlns:dcmitype=\"http://purl.org/dc/dcmitype/\" xmlns:xsi=\"http://www.w3.org/2001/XMLSchema-instance\">\n"
    + "  <dc:creator>casemd</dc:creator>\n"
    + "  <cp:lastModifiedBy>casemd</cp:lastModifiedBy>\n"
    + "</cp:coreProperties>"

  // ---------------------------------------------------------------------------
  // Sheet wiring
  // ---------------------------------------------------------------------------

  /** The zip part holding sheet `i`. */
  function SheetPartName(i: nat): string {
    "xl/worksheets/sheet" + Decimal(i + 1) + ".xml"
  }

  /** The relationship id of sheet `i`. */
  function RelId(i: nat): string {
    "rId" + Decimal(i + 1)
  }

  /** The relationship target of sheet `i`, relative to `xl/`. */
  function RelTarget(i: nat): string {
    "worksheets/sheet" + Decimal(i + 1) + ".xml"
  }

  const WorksheetContentType := "application/vnd.openxmlformats-officedocument.spreadsheetml.worksheet+xml"
  const WorksheetRelType := OfficeRelationshipsNs + "/worksheet"

  /** Distinct sheets get distinct relationship ids and distinct parts. */
  lemma WiringInjective(i: nat, j: nat)
    requires i != j
    ensures RelId(i) != RelId(j) && SheetPartName(i) != SheetPartName(j) && RelTarget(i) != RelTarget(j)
  {
    DecimalRoundTrip(i + 1);
    DecimalRoundTrip(j + 1);
    var a, b := SheetPartName(i), SheetPartName(j);
    assert a[19..|a| - 4] == Decimal(i + 1) && b[19..|b| - 4] == Decimal(j + 1);
    var x, y := RelTarget(i), RelTarget(j);
    assert x[16..|x| - 4] == Decimal(i + 1) && y[16..|y| - 4] == Decimal(j + 1);
    assert RelId(i)[3..] == Decimal(i + 1) && RelId(j)[3..] == Decimal(j + 1);
  }

  // ---------------------------------------------------------------------------
  // [Content_Types].xml
  // ---------------------------------------------------------------------------

  const ContentTypesOpen := "<Types xmlns=\"" + PackageNs + "content-types\">"
    + "<Default Extension=\"rels\" ContentType=\"application/vnd.openxmlformats-package.relationships+xml\"/>"
    + "<Default Extension=\"xml\" ContentType=\"application/xml\"/>"
    + "<Override PartName=\"/xl/workbook.xml\" ContentType=\"application/vnd.openxmlformats-officedocument.spreadsheetml.sheet.main+xml\"/>"

  /** The override declaring sheet `i`'s part a worksheet. */
  function OverrideXml(i: nat): string {
    "<Override PartName=\"/xl/worksheets/sheet" + Decimal(i + 1) + ".xml\" ContentType=\"" + WorksheetContentType + "\"/>"
  }

  /** The overrides of sheets `0 .. n-1`, in order. */
  function Overrides(n: nat): string {
    Repeat(n, OverrideXml)
  }

  function ContentTypesXml(n: nat): string {
    XmlHeader + ContentTypesOpen + Overrides(n) + "</Types>"
  }

  /** `buildContentTypes`: the fixed declarations, then one override per sheet. */
  method BuildContentTypes(sheets: seq<Sheet>) returns (xml: string)
    ensures xml == ContentTypesXml(|sheets|)
  {
    xml := XmlHeader + ContentTypesOpen;
    ghost var head := xml;
    for i := 0 to |sheets|
      invariant xml == head + Overrides(i)
    {
      RepeatNext(head, i, OverrideXml);
      xml := xml + OverrideXml(i);
    }
    xml := xml + "</Types>";
  }

  // ---------------------------------------------------------------------------
  // xl/workbook.xml
  // ---------------------------------------------------------------------------

  const WorkbookOpen := "<workbook xmlns=\"" + SpreadsheetMlNs + "\" xmlns:r=\"" + OfficeRelationshipsNs + "\">"

  /** The `<sheet>` element of sheet `i`, whose name is escaped as an attribute value. */
  function SheetXml(i: nat, name: string): string {
    "<sheet name=\"" + EscapeAttr(name) + "\" sheetId=\"" + Decimal(i + 1) + "\" r:id=\"rId" + Decimal(i + 1) + "\"/>"
  }

  /** The `<sheet>` element of each sheet by position. */
  function SheetEntry(sheets: seq<Sheet>): nat -> string {
    (i: nat) => if i < |sheets| then SheetXml(i, sheets[i].name) else ""
  }

  function WorkbookXml(sheets: seq<Sheet>): string {
    XmlHeader + WorkbookOpen + "<sheets>" + Repeat(|sheets|, SheetEntry(sheets)) + "</sheets></workbook>"
  }

  /** `buildWorkbookXML`: one `<sheet>` per sheet inside `<sheets>`. */
  method BuildWorkbookXml(sheets: seq<Sheet>) returns (xml: string)
    ensures xml == WorkbookXml(sheets)
  {
    xml := XmlHeader + WorkbookOpen + "<sheets>";
    ghost var head := xml;
    for i := 0 to |sheets|
      invariant xml == head + Repeat(i, SheetEntry(sheets))
    {
      SheetStep(head, sheets, i);
      xml := xml + SheetXml(i, sheets[i].name);
    }
    xml := xml + "</sheets></workbook>";
  }

  lemma SheetStep(head: string, sheets: seq<Sheet>, i: nat)
    requires i < |sheets|
    ensures head + Repeat(i + 1, SheetEntry(sheets)) == head + Repeat(i, SheetEntry(sheets)) + SheetXml(i, sheets[i].name)
  {
    RepeatNext(head, i, SheetEntry(sheets));
  }

  // ---------------------------------------------------------------------------
  // xl/_rels/workbook.xml.rels
  // ---------------------------------------------------------------------------

  const RelationshipsOpen := "<Relationships xmlns=\"" + PackageRelationshipsNs + "\">"

  /** The relationship of sheet `i`. */
  function RelationshipXml(i: nat): string {
    "<Relationship Id=\"rId" + Decimal(i + 1) + "\" Type=\"" + WorksheetRelType + "\" Target=\"worksheets/sheet" + Decimal(i + 1) + ".xml\"/>"
  }

  function RelationshipsXml(n: nat): string {
    XmlHeader + RelationshipsOpen + Repeat(n, RelationshipXml) + "</Relationships>"
  }

  /** `buildWorkbookRelationships`: one worksheet relationship per sheet. */
  method BuildWorkbookRelationships(sheets: seq<Sheet>) returns (xml: string)
    ensures xml == RelationshipsXml(|sheets|)
  {
    xml := XmlHeader + RelationshipsOpen;
    ghost var head := xml;
    for i := 0 to |sheets|
      invariant xml == head + Repeat(i, RelationshipXml)
    {
      RepeatNext(head, i, RelationshipXml);
      xml := xml + RelationshipXml(i);
    }
    xml := xml + "</Relationships>";
  }

  // ---------------------------------------------------------------------------
  // Wiring across the three parts
  // ---------------------------------------------------------------------------

  lemma SheetNamesRelationship(i: nat, name: string)
    ensures SheetXml(i, name) == "<sheet name=\"" + EscapeAttr(name) + "\" sheetId=\"" + Decimal(i + 1) + "\" r:id=\"" + RelId(i) + "\"/>"
  {
    var d := Decimal(i + 1);
    var q, r := "\" r:id=\"", "rId";
    assert "\" r:id=\"rId" == q + r;
    var p := "<sheet name=\"" + EscapeAttr(name) + "\" sheetId=\"" + d;
    calc {
      SheetXml(i, name);
      p + (q + r) + d + "\"/>";
      { AppendAssoc(p, q, r); }
      p + q + r + d + "\"/>";
      { AppendAssoc(p + q, r, d); }
      p + q + (r + d) + "\"/>";
    }
  }

  /** `workbook.xml` lists sheet `i` under its escaped name with `sheetId` i+1 and relationship `rId{i+1}`. */
  lemma SheetListed(sheets: seq<Sheet>, i: nat)
    requires i < |sheets|
    ensures Occurs("<sheet name=\"" + EscapeAttr(sheets[i].name) + "\" sheetId=\"" + Decimal(i + 1) + "\" r:id=\"" + RelId(i) + "\"/>", WorkbookXml(sheets))
  {
    var entry := SheetEntry(sheets);
    RepeatListed(|sheets|, entry, i);
    assert entry(i) == SheetXml(i, sheets[i].name);
    SheetNamesRelationship(i, sheets[i].name);
    OccursWithin(XmlHeader + WorkbookOpen + "<sheets>", Repeat(|sheets|, entry), "</sheets></workbook>");
    OccursTrans(entry(i), Repeat(|sheets|, entry), WorkbookXml(sheets));
  }

  lemma RelationshipTargetsPart(i: nat)
    ensures RelationshipXml(i) == "<Relationship Id=\"" + RelId(i) + "\" Type=\"" + WorksheetRelType + "\" Target=\"" + RelTarget(i) + "\"/>"
    ensures "xl/" + RelTarget(i) == SheetPartName(i)
  {
    var d := Decimal(i + 1);
    var a, r, b, t := "<Relationship Id=\"", "rId", "\" Type=\"", WorksheetRelType;
    var c, w, x, e := "\" Target=\"", "worksheets/sheet", ".xml", "\"/>";
    assert "<Relationship Id=\"rId" == a + r;
    assert "\" Target=\"worksheets/sheet" == c + w;
    assert ".xml\"/>" == x + e;
    var p1 := a + r + d + b + t;
    var p2 := p1 + c + w + d;
    calc {
      RelationshipXml(i);
      p1 + (c + w) + d + (x + e);
      { AppendAssoc(p1, c, w); AppendAssoc(p2, x, e); }
      p2 + x + e;
    }
    var p3 := a + (r + d) + b + t + c;
    calc {
      p2 + x + e;
      { AppendAssoc(a, r, d); }
      p3 + w + d + x + e;
      { AppendAssoc(p3, w, d); AppendAssoc(p3, w + d, x); }
      p3 + (w + d + x) + e;
    }
    var xl := "xl/";
    assert "xl/worksheets/sheet" == xl + w;
    AppendAssoc(xl, w, d);
    AppendAssoc(xl, w + d, x);
  }

  /**
   * The relationships part sends `rId{i+1}` to `worksheets/sheet{i+1}.xml`,
   * which, resolved against `xl/`, is the part sheet `i` is written to.
   */
  lemma RelationshipListed(n: nat, i: nat)
    requires i < n
    ensures Occurs("<Relationship Id=\"" + RelId(i) + "\" Type=\"" + WorksheetRelType + "\" Target=\"" + RelTarget(i) + "\"/>", RelationshipsXml(n))
    ensures "xl/" + RelTarget(i) == SheetPartName(i)
  {
    RepeatListed(n, RelationshipXml, i);
    RelationshipTargetsPart(i);
    OccursWithin(XmlHeader + RelationshipsOpen, Repeat(n, RelationshipXml), "</Relationships>");
    OccursTrans(RelationshipXml(i), Repeat(n, RelationshipXml), RelationshipsXml(n));
  }

  lemma OverrideNamesPart(i: nat)
    ensures OverrideXml(i) == "<Override PartName=\"/" + SheetPartName(i) + "\" ContentType=\"" + WorksheetContentType + "\"/>"
  {
    var d := Decimal(i + 1);
    var open, dir, ext, attr, close := "<Override PartName=\"/", "xl/worksheets/sheet", ".xml", "\" ContentType=\"", "\"/>";
    assert "<Override PartName=\"/xl/worksheets/sheet" == open + dir;
    assert ".xml\" ContentType=\"" == ext + attr;
    calc {
      OverrideXml(i);
      (open + dir) + d + (ext + attr) + WorksheetContentType + close;
      { AppendAssoc(open + dir, d, ext); AppendAssoc(open + dir + d, ext, attr); }
      open + dir + d + ext + attr + WorksheetContentType + close;
      { AppendAssoc(open, dir, d); AppendAssoc(open, dir + d, ext); }
      open + (dir + d + ext) + attr + WorksheetContentType + close;
    }
  }

  /** The content types declare the part of sheet `i` a worksheet. */
  lemma OverrideListed(n: nat, i: nat)
    requires i < n
    ensures Occurs("<Override PartName=\"/" + SheetPartName(i) + "\" ContentType=\"" + WorksheetContentType + "\"/>", ContentTypesXml(n))
  {
    RepeatListed(n, OverrideXml, i);
    OverrideNamesPart(i);
    OccursWithin(XmlHeader + ContentTypesOpen, Overrides(n), "</Types>");
    OccursTrans(OverrideXml(i), Overrides(n), ContentTypesXml(n));
  }

  // ---------------------------------------------------------------------------
  // xl/worksheets/sheetN.xml
  // ---------------------------------------------------------------------------

  const WorksheetOpen := "<worksheet xmlns=\"" + SpreadsheetMlNs + "\">"

  /** The reference of the cell in row `i` and column `j`, both 0-based. */
  function CellRefAt(i: nat, j: nat): string {
    ColumnLetters(j + 1) + Decimal(i + 1)
  }

  /** A cell: self-closing when empty, otherwise an inline string holding the escaped value. */
  function CellXml(i: nat, j: nat, value: string): string {
    if value == "" then "<c r=\"" + CellRefAt(i, j) + "\"/>"
    else "<c r=\"" + CellRefAt(i, j) + "\" t=\"inlineStr\"><is><t>" + EscapeCellText(value) + "</t></is></c>"
  }

  /** The cells of row `i` by position. */
  function CellEntry(i: nat, row: seq<string>): nat -> string {
    (j: nat) => if j < |row| then CellXml(i, j, row[j]) else ""
  }

  function RowOpen(i: nat): string {
    "<row r=\"" + Decimal(i + 1) + "\">"
  }

  function RowXml(i: nat, row: seq<string>): string {
    RowOpen(i) + Repeat(|row|, CellEntry(i, row)) + "</row>"
  }

  /** The rows by position. */
  function RowEntry(rows: seq<seq<string>>): nat -> string {
    (i: nat) => if i < |rows| then RowXml(i, rows[i]) else ""
  }

  /** The used range, from `A1` to the last column of the first row in the last row, when there is one. */
  function Dimension(rows: seq<seq<string>>): string {
    if |rows| > 0 && |rows[0]| > 0 then "<dimension ref=\"A1:" + ColumnLetters(|rows[0]|) + Decimal(|rows|) + "\"/>" else ""
  }

  function WorksheetXml(rows: seq<seq<string>>): string {
    XmlHeader + WorksheetOpen + Dimension(rows) + "<sheetData>" + Repeat(|rows|, RowEntry(rows)) + "</sheetData></worksheet>"
  }

  /**
   * `buildWorksheetXML`: the dimension when the first row has cells, then one
   * `<row>` per row holding one `<c>` per value.
   */
  method BuildWorksheetXml(rows: seq<seq<string>>) returns (xml: string)
    ensures xml == WorksheetXml(rows)
  {
    var dimension := "";
    if |rows| > 0 && |rows[0]| > 0 {
      var lastCol := ColumnName(|rows[0]|);
      dimension := "<dimension ref=\"A1:" + lastCol + Decimal(|rows|) + "\"/>";
    }
    xml := XmlHeader + WorksheetOpen + dimension + "<sheetData>";
    ghost var head := xml;
    for i := 0 to |rows|
      invariant xml == head + Repeat(i, RowEntry(rows))
    {
      RowsStep(head, rows, i);
      xml := WriteRow(xml, i, rows[i]);
    }
    xml := xml + "</sheetData></worksheet>";
  }

  lemma RowsStep(head: string, rows: seq<seq<string>>, i: nat)
    requires i < |rows|
    ensures head + Repeat(i + 1, RowEntry(rows)) == head + Repeat(i, RowEntry(rows)) + RowXml(i, rows[i])
  {
    RepeatNext(head, i, RowEntry(rows));
  }

  /** The body of `buildWorksheetXML`'s row loop: writes row `i` after what the builder holds. */
  method WriteRow(xml: string, i: nat, row: seq<string>) returns (out: string)
    ensures out == xml + RowXml(i, row)
  {
    var rowOpen := RowOpen(i);
    out := WriteCells(xml + rowOpen, i, row);
    RowClose(xml, i, row);
    out := out + "</row>";
  }

  /** The cell loop of `buildWorksheetXML`: writes the cells of row `i` after `head`. */
  method WriteCells(head: string, i: nat, row: seq<string>) returns (out: string)
    ensures out == head + Repeat(|row|, CellEntry(i, row))
  {
    out := head;
    for j := 0 to |row|
      invariant out == head + Repeat(j, CellEntry(i, row))
    {
      var cell := WriteCell(i, j, row[j]);
      RowStep(head, i, row, j);
      out := out + cell;
    }
  }

  lemma RowStep(head: string, i: nat, row: seq<string>, j: nat)
    requires j < |row|
    ensures head + Repeat(j + 1, CellEntry(i, row)) == head + Repeat(j, CellEntry(i, row)) + CellXml(i, j, row[j])
  {
    RepeatNext(head, j, CellEntry(i, row));
  }

  lemma RowClose(xml: string, i: nat, row: seq<string>)
    ensures xml + RowOpen(i) + Repeat(|row|, CellEntry(i, row)) + "</row>" == xml + RowXml(i, row)
  {
    var cells := Repeat(|row|, CellEntry(i, row));
    AppendAssoc(xml, RowOpen(i) + cells, "</row>");
    AppendAssoc(xml, RowOpen(i), cells);
  }

  /**
   * The body of `buildWorksheetXML`'s cell loop: the reference of the cell,
   * then an empty cell for an empty value and an inline string otherwise.
   */
  method WriteCell(i: nat, j: nat, value: string) returns (cell: string)
    ensures cell == CellXml(i, j, value)
  {
    var col := ColumnName(j + 1);
    var cellRef := col + Decimal(i + 1);
    if value == "" {
      cell := "<c r=\"" + cellRef + "\"/>";
    } else {
      cell := "<c r=\"" + cellRef + "\" t=\"inlineStr\"><is><t>" + EscapeCellText(value) + "</t></is></c>";
    }
  }

  // ---------------------------------------------------------------------------
  // Worksheet properties
  // ---------------------------------------------------------------------------

  /** Row `i` appears in the worksheet, and cell `j` of that row within the row element. */
  lemma CellListed(rows: seq<seq<string>>, i: nat, j: nat)
    requires i < |rows| && j < |rows[i]|
    ensures Occurs(RowXml(i, rows[i]), WorksheetXml(rows))
    ensures Occurs(CellXml(i, j, rows[i][j]), RowXml(i, rows[i]))
  {
    var rowEntry := RowEntry(rows);
    RepeatListed(|rows|, rowEntry, i);
    assert rowEntry(i) == RowXml(i, rows[i]);
    var head := XmlHeader + WorksheetOpen + Dimension(rows) + "<sheetData>";
    OccursWithin(head, Repeat(|rows|, rowEntry), "</sheetData></worksheet>");
    OccursTrans(RowXml(i, rows[i]), Repeat(|rows|, rowEntry), WorksheetXml(rows));
    var cellEntry := CellEntry(i, rows[i]);
    RepeatListed(|rows[i]|, cellEntry, j);
    assert cellEntry(j) == CellXml(i, j, rows[i][j]);
    OccursWithin(RowOpen(i), Repeat(|rows[i]|, cellEntry), "</row>");
    OccursTrans(CellXml(i, j, rows[i][j]), Repeat(|rows[i]|, cellEntry), RowXml(i, rows[i]));
  }

  /** The reference of the cell in row `i` and column `j` reads back as column j+1, row i+1. */
  lemma CellRefReadsBack(i: nat, j: nat)
    ensures ParseCellRef(CellRefAt(i, j)) == Some((j + 1, i + 1))
  {
    assert CellRefAt(i, j) == CellRef(j + 1, i + 1);
    CellRefRoundTrip(j + 1, i + 1);
  }

  /**
   * An empty value gives exactly the self-closing cell; any other value
   * gives an inline string whose text holds no markup and reads back as the
   * value, line feeds included.
   */
  lemma CellContent(i: nat, j: nat, value: string)
    ensures value == "" <==> CellXml(i, j, value) == "<c r=\"" + CellRefAt(i, j) + "\"/>"
    ensures value != "" ==> exists text ::
      CellXml(i, j, value) == "<c r=\"" + CellRefAt(i, j) + "\" t=\"inlineStr\"><is><t>" + text + "</t></is></c>"
      && '<' !in text && Unescape(text) == Sanitize(value)
  {
    if value != "" {
      var text := EscapeCellText(value);
      CellTextReadsBack(value);
      assert |CellXml(i, j, value)| > |"<c r=\"" + CellRefAt(i, j) + "\"/>"|;
    }
  }

  /** The used range ends at the last column of the first row and the last row. */
  lemma DimensionCoversRows(rows: seq<seq<string>>)
    ensures |rows| > 0 && |rows[0]| > 0 ==>
      exists last :: Dimension(rows) == "<dimension ref=\"A1:" + last + "\"/>" && ParseCellRef(last) == Some((|rows[0]|, |rows|))
    ensures !(|rows| > 0 && |rows[0]| > 0) ==> Dimension(rows) == ""
  {
    if |rows| > 0 && |rows[0]| > 0 {
      var last := CellRef(|rows[0]|, |rows|);
      CellRefRoundTrip(|rows[0]|, |rows|);
      AppendAssoc("<dimension ref=\"A1:", Letters(|rows[0]|), Decimal(|rows|));
      assert Dimension(rows) == "<dimension ref=\"A1:" + last + "\"/>";
    }
  }

  // ---------------------------------------------------------------------------
  // The package
  // ---------------------------------------------------------------------------

  /** Why a workbook could not be written. */
  datatype ZipError = PartFailed(part: string) | CloseFailed

  /**
   * The zip writer, seen as a sink of named parts in the order they are
   * written. Which part names the archive refuses, and whether closing it
   * fails, are given when it is opened.
   */
  class ZipSink {
    var parts: seq<(string, string)>
    var closed: bool
    const refused: set<string>
    const closeFails: bool

    constructor (refused: set<string>, closeFails: bool)
      ensures parts == [] && !closed
      ensures this.refused == refused && this.closeFails == closeFails
    {
      parts := [];
      closed := false;
      this.refused := refused;
      this.closeFails := closeFails;
    }

    /** `writeZipFile`: creates the entry `name` and writes `content` into it. */
    method WriteFile(name: string, content: string) returns (err: Option<ZipError>)
      requires !closed
      modifies this
      ensures !closed
      ensures name in refused ==> err == Some(PartFailed(name)) && parts == old(parts)
      ensures name !in refused ==> err == None && parts == old(parts) + [(name, content)]
    {
      if name in refused {
        return Some(PartFailed(name));
      }
      parts := parts + [(name, content)];
      return None;
    }

    /** `zipWriter.Close`: finishes the archive. */
    method Close() returns (err: Option<ZipError>)
      modifies this
      ensures closed && parts == old(parts)
      ensures err == if closeFails then Some(CloseFailed) else None
    {
      closed := true;
      err := if closeFails then Some(CloseFailed) else None;
    }
  }

  /** The names of the fixed parts of the package. */
  const ContentTypesPart := "[Content_Types].xml"
  const RootRelationshipsPart := "_rels/.rels"
  const AppPropertiesPart := "docProps/app.xml"
  const CorePropertiesPart := "docProps/core.xml"
  const WorkbookPart := "xl/workbook.xml"
  const WorkbookRelationshipsPart := "xl/_rels/workbook.xml.rels"

  /** The parts of the package in the order `writeWorkbook` writes them. */
  function WorkbookParts(sheets: seq<Sheet>): (ps: seq<(string, string)>)
  {
    FixedParts(sheets) + WorksheetParts(sheets)
  }

  /** The package relationships, the properties, the workbook and its relationships. */
  function FixedParts(sheets: seq<Sheet>): (ps: seq<(string, string)>)
  {
    [(ContentTypesPart, ContentTypesXml(|sheets|)),
     (RootRelationshipsPart, RootRelationships),
     (AppPropertiesPart, AppProperties),
     (CorePropertiesPart, CoreProperties),
     (WorkbookPart, WorkbookXml(sheets)),
     (WorkbookRelationshipsPart, RelationshipsXml(|sheets|))]
  }

  /** One worksheet part per sheet. */
  function WorksheetParts(sheets: seq<Sheet>): (ps: seq<(string, string)>)
  {
    seq(|sheets|, i requires 0 <= i < |sheets| => (SheetPartName(i), WorksheetXml(sheets[i].rows)))
  }

  /** The position of the first part the archive refuses, or the number of parts. */
  function FirstRefused(ps: seq<(string, string)>, refused: set<string>): (k: nat)
    ensures k <= |ps|
    ensures forall j :: 0 <= j < k ==> ps[j].0 !in refused
    ensures k < |ps| ==> ps[k].0 in refused
  {
    if ps == [] then 0
    else if ps[0].0 in refused then 0
    else 1 + FirstRefused(ps[1..], refused)
  }

  /**
   * The archive holds, after what it held `before`, the first `m` parts of
   * `ps`, none of which it refused.
   */
  ghost predicate WroteFirst(parts: seq<(string, string)>, before: seq<(string, string)>, ps: seq<(string, string)>, refused: set<string>, m: nat) {
    m <= |ps| && (forall j :: 0 <= j < m ==> ps[j].0 !in refused) && parts == before + ps[..m]
  }

  lemma WroteNext(parts: seq<(string, string)>, before: seq<(string, string)>, ps: seq<(string, string)>, refused: set<string>, m: nat)
    requires WroteFirst(parts, before, ps, refused, m) && m < |ps| && ps[m].0 !in refused
    ensures WroteFirst(parts + [ps[m]], before, ps, refused, m + 1)
  {
    assert ps[..m + 1] == ps[..m] + [ps[m]];
  }

  lemma StoppedAt(parts: seq<(string, string)>, before: seq<(string, string)>, ps: seq<(string, string)>, refused: set<string>, m: nat)
    requires WroteFirst(parts, before, ps, refused, m) && m < |ps| && ps[m].0 in refused
    ensures FirstRefused(ps, refused) == m
  {
  }

  lemma WroteAll(parts: seq<(string, string)>, before: seq<(string, string)>, ps: seq<(string, string)>, refused: set<string>)
    requires WroteFirst(parts, before, ps, refused, |ps|)
    ensures FirstRefused(ps, refused) == |ps| && parts == before + ps
  {
    assert ps[..|ps|] == ps;
  }

  /** The worksheet part `writeWorkbook` writes for sheet `i`. */
  lemma WorksheetPartAt(sheets: seq<Sheet>, i: nat)
    requires i < |sheets|
    ensures |WorkbookParts(sheets)| == 6 + |sheets|
    ensures WorkbookParts(sheets)[6 + i] == (SheetPartName(i), WorksheetXml(sheets[i].rows))
  {
  }

  /**
   * `writeZipFile` followed by the check every call site of `writeWorkbook`
   * makes: writes part `m` of `ps`; when the archive refuses it, closes the
   * archive and gives back the error.
   */
  method WritePart(zip: ZipSink, ps: seq<(string, string)>, ghost before: seq<(string, string)>, m: nat)
    returns (err: Option<ZipError>)
    requires !zip.closed && m < |ps|
    requires WroteFirst(zip.parts, before, ps, zip.refused, m)
    modifies zip
    ensures err.None? ==> !zip.closed && WroteFirst(zip.parts, before, ps, zip.refused, m + 1)
    ensures err.Some? ==>
      zip.closed && FirstRefused(ps, zip.refused) == m && zip.parts == before + ps[..m] && err == Some(PartFailed(ps[m].0))
  {
    ghost var prev := zip.parts;
    err := zip.WriteFile(ps[m].0, ps[m].1);
    if err.Some? {
      StoppedAt(prev, before, ps, zip.refused, m);
      var _ := zip.Close();
    } else {
      WroteNext(prev, before, ps, zip.refused, m);
    }
  }

  /**
   * `writeWorkbook`: the six fixed parts, then one worksheet per sheet; the
   * first part that cannot be written ends the run with its error, after the
   * archive is closed. Otherwise the result is that of closing the archive.
   */
  method WriteWorkbook(zip: ZipSink, sheets: seq<Sheet>) returns (err: Option<ZipError>)
    requires !zip.closed
    modifies zip
    ensures zip.closed
    ensures var ps := WorkbookParts(sheets); var k := FirstRefused(ps, zip.refused);
      zip.parts == old(zip.parts) + ps[..k]
      && err == if k < |ps| then Some(PartFailed(ps[k].0)) else if zip.closeFails then Some(CloseFailed) else None
  {
    var ps := WorkbookParts(sheets);
    err := WriteParts(zip, ps);
  }

  /**
   * The write sequence of `writeWorkbook` over the parts it has built: the
   * six fixed parts one call after the other, then the worksheets in a loop,
   * then closing the archive.
   */
  method WriteParts(zip: ZipSink, ps: seq<(string, string)>) returns (err: Option<ZipError>)
    requires !zip.closed && |ps| >= 6
    modifies zip
    ensures zip.closed
    ensures var k := FirstRefused(ps, zip.refused);
      zip.parts == old(zip.parts) + ps[..k]
      && err == if k < |ps| then Some(PartFailed(ps[k].0)) else if zip.closeFails then Some(CloseFailed) else None
  {
    ghost var before := zip.parts;
    // [Content_Types].xml
    err := WritePart(zip, ps, before, 0);
    if err.Some? {
      return;
    }
    // _rels/.rels
    err := WritePart(zip, ps, before, 1);
    if err.Some? {
      return;
    }
    // docProps/app.xml
    err := WritePart(zip, ps, before, 2);
    if err.Some? {
      return;
    }
    // docProps/core.xml
    err := WritePart(zip, ps, before, 3);
    if err.Some? {
      return;
    }
    // xl/workbook.xml
    err := WritePart(zip, ps, before, 4);
    if err.Some? {
      return;
    }
    // xl/_rels/workbook.xml.rels
    err := WritePart(zip, ps, before, 5);
    if err.Some? {
      return;
    }
    // one worksheet per sheet
    for m := 6 to |ps|
      invariant !zip.closed
      invariant WroteFirst(zip.parts, before, ps, zip.refused, m)
    {
      err := WritePart(zip, ps, before, m);
      if err.Some? {
        return;
      }
    }
    WroteAll(zip.parts, before, ps, zip.refused);
    err := zip.Close();
  }
}
