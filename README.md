# casemd core in Dafny

casemd turns Markdown test-case documents into spreadsheets. A document lists
test cases under a heading hierarchy:

- a `## ` line names the major item, and a `### ` line the medium item;
- each `#### ` line opens one case, its minor item;
- numbered list lines (`1. …`) in a case are its validation steps;
- task-list lines (`* [ ] …`, `* [x] …`) are its checkpoints.

The extracted cases are written as one of three outputs:

- a CSV table with a fixed nine-column header;
- an `.xlsx` workbook with one worksheet per source document, under sanitized and de-duplicated sheet names;
- the request body of a Google Sheets "create spreadsheet" call.

The web preview also parses the produced CSV back in the browser.

The project models these parts:

- the case extractor (`Parse`) and the title extractor (`Headings`);
- the three conversions of `internal/app/converter.go`, with every helper they use:
  - sheet-name derivation, sanitizing and uniqueness;
  - column letters;
  - XML escaping;
  - the workbook parts and the zip writing;
- the payload builder and the error-body reader of the Google Sheets adapter;
- the browser's CSV reader.

Modules:

| file | module | what it holds |
|---|---|---|
| results.dfy | `Results` | `Option`, `Result` |
| domain.dfy | `Domain` | `Case`, and `Stream`, an input as a line scanner delivers it |
| text.dfy | `Text` | the Go `unicode.IsSpace` class, `strings.TrimSpace`, line join/split, `%d` |
| parser.dfy | `CaseParser` | `Parse`, proved against the declarative result `Expected` |
| headings.dfy | `HeadingParser` | `Headings`, proved against `TitlesOf` |
| columns.dfy | `Columns` | `columnName` and A1 cell references |
| xmltext.dfy | `XmlText` | `xml.EscapeText`, the cell-text and attribute escapes, an unescaper |
| sheetnames.dfy | `SheetNames` | `deriveSheetName`, `sanitizeSheetName`, `trimRunes`, the suffixing, and `NameRegistry` (the `usage`/`final` maps of `ensureUniqueSheetName`) |
| workbook.dfy | `Workbook` | the XML part builders, `ZipSink`, and `writeWorkbook` |
| converter.dfy | `Converter` | `caseRow`, `MarkdownToCSV.Convert`, `MarkdownToSpreadsheet.Convert`, `MarkdownToGoogleSpreadsheet.Create` |
| payload.dfy | `SheetsPayload` | `buildSpreadsheetPayload` and `readErrorMessage` |
| csvpreview.dfy | `CsvPreview` | `parseCSV` from the web preview |

The modelling decisions:

- **Loops and mutable state.** Each loop of the source is a Dafny method with a loop, proved equal to a specification function. The specification function's properties are proved as lemmas.
- **State the source mutates.** This becomes a class:
  - the name registry's two maps;
  - the zip writer;
  - the CSV record writer;
  - the spreadsheet creator.
- **The extractor.** The converters take it as a function parameter (`Converter.Parser`). `Converter.Extract` is the function `CaseParser.Parse` is proved to compute.

## Model

| member | source | states |
|---|---|---|
| CaseParser.Parse | internal/core/parser/parser.go:18-60 | On a failed read the error is returned. Otherwise the result is `Expected(lines)`: one case per `#### ` line, in document order, with the items in force at that line and the steps and checkpoints of its body. |
| CaseParser.HeadingsExclusive | internal/core/parser/parser.go:28-33 | A line is at most one of the `## `, `### ` and `#### ` kinds. |
| CaseParser.SectionIsNotItem | internal/core/parser/parser.go:28-44 | A heading line is never taken as a step or a checkpoint. |
| CaseParser.CaseHeadingsComplete | internal/core/parser/parser.go:33-41 | Every `#### ` line opens a case, and the cases are in line order. |
| CaseParser.SectionAppend | internal/core/parser/parser.go:28-32 | A `## ` line sets the major item and clears the medium item. A `### ` line sets only the medium item. Any other line keeps both. |
| CaseParser.MajorIsLastMajorHeading | internal/core/parser/parser.go:28-30 | The major item in force is the text after the last `## ` line. |
| CaseParser.MajorBeforeAnyHeading | internal/core/parser/parser.go:22 | Before any `## ` line the major item is empty. |
| CaseParser.MediumResetByMajor | internal/core/parser/parser.go:28-30 | A `## ` line with no later section line leaves the medium item empty. |
| CaseParser.MediumIsLastMediumHeading | internal/core/parser/parser.go:31-32 | The medium item is the text after the last `### ` line when no section line follows it. |
| CaseParser.MediumBeforeAnySection | internal/core/parser/parser.go:22 | Before any section line the medium item is empty. |
| CaseParser.ExpectedOpensCase | internal/core/parser/parser.go:33-41 | A `#### ` line closes the open case and appends a fresh one. The fresh case carries the major and medium items in force and the text after `#### `. |
| CaseParser.ExpectedAbsorbs | internal/core/parser/parser.go:42-47 | Any other line changes only the last case. An ordered-list line adds its captured text as a step. A task-list line adds the whole trimmed line as a checkpoint. |
| CaseParser.NoCaseStaysEmpty | internal/core/parser/parser.go:42-44 | Before the first `#### ` line, list lines are dropped. |
| CaseParser.ExpectedCase | internal/core/parser/parser.go:33-53 | Each case's fields: the minor item from its own line; the major and medium items in force there; the steps and checkpoints of the lines up to the next `#### ` line or the end. |
| CaseParser.UnmatchedLineChangesNothing | internal/core/parser/parser.go:42-48 | A line that matches no pattern changes neither the cases nor the items. |
| CaseParser.IndentedLineIsNoHeading | internal/core/parser/parser.go:28-33 | Heading prefixes are matched against the untrimmed line, so an indented heading is not one. |
| CaseParser.TaskMarkers | internal/core/parser/parser.go:14 | `[ ]` and `[x]` mark a task item; `[X]` does not. |
| CaseParser.OrderedMarkers | internal/core/parser/parser.go:13 | An ordered item needs digits, a dot and at least one blank; a bullet is not one. |
| CaseParser.StepTextSkipsBlanks | internal/core/parser/parser.go:13 | The captured step starts after the whole run of blanks that follows the dot. |
| CaseParser.OrderedLine | internal/core/parser/parser.go:13 | A trimmed `1. ` line is an ordered item whose step is the text after the blank. |
| CaseParser.TaskLine | internal/core/parser/parser.go:14 | A trimmed `* [ ] ` line is a task item and not an ordered item. |
| CaseParser.WorkedDocument | internal/core/parser/parser_test.go:11-104 | Lines `## A`, `### B`, `#### C`, `1. s`, `* [ ] p` yield exactly one case: (A, B, C, [s], [`* [ ] p`]). |
| HeadingParser.Headings | internal/core/parser/headings.go:10-26 | On a failed read the error is returned. Otherwise the result is the trimmed text after `# ` of each trimmed line starting with `# `, in order. |
| HeadingParser.TitleTextNonEmpty | internal/core/parser/headings.go:15-17 | A title is never empty and has no surrounding whitespace. |
| HeadingParser.TitlesAreTrimmed | internal/core/parser/headings.go:17 | Every extracted title is non-empty and trimmed. |
| HeadingParser.TitlesEmpty | internal/core/parser/headings.go:12-19 | The result is empty exactly when no line is a title. |
| HeadingParser.SubheadingIsNoTitle | internal/core/parser/headings.go:16 | `##`, `#` followed by a tab, and a bare `#` are not titles. |
| HeadingParser.IndentedTitle | internal/core/parser/headings.go:15-17 | An indented `# Title ` line is a title, `Title`. |
| HeadingParser.PlainTitle | internal/core/parser/headings_test.go:8-26 | `# ` followed by trimmed text yields exactly that text. |
| HeadingParser.TextIsNoTitle | internal/core/parser/headings_test.go:28-37 | A line not starting with `#` is no title. |
| HeadingParser.NoTitlesExample | internal/core/parser/headings_test.go:28-37 | "No headings here" yields no titles. |
| Text.TrimSpaceEmpty | internal/interfaces/googleapi/sheets.go:90-92 | Trimming yields "" exactly when every character is whitespace. |
| Text.TrimSpaceIdempotent | internal/core/parser/headings.go:15-17 | Trimming a trimmed string changes nothing. |
| Text.TrimSpaceBetween | internal/interfaces/googleapi/sheets.go:90 | `TrimSpace` keeps exactly the span between the first and last non-whitespace characters. |
| Text.SplitJoin | internal/app/converter.go:57-58 | Joining line-free items with a line feed and splitting again gives the items back. |
| Text.JoinSplit | internal/app/converter.go:57-58 | Splitting on line feeds and joining again gives the text back. |
| Text.DecimalRoundTrip | internal/app/converter.go:243 | `%d` formatting of a natural number reads back as that number. |
| Text.DecimalInjective | internal/app/converter.go:243 | Different numbers format differently. |
| Columns.ColumnName | internal/app/converter.go:346-358 | The digit loop computes `ColumnLetters(n)`: "A" for `n <= 0`, otherwise bijective base-26 letters. |
| Columns.LettersRoundTrip | internal/app/converter.go:352-356 | The letters of `n` read back as `n`. |
| Columns.LettersOnto | internal/app/converter.go:352-356 | Every string of capital letters is the letters of some number. |
| Columns.LettersInjective | internal/app/converter.go:352-356 | Different columns get different letters. |
| Columns.ColumnLettersExamples | internal/app/converter.go:346-358 | 1→A, 26→Z, 27→AA, 28→AB, 52→AZ, 53→BA, and 0 and -3→A. |
| Columns.CellRefRoundTrip | internal/app/converter.go:316 | A cell reference, column letters then row number, parses back to its column and row. |
| Columns.CellRefInjective | internal/app/converter.go:316 | Different cells get different references. |
| XmlText.EscapeChar | internal/app/converter.go:329-344 | The escaped form of a character has no `<`, `>`, `"`, tab, line feed or carriage return. |
| XmlText.UnescapeEscape | internal/app/converter.go:329-344 | Unescaping escaped text gives the text back, each character XML forbids replaced by U+FFFD. |
| XmlText.EscapeRoundTrip | internal/app/converter.go:338-344 | For text of XML characters, unescaping the escape gives the text back. |
| XmlText.ReplaceNewlinesNone | internal/app/converter.go:335 | Replacing line feeds changes nothing in text without one. |
| XmlText.CellTextReadsBack | internal/app/converter.go:329-336 | Escaped cell text holds no `<` and no line feed, and reads back as the value. |
| SheetNames.AfterLast | internal/app/converter.go:365 | The part after the last separator holds no separator and is a suffix of the path. |
| SheetNames.Ext | internal/app/converter.go:366 | The extension is a suffix of the name and is empty or starts with `.`. |
| SheetNames.ReplaceForbidden | internal/app/converter.go:435 | Each of `* : ? [ ] / \` becomes `_`, and every other character is kept. |
| SheetNames.TrimBlanksEmpty | internal/app/converter.go:436-439 | Trimming spaces yields "" exactly when the name is all spaces. |
| SheetNames.TrimRunes | internal/app/converter.go:410-425 | The loop returns the first `limit` characters, or the whole value when it is shorter. |
| SheetNames.TakeRunes | internal/app/converter.go:410-425 | The result is a prefix of the value, no longer than `limit`, and cut short only at `limit`. |
| SheetNames.SanitizeSheetName | internal/app/converter.go:434-456 | The loop computes `Sanitized(name)`: forbidden characters replaced, spaces trimmed, then the first 31 characters. |
| SheetNames.SanitizedIsLegal | internal/app/converter.go:434-466 | A sanitized name has at most 31 characters, none forbidden, and no leading space. It is a prefix of the replaced and trimmed name, and empty exactly when the name is all spaces. |
| SheetNames.SanitizedLegalName | internal/app/converter.go:434-456 | An already legal name is kept as it is. |
| SheetNames.DeriveSheetName | internal/app/converter.go:360-376 | A derived name is never empty. |
| SheetNames.DerivedNameIsLegal | internal/app/converter.go:360-376 | A derived name is always legal (at most 31 characters, none of `* : ? [ ] / \`) when `index+1` has at most 26 digits. Without that bound it is legal or the `Sheet<index+1>` fallback. |
| SheetNames.FallbackName | internal/app/converter.go:362 | `Sheet<n>` has no forbidden character and is five characters longer than `n`. |
| SheetNames.FormatIntLegal | internal/app/converter.go:401 | `%d` writes no character forbidden in a sheet name. |
| SheetNames.DeriveFromFileName | internal/app/converter.go:360-376 | `dir/stem.ext` with a legal stem derives the stem. |
| SheetNames.FormatIntInjective | internal/app/converter.go:401 | Different counts give different suffixes. |
| SheetNames.SuffixedNameFits | internal/app/converter.go:400-408 | The suffixed name fits in 31 characters and starts with a prefix of the base. |
| SheetNames.SuffixedNameLegal | internal/app/converter.go:400-408 | A base free of forbidden characters gives a legal suffixed name while the count has at most 29 digits. |
| SheetNames.SuffixedNameInjective | internal/app/converter.go:400-408 | Different counts give different suffixed names. |
| SheetNames.RegistersFreshName | internal/app/converter.go:378-398 | The returned name was not used before, and it is added to the used names. |
| SheetNames.RegistersDeterministic | internal/app/converter.go:378-398 | The registry step is a function of the registry and the base. |
| SheetNames.RegistersAlphaAlphaBeta | internal/app/converter.go:378-398 | Registering alpha, alpha, beta yields alpha, alpha_2, beta. |
| SheetNames.NameRegistry.constructor | internal/app/converter.go:127-128 | A new registry has empty usage and no final names. |
| SheetNames.NameRegistry.EnsureUnique | internal/app/converter.go:378-398 | A free base is kept, with its usage raised to at least 1. Otherwise the first free `base_c` is taken, with `c` above the recorded usage, and the usage becomes `c`. The chosen name is added to the final names. |
| SheetNames.FirstFree | internal/app/converter.go:388-397 | The search stops at the first count above the recorded usage whose suffixed name is free. |
| SheetNames.Register | internal/app/converter.go:378-398 | The functional form of `EnsureUnique` satisfies the same relation. |
| SheetNames.RegistersNumbered | internal/app/converter.go:378-398 | A registration keeps every counted base given out, with all its suffixed names from 2 up to its counter. The name it gives is the base, or the base suffixed with a count of at most two more than the names given before. |
| SheetNames.NumberedBound | internal/app/converter.go:388-397 | A count whose smaller suffixed names from 2 on are all taken exceeds the number of taken names by at most two. |
| Workbook.BuildContentTypes | internal/app/converter.go:264-276 | The loop builds `ContentTypesXml(n)`, with one worksheet override per sheet. |
| Workbook.OverrideListed | internal/app/converter.go:271-273 | The content types list an override naming each worksheet part. |
| Workbook.BuildWorkbookXml | internal/app/converter.go:278-288 | The loop builds `WorkbookXml(sheets)`: one `<sheet>` per sheet with its escaped name, id `i+1` and `rId<i+1>`. |
| Workbook.SheetListed | internal/app/converter.go:283-285 | The workbook lists sheet `i` under its escaped name and relationship id. |
| Workbook.BuildWorkbookRelationships | internal/app/converter.go:290-299 | The loop builds `RelationshipsXml(n)`. |
| Workbook.RelationshipListed | internal/app/converter.go:294-296 | Relationship `rId<i+1>` targets the part that worksheet `i` is written to. |
| Workbook.WiringInjective | internal/app/converter.go:243 | Relationship ids, part names and targets of different sheets differ. |
| Workbook.BuildWorksheetXml | internal/app/converter.go:301-327 | The loop builds `WorksheetXml(rows)`. |
| Workbook.WriteRow | internal/app/converter.go:312-324 | One row element is appended per row. |
| Workbook.WriteCells | internal/app/converter.go:315-322 | One cell element is appended per value, in order. |
| Workbook.WriteCell | internal/app/converter.go:316-321 | An empty value gives a bare `<c r=…/>`; any other value an inline string. |
| Workbook.CellListed | internal/app/converter.go:312-324 | Every row is in the worksheet, and every cell is in its row. |
| Workbook.CellRefReadsBack | internal/app/converter.go:316 | The reference of cell (i, j) parses back to column j+1, row i+1. |
| Workbook.CellContent | internal/app/converter.go:317-321 | A cell is bare exactly when its value is empty. Otherwise its text has no `<` and unescapes to the value. |
| Workbook.DimensionCoversRows | internal/app/converter.go:306-309 | With a non-empty first row the dimension is `A1:<last>`, and `<last>` parses to (width of row 1, row count). Otherwise there is no dimension. |
| Workbook.ZipSink.constructor | internal/app/converter.go:210 | A new archive is open and empty. |
| Workbook.ZipSink.WriteFile | internal/app/converter.go:253-262 | A refused part is reported by name and not added. Any other part is appended. |
| Workbook.ZipSink.Close | internal/app/converter.go:250 | Closing keeps the parts and reports the close failure, if any. |
| Workbook.FirstRefused | internal/app/converter.go:212-248 | The index of the first refused part, or the count when none is refused. |
| Workbook.WorksheetPartAt | internal/app/converter.go:242-248 | There are six fixed parts plus one worksheet per sheet. Part `6+i` is `xl/worksheets/sheet<i+1>.xml` holding sheet `i`'s rows. |
| Workbook.WriteWorkbook | internal/app/converter.go:209-251 | The archive ends closed. It holds the parts in order up to the first refused one, and the error is that part's failure, else the close failure, else none. |
| Workbook.WriteParts | internal/app/converter.go:212-250 | The same, for any list of at least six parts. |
| Converter.CaseRow | internal/app/converter.go:52-64 | A row has the header's nine columns, and the last four are empty. |
| Converter.CaseRowReadsBack | internal/app/converter.go:52-64 | A row reads back as its case when the steps and checkpoints hold no line feed. |
| Converter.CaseRows | internal/app/converter.go:137-144 | One row per case, in order. |
| Converter.ParsedPrefix | internal/app/converter.go:86-92 | The sources before it parse, and the one at it, if any, fails. |
| Converter.SourceRowsCount | internal/app/converter.go:86-100 | The rows of all sources number the total of their cases. |
| Converter.CsvRecordsCount | internal/app/converter_test.go:38-81 | When every source parses, the table holds the header and one row per case. |
| Converter.CsvSink.constructor | internal/app/converter.go:82 | A new writer holds no records and is not flushed. |
| Converter.CsvSink.Write | internal/app/converter.go:83-98 | A full output refuses the record. Otherwise the record is appended. |
| Converter.CsvSink.Flush | internal/app/converter.go:102 | Flushing keeps the records. |
| Converter.AcceptedStops | internal/app/converter.go:94-98 | Once the output is full, no later record is taken. |
| Converter.ConvertCsv | internal/app/converter.go:77-108 | With no sources: `NoSources`, nothing written. Otherwise the header and then each source's rows are written in order until the output refuses one. A refused header ends the run unflushed; a refused row ends it flushed. Otherwise the run ends with the first parse failure, named by source, or the flush result. |
| Converter.WriteRows | internal/app/converter.go:94-99 | The inner loop appends the rows the output takes, and fails exactly when one is refused. |
| Converter.RegisteredName | internal/app/converter.go:131-132 | Each sheet name is new. It equals its base exactly when the base was not used before; otherwise it is a suffixed form of the base. |
| Converter.RegisteredDistinct | internal/app/converter.go:126-147 | The sheet names are pairwise distinct. |
| Converter.RegisteredNumbered | internal/app/converter.go:126-147 | Over a conversion the registry stays numbered, and it holds one given-out name per source. |
| Converter.RegisteredLegal | internal/app/converter.go:126-147 | Every sheet name a conversion gives out has at most 31 characters and none of `* : ? [ ] / \`, while the source count plus one has at most 26 digits. |
| Converter.SheetsForNames | internal/app/converter.go:121-150 | One sheet per source, in order, under pairwise distinct names, each of them legal while the source count plus one has at most 26 digits. |
| Converter.SheetRowsShape | internal/app/converter.go:139-146 | A sheet's rows are the header followed by one row per case, in order. |
| Converter.SheetKeepsBase | internal/app/converter_test.go:124-144 | A sheet keeps its derived base name exactly when no earlier sheet took that name. |
| Converter.ExtractedSheetRows | internal/core/parser/parser.go:33-41 | With the extractor, a sheet has one row more than its document has `#### ` lines. |
| Converter.SheetRows | internal/app/converter.go:139-144 | The loop builds the header followed by one row per case. |
| Converter.CollectSheets | internal/app/converter.go:126-147 | At the first source that fails to parse, returns its error under that source's unique sheet name. Otherwise returns one sheet per source, with its unique name and rows. |
| Converter.ConvertWorkbook | internal/app/converter.go:121-150 | No sources, or a parse failure: the error, and the archive untouched. Otherwise the collected sheets are written exactly as `WriteWorkbook` specifies. |
| Converter.SpreadsheetCreator.constructor | internal/app/converter.go:30-33 | A fresh creator has received no request. |
| Converter.SpreadsheetCreator.CreateSpreadsheet | internal/app/converter.go:30-33 | Each call records its request and returns the service's reply. |
| Converter.CreateRemote | internal/app/converter.go:164-202 | The empty title is refused first, then no sources, then the first parse failure, each with no request sent. Otherwise exactly one request is sent, carrying the title and the collected sheets. The id or the wrapped failure is returned. |
| SheetsPayload.BuildRow | internal/interfaces/googleapi/sheets.go:109-117 | One cell per value. An empty value gets no entered value; any other value its text. |
| SheetsPayload.BuildGrid | internal/interfaces/googleapi/sheets.go:107-118 | One row entry per row, in order. |
| SheetsPayload.BuildSpreadsheetPayload | internal/interfaces/googleapi/sheets.go:97-127 | An empty title is refused. Otherwise the payload is `PayloadOf(spreadsheet)`. |
| SheetsPayload.PayloadShape | internal/interfaces/googleapi/sheets_test.go:14-55 | Titles are kept. Each sheet has exactly one grid with one row per row and one cell per value. A cell lacks a value exactly when its text is empty, and otherwise carries the text. |
| SheetsPayload.PayloadReadsBack | internal/interfaces/googleapi/sheets.go:106-124 | Reading the payload back gives the spreadsheet it came from. |
| SheetsPayload.PayloadInjective | internal/interfaces/googleapi/sheets.go:106-124 | Different spreadsheets give different payloads. |
| SheetsPayload.CreatedPayloadReadsBack | internal/app/converter.go:194-195 | The payload of the request `Create` sends reads back as each sheet's header and case rows. |
| SheetsPayload.ReadErrorMessage | internal/interfaces/googleapi/sheets.go:85-95 | A failed read is an error. Otherwise the result is a message exactly when the first 4096 characters hold a non-space. The message is non-empty and trimmed. |
| SheetsPayload.BodyRead | internal/interfaces/googleapi/sheets.go:86 | The part read is the whole body, or its first 4096 characters when it is longer. |
| SheetsPayload.ErrorMessageIsSlice | internal/interfaces/googleapi/sheets.go:86-94 | For a body of any length, the message is the slice between the first and last non-whitespace characters of the part read. |
| CsvPreview.ParseCsv | internal/interfaces/web/static/index.js:159-211 | The character loop computes `Parsed(text)`, the result of the character machine `Scan` plus the final-row rule. |
| CsvPreview.ScanAppend | internal/interfaces/web/static/index.js:167-203 | Scanning `a + b` is scanning `b` from the state after `a`, when `b` does not start with a quote. |
| CsvPreview.ParsedEmpty | internal/interfaces/web/static/index.js:205-210 | The empty text has no rows. |
| CsvPreview.ParsedTrailingNewline | internal/interfaces/web/static/index.js:194-208 | A final line feed outside quotes ends the last row, with no extra empty row. |
| CsvPreview.ReturnsDropped | internal/interfaces/web/static/index.js:192-193 | Outside quotes, carriage returns are ignored. |
| CsvPreview.LayoutRows | internal/interfaces/web/static/index.js:194-199 | There is one completed row per unquoted line feed. |
| CsvPreview.ScanLayout | internal/interfaces/web/static/index.js:184-202 | Row widths follow the unquoted commas and line feeds. |
| CsvPreview.ParsedShape | internal/interfaces/web/static/index.js:159-211 | One row per line feed outside quotes, each one field wider than its commas outside quotes. One more row follows exactly when the text after the last such line feed has a comma outside quotes or leaves a non-empty value pending; a trailing `""` or `\r` alone adds none. |
| CsvPreview.ScanDoubled | internal/interfaces/web/static/index.js:170-177 | Inside quotes a doubled quote reads as one quote, and a lone quote closes the field. |
| CsvPreview.EncodeRoundTrip | internal/interfaces/web/static/index.js:159-211 | Rows written as quoted, comma-separated, line-feed-ended records parse back to themselves. |

## Left out

- Input and output are not modelled:
  - the Markdown reader is the list of lines a line scanner produces, plus an optional read failure;
  - the scanner's token-size limit and its line splitting are not modelled.
- `context.Context` values are dropped.
- `MarkdownToGoogleSpreadsheet.Create` takes the creator as an object that records requests and returns a fixed reply.
- The HTTP client of `SheetsService.CreateSpreadsheet` and `NewSheetsService` (internal/interfaces/googleapi/sheets.go:26-83) are not part of this model: they are network I/O.
- The CLI, `main`, the web server, the DOM code of the preview page and `internal/app/app.go` are not part of this model: they are wiring and I/O.
- The zip writer is an object with an ordered list of (part name, content) entries:
  - `Create` and `Write` of one entry are a single step, which fails for part names in a given set;
  - the archive framing and compression of `archive/zip` are not modelled;
  - the content of the three constant parts (`_rels/.rels`, `docProps/app.xml`, `docProps/core.xml`) is kept as text, and nothing is proved about it.
- The CSV writer is an object that takes records until a given capacity:
  - the field quoting of `encoding/csv` and its buffering are not modelled;
  - a failing write is what makes `Write` report an error.
- Strings are sequences of Unicode code points:
  - Go's UTF-8 byte strings and invalid encodings are not modelled;
  - the "rune" counts of `trimRunes` and `sanitizeSheetName` are sequence lengths;
  - the JavaScript preview's UTF-16 code units are likewise characters.
- SheetsPayload.ReadErrorMessage: counts its 4096 limit in characters, whereas the source reads 4096 bytes.
- Converter.RegisteredLegal: sheet-name legality is proved while the source count plus one has at most 26 digits. The suffix counts are unbounded integers here, whereas a Go `int` has at most 19 digits.
- XmlText.Escape: models `xml.EscapeText` over code points; its byte-level handling of invalid UTF-8 is not modelled.
- `Workbook` part contents are built as complete strings before they are written; the `strings.Builder` buffering is not modelled.
- The parser test's six-case document is covered by the generic `CaseParser.WorkedDocument`, the per-line lemmas and `CaseParser.ExpectedCase`; that literal document is not restated.
- `HeadingParser` and `CaseParser` take the line scanner's error as given; the `bufio.ErrTooLong` condition is part of that error.
